# A Dafny model of the server's data structures and protocols

The repository is a small HTTP server in C, with request and response parsing in Go, and a few test
programs beside it. This project models the parts in which something can go wrong, and proves what they
keep. `dafny verify dfyconfig.toml` checks it.

**The red-black tree** (`Rb*.dfy`). `RbNode` has the nodes, `RbView` the tree that a graph of nodes lays out
and contexts with a hole in them, `RbSteps` what single writes do to a layout, `RbRules` the colour rules and
how each fix-up round moves the one broken rule, `RbOrder` the order of keys, `RbTree` the class whose methods
overwrite `left`, `right`, `parent`, `color` and the root as the C code does, and `RbRuns` whole runs. Between
any two rounds of `fixInsert` the only broken rule is a red node with a red parent (or a red root); between
any two rounds of `fixDelete` exactly one black node is missing above `x`. The two mirrored halves of each
loop are one method with a `side` argument; both rotations are written out.

The C code reads and writes through `x` when `x` is NULL (lines 169 and 261). `DeleteNode` therefore has two
readings. As meant, the parent of `x` travels beside `x`, and deletion removes exactly the node that the
search finds and restores every rule. Taken literally, deletion faults on a NULL `x` exactly when `NullSafe`
fails, and whenever it does not fault, the loop of `fixDelete` is never entered: the literal text never
rebalances.

**The thread pool** (`Pool*.dfy`). `PoolQueue` is the linked queue that `enqueue` and `dequeue` overwrite under
the mutex. `PoolProtocol` is one queue with any number of producers and workers, interleaved at every step
that another thread can observe, with spurious wake-ups. Signalling only on the step from empty to non-empty
loses no wake-up if and only if a queue has at most one worker. `PoolShutdown` adds `thread_pool_destroy` over
all queues: the joins return, and each worker has executed what was enqueued before the first pill, in order.

**The timers** (`Timer*.dfy`). `TimerHeap` is the array heap with its moving hole. `TimerList` is the linked
list with its one-pass `heapify`, which does not put the earliest timer in front: it reverses the entries that
are not running maxima, and puts them before those that are. What holds all the same, what does not, and
exactly when, is proved there. `TimerRuns` runs the list through any additions, deletions and ticks,
`TimerRing` has what happens to a timer that is added twice, `TimerBoth` runs both schedulers on the same
additions and ticks, and `TimerLife` puts the timers inside requests.

**The HTTP codec** (`Http*.dfy`). `HttpText` has the Go string functions, `HttpLines` texts as lines,
`HttpRequest` and `HttpResponse` the printers and parsers, `HttpRoundTrip` that parsing undoes printing,
`HttpReprint` when printing undoes parsing, `HttpSpelling` which spellings of a header the parser takes for
the same, `HttpAnswers` which requests it refuses and how, `HttpBody` when a body is taken for complete, and
`HttpArrival` that the line scan and the byte scan agree, what later bytes can change, and what a request is
taken for while it is arriving. Strings stand for bytes, one character each. The shape of messages is that of
sections 2.1, 3 and 5 of RFC 9112.

**Connections** (`Conn*.dfy`). `ConnProtocol` is the event loop with its handlers, run by any number of worker
processes that come, go and die at any point, over four shared counters. `ConnCounters` has what all runs
keep, `ConnDescriptors` that open connections have descriptors of their own. `ConnHandlers` has the read and
write loops of the handlers, against a kernel that hands out bytes in any portions, and ties each handler to
the steps of the protocol. `ConnEvents` says where each event leads, up to connections that are served from
accept to close, and `ConnBatches` that every run handles every event of a batch.

**The master** (`Master*.dfy`). `MasterProtocol` is the worker table with `fork`, `waitpid`, `SIGUSR1` and
workers that die at any time; `MasterRuns` is supervision over whole runs, `MasterSweep` what one sweep does
to each worker, dead or alive, `MasterHoles` what a failed initial `fork` leads to, and `MasterShutdown` what
the signal achieves.

Kernel calls, clocks, the order of a Go map and the scheduling of threads are arguments or free choices of
the model. Integers are unbounded where the code only compares them; `strconv.Atoi` has its 64-bit range.

## Findings

- `deleteNode` (rbtree.c) writes or reads through a NULL pointer for every tree and key outside `NullSafe`, for
  instance for the middle key of three.
- A full read buffer makes `read` return 0, which `event_http_read` takes for the end of the connection: when 1024
  bytes (4096 for the proxy) have come before a read finds the socket empty, the connection is closed unanswered.
- `event_http_write` never goes round its loop twice: a short write ends it, and the response counts as written
  although only a part, or nothing, was sent.
- If `set_non_blocking` fails, the accepted descriptor is never closed, and nothing is counted.
- If `EPOLL_CTL_MOD` fails, `read_num` is no longer bounded by `accept_num`.
- `ParseHeader` returns `InvalidHeaders` for a valid request that is cut off behind a complete header line, and
  asks for more only before the first complete header line or once the last line has its colon.
- An accepted request can be printed from what was parsed and parsed again to the same fields exactly if all its
  header names start with an ASCII byte; any other first byte is replaced each time, and the name grows.
- A content type `multipart/form-data` without `boundary=` makes the source look for `t/form-data--` in the body.
- `HttpResParse` loses every word of the reason phrase but the first.
- A list timer that is due can be missed behind one that is not; after additions 1, 5 and 3 the list is 3, 1, 5.
- Adding a timer that is in the list already never returns: the timer ends up linked behind itself.
- An initial `fork` that failed leaves its slot empty for good, and the master waits for the pid 0 there: from any
  state at the test of the flag the failure branch of `waitpid`, which ends the master, can be reached if and only
  if some slot is empty. Workers restarted after `SIGUSR1` are not sent `SIGTERM`.

## Model

| member | source | states |
|---|---|---|
| RbTree.RbTree.LeftRotate | moudles/test/rbtree.c:56-74 | the cells of the five nodes involved after the rotation, and that every other cell is unchanged |
| RbTree.RbTree.RightRotate | moudles/test/rbtree.c:76-94 | the mirror image, with the source's own test on x->right |
| RbTree.RbTree.LeftRotateAt | moudles/test/rbtree.c:56-74 | a left rotation inside any valid layout is the textbook step on the tree and keeps the in-order sequence and all parent links |
| RbTree.RbTree.RightRotateAt | moudles/test/rbtree.c:76-94 | the same of a right rotation |
| RbTree.RbTree.InsertRecolor | moudles/test/rbtree.c:102-106 | the red-uncle round keeps the loop invariant and moves z to its grandparent |
| RbTree.RbTree.InsertRound | moudles/test/rbtree.c:99-133 | every round keeps "only z and its parent may both be red", the in-order sequence and the layout, and either z climbs or the loop ends |
| RbTree.RbTree.FixInsert | moudles/test/rbtree.c:98-135 | from one red-red edge at z, or a red root, to a tree that obeys all rules, with the same in-order sequence |
| RbTree.RbTree.FindPlace | moudles/test/rbtree.c:138-149 | the loop ends at the free place that lies behind all keys that are not above the new one |
| RbTree.RbTree.InsertNode | moudles/test/rbtree.c:137-163 | a valid tree becomes a valid tree whose in-order sequence is the old one with one new node behind all keys not above it |
| RbTree.RbTree.DeleteDrop | moudles/test/rbtree.c:171-176 | a red sibling is turned into the black-sibling case without changing what is missing |
| RbTree.RbTree.DeletePassUp | moudles/test/rbtree.c:177-180 | a sibling with two black children turns red and the parent, now one black short, becomes x |
| RbTree.RbTree.DeleteLean | moudles/test/rbtree.c:182-188 | the inner-red case becomes the outer-red case, one black still missing at x |
| RbTree.RbTree.DeleteMend | moudles/test/rbtree.c:189-194 | the outer-red case ends with all rules restored |
| RbTree.RbTree.DeleteRound | moudles/test/rbtree.c:168-224 | every round keeps "exactly one black missing at x" and the in-order sequence, and ends the loop or moves x up |
| RbTree.RbTree.FixDelete | moudles/test/rbtree.c:167-227 | from one black missing at x, NULL or not, to a tree that obeys all rules, with the same in-order sequence |
| RbTree.RbTree.Transplant | moudles/test/rbtree.c:229-239 | the cells after v takes the place of u, and that every other cell is unchanged |
| RbTree.RbTree.ReplaceBySuccessor | moudles/test/rbtree.c:257-270 | the successor takes the place and colour of z; taken literally it faults exactly when the successor is the right child of z and has no right child |
| RbTree.RbTree.Unlink | moudles/test/rbtree.c:246-271 | z leaves the layout and the in-order sequence, and what is left obeys all rules or misses one black at x |
| RbTree.RbTree.Restore | moudles/test/rbtree.c:273-274 | fixDelete is called exactly when a black was removed; taken literally it faults exactly when x is NULL below the root |
| RbTree.RbTree.DeleteNode | moudles/test/rbtree.c:241-277 | as meant: removes exactly the node that searchNode finds and leaves a valid tree, or changes nothing when the key is absent; literally: faults if and only if NullSafe fails |
| RbTree.RbTree.SearchNode | moudles/test/rbtree.c:291-299 | on a laid-out tree the recursion returns the first node with the key on the search path |
| RbTree.RbTree.Search | moudles/test/rbtree.c:291-299 | in a valid tree it returns a node with the key if and only if the key is stored |
| RbTree.RbTree.GetMinimumNode | moudles/test/rbtree.c:301-305 | the loop ends at the first node in order |
| RbTree.RbTree.constructor | moudles/test/rbtree.c:311-311 | the empty tree is valid |
| RbOrder.FoundIffStored | moudles/test/rbtree.c:145-148 | a search finds a key if and only if it is in the in-order sequence, wherever rotations have put equal keys |
| RbRules.RecolorGap | moudles/test/rbtree.c:102-106 | recolouring moves the one red-red edge two levels up |
| RbRules.BendGap | moudles/test/rbtree.c:108-111 | the inner-grandchild rotation keeps the one red-red edge where it is |
| RbRules.LiftGap | moudles/test/rbtree.c:112-114 | recolouring and rotating at the grandparent removes the red-red edge |
| RbRules.DropGap | moudles/test/rbtree.c:171-176 | rotating a red sibling up keeps exactly one black missing at x |
| RbRules.PassUpGap | moudles/test/rbtree.c:177-180 | reddening a sibling with black children moves the missing black to the parent |
| RbRules.LeanGap | moudles/test/rbtree.c:182-188 | rotating at the sibling keeps one black missing and makes the outer child red |
| RbRules.MendedRules | moudles/test/rbtree.c:189-194 | the last rotation pays back the missing black |
| RbRules.SuccessorGap | moudles/test/rbtree.c:257-270 | replacing a node by its successor leaves all rules, or one black missing where the successor stood |
| RbRules.LiteralDeleteNeverRebalances | moudles/test/rbtree.c:167-168 | whenever literal deletion does not fault, fixDelete is called with a red node or the root, so its loop is never entered |
| RbRules.LiteralDeleteFaults | moudles/test/rbtree.c:260-261 | in the tree of the keys 1, 2 and 3, whatever the colour of its leaves, deleting the middle one goes through NULL |
| RbRules.HeightBound | moudles/test/rbtree.c:98-163 | 2 to the height is at most (n + 1) squared, for n stored keys |
| RbRules.SearchIsLogarithmic | moudles/test/rbtree.c:291-299 | searchNode makes at most 2 log2(n + 1) recursive calls |
| RbRuns.Step | moudles/test/rbtree.c:137-277 | one operation changes the multiset of keys by exactly its key and keeps the tree valid |
| RbRuns.Run | moudles/test/rbtree.c:137-299 | every run of insertions and deletions from the empty tree ends in a valid tree with exactly the keys it should hold, in which every search is logarithmic |
| PoolQueue.Queue.Enqueue | moudles/server/dm_threading_pool.c:29-43 | the linked queue holds its old contents and the task behind them; signalled if and only if it was empty |
| PoolQueue.Queue.Dequeue | moudles/server/dm_threading_pool.c:51-59 | takes the first task out of the linked queue and keeps the rest |
| PoolQueue.Queue.constructor | moudles/server/dm_threading_pool.c:22-27 | the initial queue is valid and empty |
| PoolProtocol.StepExclusive | moudles/server/dm_threading_pool.c:34-58 | every step keeps the mutex with exactly one thread in a critical section |
| PoolProtocol.StepFifo | moudles/server/dm_threading_pool.c:29-60 | every step keeps submitted = taken + queued: nothing is lost, duplicated or overtaken |
| PoolProtocol.NoLostWakeup | moudles/server/dm_threading_pool.c:34-50 | with at most one worker, in every reachable state with a free mutex, an unsignalled waiting worker means an empty queue |
| PoolProtocol.LostWakeup | moudles/server/dm_threading_pool.c:34-50 | with two or more workers on a queue some run strands a sleeping worker beside a queued task |
| PoolProtocol.OneWorkerPerQueue | moudles/server/dm_threading_pool.c:91-94 | no wake-up is ever lost if and only if a queue has at most one worker |
| PoolProtocol.ExecutedInOrder | moudles/server/dm_threading_pool.c:63-83 | what the worker executed is always an initial part of what was submitted; once it has exited, exactly what stood before the first pill |
| PoolProtocol.DrivingStepsRunOut | moudles/server/dm_threading_pool.c:29-83 | every step but a submission or a spurious wake-up lowers a rank |
| PoolProtocol.NeverStuck | moudles/server/dm_threading_pool.c:45-69 | once a pill is submitted, some thread can always take such a step until the worker has exited |
| PoolProtocol.RestIsDone | moudles/server/dm_threading_pool.c:29-83 | in a run that has come to rest, with or without a pill, no enqueue is under way and everything submitted has been executed, in order, unless the worker has stopped at a pill |
| PoolShutdown.StepPoolInv | moudles/server/dm_threading_pool.c:99-111 | every step of any thread keeps the invariant of the pool under destruction |
| PoolShutdown.DestroyedPool | moudles/server/dm_threading_pool.c:99-111 | when thread_pool_destroy has returned, each worker has executed exactly what stood before the first pill of its queue, in order |
| PoolShutdown.PoolStepsRunOut | moudles/server/dm_threading_pool.c:99-111 | without new submissions and spurious wake-ups only boundedly many steps are left |
| PoolShutdown.DestroyerNeverStuck | moudles/server/dm_threading_pool.c:102-105 | while the pool is being destroyed some thread can always go on |
| PoolShutdown.DestroyReturns | moudles/server/dm_threading_pool.c:102-105 | from every reachable state of the destruction, every join can return |
| TimerHeap.MinHeap.FillFromBelow | moudles/test/timer/timer.c:22-31 | moving the hole up and storing once equals exchanging the entry with later parents |
| TimerHeap.MinHeap.FillFromAbove | moudles/test/timer/timer.c:38-47 | moving the hole down and storing once equals exchanging the entry with earlier children |
| TimerHeap.RisenHeap | moudles/test/timer/timer.c:22-31 | an entry that may be earlier than its parent rises to a heap of the same events |
| TimerHeap.SunkHeap | moudles/test/timer/timer.c:37-48 | an entry that may be later than its children sinks to a heap of the same events |
| TimerHeap.TopIsEarliest | moudles/test/timer/timer.c:33-35 | nothing in a heap is earlier than its first entry |
| TimerHeap.MinHeap.Push | moudles/test/timer/timer.c:22-31 | keeps the heap and adds exactly one event |
| TimerHeap.MinHeap.Pop | moudles/test/timer/timer.c:37-48 | keeps the heap and takes out exactly its first event |
| TimerHeap.MinHeap.HandleEvents | moudles/test/timer/timer.c:50-58 | fires, in order of their times, exactly the events that are due, and leaves exactly the others |
| TimerHeap.MinHeap.AddTimer | moudles/test/timer/timer.c:60-65 | adds exactly the event now + timeout |
| TimerList.TimerList.Heapify | moudles/server/dm_timer.c:26-41 | relinking gives the reversed non-records followed by the records, in a list without cycles |
| TimerList.TimerList.AddTimer | moudles/server/dm_timer.c:68-85 | for a timer outside the list, which is when it returns: appends the new deadline and heapifies; no timer is lost or doubled |
| TimerList.TimerList.DeleteTimer | moudles/server/dm_timer.c:44-64 | takes exactly the target out, heapifying unless it was the head; an absent target changes nothing |
| TimerList.TimerList.ExecuteTimers | moudles/server/dm_timer.c:87-102 | fires exactly the due entries at the front, in list order, and leaves the rest |
| TimerOrder.HeapifiedBag | moudles/server/dm_timer.c:26-41 | a pass is a permutation |
| TimerOrder.LastIsLatest | moudles/server/dm_timer.c:26-41 | a pass puts a latest entry at the end |
| TimerOrder.PassSettles | moudles/server/dm_timer.c:26-41 | each pass brings at least one more entry to rest at the end |
| TimerOrder.PassesSort | moudles/server/dm_timer.c:26-41 | as many passes as there are entries sort any list |
| TimerOrder.AddedToAscending | moudles/server/dm_timer.c:68-85 | a sorted list stays sorted if and only if the new deadline is no earlier than all others or no later |
| TimerOrder.RemovedFromAscending | moudles/server/dm_timer.c:53-63 | a sorted list stays sorted under deletion and heapify leaves it alone |
| TimerOrder.FiresAllDue | moudles/server/dm_timer.c:92-101 | a tick fires every due timer if and only if no due one stands behind one that is not |
| TimerOrder.DueTimerMissed | moudles/server/dm_timer.c:68-102 | adding 1, 5 and 3 leaves 3, 1, 5, and a tick at 1 fires nothing |
| TimerRuns.RunList | moudles/server/dm_timer.c:26-102 | over any run of additions, deletions and ticks with a forward clock and one timeout the list stays sorted: additions go to its end, a deletion takes out its one entry in place, a tick fires all that is due in order |
| TimerRuns.StepRun | moudles/server/dm_timer.c:44-102 | one operation on the linked list does to it exactly what it should do to the sequence of those who wait |
| TimerRing.WalkStops | moudles/server/dm_timer.c:70-81 | with the link of a timer inside the list cleared, the walk to the end stops at that timer |
| TimerRing.AddedTwiceNeverReturns | moudles/server/dm_timer.c:68-85 | the loop of heapify then goes on for any number of rounds: addTimer returns only for a timer outside the list |
| TimerBoth.AddBoth | moudles/server/dm_timer.c:68-85 | adding to both schedulers under a forward clock and one timeout keeps them alike and the list sorted |
| TimerBoth.TickBoth | moudles/server/dm_timer.c:87-102 | a tick fires the same deadlines in the same order from both and leaves them alike |
| TimerBoth.RunBoth | moudles/test/timer/timer.c:50-65 | over any run of additions and ticks in which the heap's array has room at each addition, both schedulers fire the same sequence of deadlines, the one that the run calls for |
| TimerLife.TimedServer.Accept | moudles/server/dm_events.c:177-190 | a new request's timer, due at now + expire, joins the list, which stays free of cycles and duplicates |
| TimerLife.TimedServer.Close | moudles/server/dm_events.c:136-158 | a freed request's timer is out of the list and no other timer is |
| TimerLife.TimedServer.Tick | moudles/server/dm_timer.c:87-102 | exactly the timers at the front that are due fire, every request recovered from one is live, and no timer fires twice |
| HttpText.Index | moudles/server/lib/request/request.go:153-185 | the first occurrence of a separator, or -1 exactly when there is none |
| HttpText.SplitConcat | moudles/server/lib/request/request.go:153-157 | splitting a text at a separator in it gives the parts of both sides |
| HttpText.WideSpaceIs | moudles/server/lib/request/request.go:189-192 | what TrimSpace takes for white space beyond ASCII is the UTF-8 of exactly the code points that Unicode calls so |
| HttpText.AtoiDecimal | moudles/server/lib/request/request.go:246-246 | strconv.Atoi undoes decimal printing, within 64 bits |
| HttpRequest.Req.ByteRow | moudles/server/lib/request/request.go:132-145 | prints the first line, the headers in some order of the map, a blank line and the body |
| HttpRequest.Req.ParseHeader | moudles/server/lib/request/request.go:148-197 | the loop returns and assigns what the recursive parser does, on every input, errors and panics included |
| HttpRequest.Req.ParseBody | moudles/server/lib/request/request.go:208-230 | the byte scan leaves what follows the first CRLFCRLF, or nothing; it panics on fewer than 4 bytes |
| HttpLines.SplitJoined | moudles/server/lib/request/request.go:153-153 | splitting undoes joining lines by CRLF |
| HttpLines.JoinedSplit | moudles/server/lib/request/request.go:153-153 | joining undoes splitting, and no part holds a CRLF |
| HttpRoundTrip.RoundTrip | moudles/server/lib/request/request.go:132-230 | for every well-formed request, header order and body, parsing the printed bytes gives RequestOk, the same fields, and the same body |
| HttpRoundTrip.RowInLines | moudles/server/lib/request/request.go:132-145 | the printed bytes, line by line |
| HttpRoundTrip.PrintedParses | moudles/server/lib/request/request.go:175-196 | what the parser makes of printed header lines depends on what follows only through the rest of the loop |
| HttpReprint.AcceptedIsPrintable | moudles/server/lib/request/request.go:148-197 | every accepted request has a first line and header pairs that print as lines, and no name that starts with a lower-case letter or with a byte beyond ASCII other than U+FFFD |
| HttpReprint.CanonicalIs | moudles/server/lib/request/request.go:189-191 | changing the first byte keeps a name trimmed, on one line and free of colons, and doing it twice changes nothing exactly for an ASCII byte |
| HttpReprint.Reprinted | moudles/server/lib/request/request.go:132-197 | an accepted request printed from what was parsed is accepted with the same body, and with the same fields if and only if all names start with an ASCII byte |
| HttpSpelling.PadsAreTrimmed | moudles/server/lib/request/request.go:189-192 | blanks, tabs and all other ASCII white space around a trimmed text are all that is taken off |
| HttpSpelling.NothingLeft | moudles/server/lib/request/request.go:189-192 | no tab, blank or other ASCII white space is left at the ends of what was trimmed |
| HttpSpelling.SpellsSomething | moudles/server/lib/request/request.go:191-191 | every name is a spelling of some key: a capital, or U+FFFD for a byte beyond ASCII |
| HttpSpelling.SpellingsParse | moudles/server/lib/request/request.go:148-197 | whatever white space stands around names and values, and whichever case a name starts with, the same request is parsed: a lower-case first letter is stored as the capital |
| HttpAnswers.NoFirstLine | moudles/server/lib/request/request.go:150-156 | without CRLF the answer is None or UnknowInvalid and nothing is assigned |
| HttpAnswers.FirstLineRefused | moudles/server/lib/request/request.go:157-160 | a first line without exactly two blanks is FirstLineInvalid |
| HttpAnswers.FirstLineAnswer | moudles/server/lib/request/request.go:59-179 | which method, path and protocol is refused with which error, in which order, and what has been assigned by then |
| HttpAnswers.NoColonRefused | moudles/server/lib/request/request.go:181-188 | behind good header lines a line without a colon is InvalidHeaders, and the lines before it are assigned |
| HttpAnswers.NamelessPanics | moudles/server/lib/request/request.go:189-191 | a line with nothing but white space before its colon panics |
| HttpArrival.BodyNeverMatters | moudles/server/lib/request/request.go:181-196 | what follows the first CRLFCRLF influences neither the result nor the fields |
| HttpArrival.ScansAgree | moudles/server/lib/request/request.go:182-217 | for every accepted input the line scan stops where the byte scan finds the first CRLFCRLF |
| HttpArrival.AcceptedForGood | moudles/server/lib/request/request.go:148-230 | nothing without CRLFCRLF is accepted; an accepted input stays accepted with the same fields when bytes are appended, and they are appended to the body |
| HttpArrival.CutShort | moudles/server/lib/request/request.go:154-196 | for every proper part of a printed header, which error is returned: RequestNeedReadMore exactly when at most one CRLF is there or the last line has its colon |
| HttpArrival.CompleteWhenAllThere | moudles/server/lib/request/request.go:243-265 | with a correct Content-Length a request that arrives in any pieces is complete exactly when the last byte has come |
| HttpArrival.MultipartForGood | moudles/server/lib/request/request.go:233-242 | a body that is complete by its boundary stays complete |
| HttpBody.CompleteAtOnce | moudles/server/lib/request/request.go:232-256 | a printed request with neither a length nor a multipart type is complete as soon as its header is there |
| HttpBody.LengthDecides | moudles/server/lib/request/request.go:244-255 | with a length, and no multipart type, a body is complete exactly at that length |
| HttpBody.NoLengthPanics | moudles/server/lib/request/request.go:245-249 | a length with a byte that is no digit panics |
| HttpBody.BoundaryDecides | moudles/server/lib/request/request.go:233-242 | with a boundary b, a body is complete if and only if b-- is in it |
| HttpBody.NoBoundary | moudles/server/lib/request/request.go:235-237 | without one, if and only if t/form-data-- is in it |
| HttpResponse.Response.GenerateResponse | moudles/server/lib/response/response.go:66-77 | prints the first line, the headers in some order of the map, a blank line and the body |
| HttpResponse.Response.HttpResParse | moudles/server/lib/response/response.go:79-106 | the loop returns and assigns what the recursive parser does, on every input |
| HttpResponse.StatusLineSplits | moudles/server/lib/response/response.go:47-49 | the status line that SetFirstLine stores splits into the protocol, the code and the words of the reason phrase |
| HttpResponse.StatusCodeComesBack | moudles/server/lib/response/response.go:47-49 | the second word of the status line is the number of the code, within 64 bits |
| HttpResponse.ResponseRoundTrip | moudles/server/lib/response/response.go:66-106 | for any header order and any body, exactly the header map comes back, and the first three words of the first line |
| HttpResponse.FirstLineComesBack | moudles/server/lib/response/response.go:47-106 | a response begun by SetFirstLine is accepted, and its first line comes back if and only if the reason phrase has no blank |
| ConnCounters.StepInv | moudles/server/dm_events.c:118-346 | every step of every worker is defined and keeps the invariant |
| ConnCounters.CountersAgree | moudles/server/dm_events.c:136-197 | in every run accept_num = close_num + open + refused, and write_num <= read_num <= accept_num + failed modifications |
| ConnCounters.CountersOrdered | moudles/server/dm_events.c:270-346 | while EPOLL_CTL_MOD succeeds, write_num <= read_num <= accept_num in every run |
| ConnCounters.ReadsUnbounded | moudles/server/dm_events.c:300-310 | when it fails, some run counts one connection as read any number of times |
| ConnCounters.EventsAreSound | moudles/server/dm_server.c:79-101 | in every run each connection is closed at most once, only live requests are handled, and tempfd <= lis_num holds for exactly the events of listeners |
| ConnCounters.FilledFromBelow | moudles/server/dm_server.c:38-62 | n descriptors handed out lowest-free first leave 0 to n - 1 open, whatever was open before |
| ConnDescriptors.DescriptorsApart | moudles/server/dm_events.c:136-197 | in every run no two open connections of a worker have the same descriptor, and each has an open one |
| ConnHandlers.ReadAll | moudles/server/dm_events.c:279-299 | the loop fills the buffer with what arrives, in any portions; a full buffer ends it as an end of the connection |
| ConnHandlers.WriteAll | moudles/server/dm_events.c:323-344 | at most one write is made; how much of the data is sent, and when the loop fails |
| ConnHandlers.EventHttpRead | moudles/server/dm_events.c:270-313 | the phase and the counters after a read, by what arrived and whether 1024 bytes did |
| ConnHandlers.HandleHttpWrite | moudles/server/dm_events.c:118-126 | counts the response unless the write failed hard, sends what one write takes, and always closes |
| ConnHandlers.EventHttpReverse | moudles/server/dm_events.c:420-477 | exactly when the proxy closes the client, which part of the request reaches the backend and which part of its answer the client, and that no other counter changes |
| ConnHandlers.ReadIsARun | moudles/server/dm_events.c:270-313 | the effect of the read handler is that of the steps its worker takes |
| ConnHandlers.WriteIsARun | moudles/server/dm_events.c:315-346 | the same of the write handler |
| ConnHandlers.ReverseIsARun | moudles/server/dm_events.c:420-477 | the same of the proxy handler |
| ConnHandlers.CloseIsARun | moudles/server/dm_events.c:136-158 | the same of handle_close, called for a hang-up |
| ConnEvents.ListenerAccepts | moudles/server/dm_events.c:167-202 | an event of a listener leads to as many connections of its kind as there are, counted and registered for reading, and back to the loop |
| ConnEvents.OneIsRefused | moudles/server/dm_events.c:188-196 | when EPOLL_CTL_ADD fails, the connection stays counted, its descriptor is closed, and the loop goes on |
| ConnEvents.OneIsLeaked | moudles/server/dm_events.c:167-172 | when set_non_blocking fails, the loop ends and the descriptor stays open without a connection |
| ConnEvents.ReadableIsRead | moudles/server/dm_server.c:88-89 | EPOLLIN on an HTTP connection leads through the read handler, with each of its ends, and back to the loop |
| ConnEvents.WritableIsServed | moudles/server/dm_server.c:91-92 | EPOLLOUT alone on an HTTP connection leads to its response, counted unless the write fails hard, and to its end |
| ConnEvents.ReadableIsProxied | moudles/server/dm_server.c:88-89 | EPOLLIN on a proxy connection leads into the proxy handler |
| ConnEvents.HungUpIsClosed | moudles/server/dm_server.c:94-96 | EPOLLHUP or EPOLLERR alone leads to the end of the connection, and close_num alone is raised |
| ConnEvents.OneMoreServed | moudles/server/dm_server.c:72-104 | from every reachable state a waiting worker can serve one more connection from accept to close: each counter is raised once and no descriptor is lost |
| ConnEvents.AnyNumberServed | moudles/server/dm_server.c:72-104 | a server of one worker comes to any number of served connections, with all four counters equal to it |
| ConnBatches.BatchIsHandled | moudles/server/dm_server.c:79-101 | in every run, whatever other workers do, each event of a batch has had one of the outcomes of its handler on its connection by the time the worker waits again; none is passed over |
| ConnBatches.OthersUntouched | moudles/server/dm_server.c:79-101 | in the same runs a connection of the worker without an event is as it was |
| MasterProtocol.StepInv | moudles/server/dm_master.c:84-150 | every step but a failing initial fork keeps the worker table backed by different children, and the failure branch of waitpid untaken |
| MasterRuns.Supervised | moudles/server/dm_master.c:118-148 | when all initial forks succeed, at every sweep boundary the slots hold the pids of different children, and all there are, and waitpid never fails |
| MasterHoles.NoHoleNoFailure | moudles/server/dm_master.c:88-101 | a run that ends with no empty slot had no failing initial fork |
| MasterHoles.FailsWithHole | moudles/server/dm_master.c:118-147 | from every reachable state at the test of the flag, with the flag on, the failure branch of waitpid can be reached if and only if some slot is empty |
| MasterHoles.FirstForkFails | moudles/server/dm_master.c:88-147 | for every number of workers some run in which only the first fork fails ends there |
| MasterHoles.SweepPassesHoles | moudles/server/dm_master.c:122-126 | while some worker runs and none has ended, a sweep passes over empty slots and changes nothing |
| MasterRuns.SweepReplaces | moudles/server/dm_master.c:120-148 | every worker dead when a sweep begins is waited for and replaced when it ends |
| MasterSweep.SweepKeeps | moudles/server/dm_master.c:120-148 | a worker that runs when a sweep begins and does not end during it is in the same slot when it is over |
| MasterSweep.SweepExact | moudles/server/dm_master.c:120-148 | a sweep forks exactly as many workers as slots it finds ended, into these slots, and keeps the worker of every other; it finds all that were dead before, and no other but those that end during it |
| MasterSweep.QuietSweep | moudles/server/dm_master.c:123-126 | while all workers run, a sweep changes nothing and forks none |
| MasterShutdown.StopsAfterSignal | moudles/server/dm_master.c:33-40 | after SIGUSR1 the master takes at most 3 n + 2 steps and restarts at most n workers, none once the sweep is over |
| MasterShutdown.NeverStuck | moudles/server/dm_master.c:118-150 | while it runs, the master always has a step to take |
| MasterShutdown.SignalReaches | moudles/server/dm_master.c:33-40 | whatever the master is doing, the signal sends SIGTERM to every child that is in a slot, and to no other; with an empty slot, to all children and the master |
| MasterShutdown.Survivors | moudles/server/dm_master.c:33-40 | when the master has stopped, exactly the workers forked after the last signal were not sent SIGTERM, and the one, if any, that had been forked when it came and was not yet in the table |
| MasterShutdown.WorkerSurvives | moudles/server/dm_master.c:118-150 | some run stops the master and leaves such a worker running |

## Left out

- TLS: `SSL_*`, `event_accept_https` and the HTTPS handlers; their requests carry no counters.
- Sockets, epoll, `fork`, `waitpid`, signals, shared memory and pthreads as such: they are kernel answers or free choices.
- CPU binding, limits, daemonizing, socket options, printing, time formatting, default pages and getters.
- `webbench/`, `timer2.c` and the other test programs.
- RbTree.RbTree.InsertNode: does not model a failing `malloc`; the key of a node is a constant, as nothing in the source changes it.
- RbTree.RbTree.FixInsert: the two mirrored halves of the loop are one method with a `side` argument, and so it is for `FixDelete`.
- RbTree.RbTree.DeleteNode: taken literally, nothing is said about the tree after a fault.
- PoolQueue.Queue.Enqueue: `add_task` always uses queue 0, as the source does, its random index being unused; freed links are dropped from the model's heap.
- PoolProtocol.OneWorkerPerQueue: mutex and condition variable are modelled as pthreads promises them; their destruction in `thread_pool_destroy` is not modelled.
- TimerHeap.MinHeap.Push: requires fewer than 1024 pending events, the size of the source's array, which the source does not test; callbacks do not call back into the scheduler.
- TimerBoth.RunBoth: no deletions, which the heap scheduler does not have; `TimerRuns.RunList` has them for the list.
- TimerLife.TimedServer.Accept: the call of `addTimer` is commented out in the source; the model is of the code with it.
- HttpRequest.Req.ParseHeader: the fields that the source never assigns (`Encoding`, `H2`) are absent; the loop's `SplitN` is the first colon.
- HttpArrival.CompleteWhenAllThere: `int` has 64 bits.
- HttpResponse.Response.GenerateResponse: bodies and texts are strings of bytes; NUL needs no special care there.
- ConnCounters.CountersAgree: the counters start at 0 and are not wrapped; a shared segment left by an earlier server would add its old values. Reading `send_buf` and printing the counters are left out, and a close and its count are one step.
- ConnCounters.EventsAreSound: no descriptor but those of clients is ever closed by a worker, as in the source; listeners of type HTTPS, HTTPS_PROXY and TCP_PROXY are absent, and so are the proxy's short-lived descriptors.
- ConnHandlers.EventHttpReverse: the backend's answer is what is there when `recv` is called once; opening and closing the connection to it are not modelled.
- MasterProtocol.StepInv: `cpu_bind` and the sleeps are absent; `exit` of the master leaves its children alone.
