// The linked queue of moudles/server/dm_threading_pool.c: what enqueue and dequeue do to it
// while they hold its mutex.
module PoolQueue {
  import opened PoolTask

  class Link {
    const task: Task
    var next: Link?

    constructor (task: Task)
      ensures this.task == task && next == null
    {
      this.task := task;
      next := null;
    }
  }

  class Queue {
    var head: Link?
    var tail: Link?
    ghost var links: seq<Link>

    // head leads through next to exactly the links, once each, and tail is the last of them.
    ghost predicate Valid()
      reads this, links
    {
      && head == (if links == [] then null else links[0])
      && tail == (if links == [] then null else links[|links| - 1])
      && (forall i :: 0 <= i < |links| - 1 ==> links[i].next == links[i + 1])
      && (links != [] ==> links[|links| - 1].next == null)
      && (forall i, j :: 0 <= i < j < |links| ==> links[i] != links[j])
    }

    ghost function Contents(): (tasks: seq<Task>)
      reads this
      ensures |tasks| == |links|
    {
      seq(|links|, i requires 0 <= i < |links| reads this => links[i].task)
    }

    constructor ()
      ensures Valid() && Contents() == [] && links == []
    {
      head, tail := null, null;
      links := [];
    }

    // The result says whether the condition variable is signalled.
    method Enqueue(task: Task) returns (signalled: bool)
      requires Valid()
      modifies this, links
      ensures Valid() && Contents() == old(Contents()) + [task]
      ensures signalled <==> old(Contents()) == []
      ensures |links| == |old(links)| + 1 && links[..|old(links)|] == old(links) && fresh(links[|old(links)|])
    {
      var node := new Link(task);
      if head == null {
        head := node;
        tail := node;
        signalled := true;
      } else {
        tail.next := node;
        tail := node;
        signalled := false;
      }
      links := links + [node];
    }

    // The part of dequeue after its wait loop, which ends only with a head.
    method Dequeue() returns (task: Task)
      requires Valid() && head != null
      modifies this
      ensures Valid() && old(Contents()) == [task] + Contents()
      ensures links == old(links)[1..]
    {
      ghost var before := links;
      assert 1 < |before| ==> before[0].next == before[1];
      var temp := head;
      task := temp.task;
      head := head.next;
      if head == null {
        tail := null;
      }
      links := links[1..];
      assert forall i :: 0 <= i < |links| ==> links[i] == before[i + 1];
    }
  }
}
