// The response printer and parser of moudles/server/lib/response/response.go.
module HttpResponse {
  import opened HttpText
  import opened HttpLines
  import opened HttpRequest
  import opened HttpRoundTrip

  // What HttpResParse returns, and a panic of the Go run time.
  datatype Reply = ResponseOk | NoText | BadFirstLine | Panicked

  datatype Answer = Answer(firstLine: string, headers: Headers)

  function SignedDecimal(n: int): string {
    if n < 0 then "-" + Decimal(-n) else Decimal(n)
  }

  function StatusLine(statusCode: int, statusText: string): string {
    "HTTP/1.1 " + SignedDecimal(statusCode) + " " + statusText
  }

  function Text(a: Answer, order: seq<string>, body: string): string
    requires forall k :: k in order ==> k in a.headers
  {
    a.firstLine + CRLF + Ended(HeaderLines(a.headers, order)) + CRLF + body
  }

  // The loop over the lines after the first: whether it panics, and the headers by then.
  function LoopOver(lines: seq<string>, headers: Headers): (bool, Headers) {
    if lines == [] || lines[0] == "" then (false, headers)
    else
      var colon := Index(lines[0], ":");
      if colon < 0 then (true, headers)
      else LoopOver(lines[1..], headers[TrimSpace(lines[0][..colon]) := TrimSpace(lines[0][colon + 1..])])
  }

  function ResParsed(a: Answer, text: string): (Reply, Answer) {
    if text == "" then (NoText, a) else ResParsedLines(a, Split(text, CRLF))
  }

  function ResParsedLines(a: Answer, requestLine: seq<string>): (Reply, Answer)
    requires requestLine != []
  {
    var parts := Split(requestLine[0], " ");
    if |parts| < 3 then (BadFirstLine, a)
    else
      var (panicked, headers) := LoopOver(requestLine[1..], a.headers);
      (if panicked then Panicked else ResponseOk, Answer(parts[0] + " " + parts[1] + " " + parts[2], headers))
  }

  class Response {
    var firstLine: string
    var headers: Headers
    var body: string

    ghost function Current(): Answer
      reads this
    {
      Answer(firstLine, headers)
    }

    constructor ()
      ensures Current() == Answer("", map[]) && body == ""
    {
      firstLine, headers, body := "", map[], "";
    }

    method SetFirstLine(statusCode: int, statusText: string)
      modifies this`firstLine
      ensures firstLine == StatusLine(statusCode, statusText)
    {
      firstLine := "HTTP/1.1 " + SignedDecimal(statusCode) + " " + statusText;
    }

    method SetHeader(key: string, value: string)
      modifies this`headers
      ensures headers == old(headers)[key := value]
    {
      headers := headers[key := value];
    }

    method GenerateResponse() returns (res: string)
      ensures exists order :: IsOrder(order, headers.Keys) && res == Text(Current(), order, body)
    {
      var response := firstLine + CRLF;
      ghost var order := [];
      var rest := headers.Keys;
      while rest != {}
        invariant rest <= headers.Keys && IsOrder(order, headers.Keys - rest)
        invariant response == firstLine + CRLF + Ended(HeaderLines(headers, order))
        decreases |rest|
      {
        var key :| key in rest;
        EndedAppend(headers, order, key);
        response := response + key + ": " + headers[key] + "\r\n";
        order := order + [key];
        rest := rest - {key};
      }
      res := response;
      res := res + "\r\n";
      res := res + body;
      assert headers.Keys - rest == headers.Keys;
      assert IsOrder(order, headers.Keys) && res == Text(Current(), order, body);
    }

    method HttpResParse(request: string) returns (reply: Reply)
      modifies this`firstLine, this`headers
      ensures (reply, Current()) == ResParsed(old(Current()), request)
    {
      if request == "" {
        return NoText;
      }
      var requestLine := Split(request, "\r\n");
      var parts := Split(requestLine[0], " ");
      if |parts| < 3 {
        return BadFirstLine;
      }
      firstLine := parts[0] + " " + parts[1] + " " + parts[2];
      var lines := requestLine[1..];
      ghost var start := headers;
      for i := 0 to |lines|
        invariant LoopOver(lines, start) == LoopOver(lines[i..], headers)
        invariant firstLine == parts[0] + " " + parts[1] + " " + parts[2]
      {
        assert lines[i..][1..] == lines[i + 1..];
        var line := lines[i];
        if line == "" {
          break;
        }
        var colon := Index(line, ":");
        if colon < 0 {
          return Panicked;
        }
        headers := headers[TrimSpace(line[..colon]) := TrimSpace(line[colon + 1..])];
      }
      return ResponseOk;
    }
  }

  // ----- round trip -----

  ghost predicate GoodAnswer(a: Answer) {
    Line(a.firstLine) && forall k :: k in a.headers ==> GoodPair(k, a.headers[k])
  }

  lemma LoopStep(lines: seq<string>, key: string, value: string, start: Headers)
    requires GoodPair(key, value) && lines != [] && lines[0] == HeaderLine(key, value)
    ensures LoopOver(lines, start) == LoopOver(lines[1..], start[key := value])
  {
    HeaderLineIs(key, value);
    HeaderLineParses(key, " " + value);
    TrimBlank(value);
  }

  lemma {:induction false} LoopOverPrinted(headers: Headers, order: seq<string>, tail: seq<string>, start: Headers)
    requires forall k :: k in order ==> k in headers && GoodPair(k, headers[k])
    ensures LoopOver(HeaderLines(headers, order) + tail, start) == LoopOver(tail, start + Chosen(headers, order))
    decreases |order|
  {
    if order == [] {
      assert HeaderLines(headers, order) + tail == tail && start + Chosen(headers, order) == start;
    } else {
      var key, value, rest := order[0], headers[order[0]], order[1..];
      HeaderLinesStep(headers, order, tail);
      var behind := HeaderLines(headers, rest) + tail;
      LoopStep([HeaderLine(key, value)] + behind, key, value, start);
      assert ([HeaderLine(key, value)] + behind)[1..] == behind;
      LoopOverPrinted(headers, rest, tail, start[key := value]);
      ChosenStep(headers, order, start);
    }
  }

  function Lines(a: Answer, order: seq<string>): seq<string>
    requires forall k :: k in order ==> k in a.headers
  {
    [a.firstLine] + HeaderLines(a.headers, order)
  }

  lemma TextIsLines(a: Answer, order: seq<string>, body: string)
    requires forall k :: k in order ==> k in a.headers
    ensures Text(a, order, body) == Joined(Lines(a, order)) + BLANK + body
  {
    EndedJoined(Lines(a, order));
    assert Lines(a, order)[1..] == HeaderLines(a.headers, order);
    var text := Joined(Lines(a, order));
    assert text + CRLF + CRLF + body == text + BLANK + body;
  }

  lemma LinesAreLines(a: Answer, order: seq<string>)
    requires GoodAnswer(a) && forall k :: k in order ==> k in a.headers
    ensures forall i :: 0 <= i < |Lines(a, order)| ==> Line(Lines(a, order)[i])
  {
    forall i | 0 < i < |Lines(a, order)|
      ensures Line(Lines(a, order)[i])
    {
      HeaderLineIsLine(order[i - 1], a.headers[order[i - 1]]);
    }
  }

  lemma TextSplits(a: Answer, order: seq<string>, body: string)
    requires GoodAnswer(a) && forall k :: k in order ==> k in a.headers
    ensures Split(Text(a, order, body), CRLF) == Lines(a, order) + ([""] + Split(body, CRLF))
  {
    TextIsLines(a, order, body);
    LinesAreLines(a, order);
    SplitPrinted(Lines(a, order));
    SplitAtBlank(Joined(Lines(a, order)), body);
  }

  // What is parsed when the first line splits into parts.
  function Outcome(parts: seq<string>, a: Answer, loop: (bool, Headers)): (Reply, Answer) {
    if |parts| < 3 then (BadFirstLine, a)
    else (if loop.0 then Panicked else ResponseOk, Answer(parts[0] + " " + parts[1] + " " + parts[2], loop.1))
  }

  lemma LinesParse(a: Answer, lines: seq<string>, firstLine: string, rest: seq<string>)
    requires lines == [firstLine] + rest
    ensures ResParsedLines(a, lines) == Outcome(Split(firstLine, " "), a, LoopOver(rest, a.headers))
  {
    assert lines[1..] == rest;
  }

  lemma HeadersComeBack(a: Answer, order: seq<string>, tail: seq<string>, start: Headers)
    requires GoodAnswer(a) && IsOrder(order, a.headers.Keys) && tail != [] && tail[0] == ""
    ensures LoopOver(HeaderLines(a.headers, order) + tail, start) == (false, start + a.headers)
  {
    LoopOverPrinted(a.headers, order, tail, start);
    assert Chosen(a.headers, order) == a.headers;
  }

  // The header map comes back whatever the order of its lines and whatever the body, and of the first line
  // the first three of the parts that blanks separate.
  lemma ResponseRoundTrip(a: Answer, order: seq<string>, body: string, before: Answer)
    requires GoodAnswer(a) && IsOrder(order, a.headers.Keys)
    ensures ResParsed(before, Text(a, order, body)) ==
            Outcome(Split(a.firstLine, " "), before, (false, before.headers + a.headers))
  {
    var tail := [""] + Split(body, CRLF);
    TextSplits(a, order, body);
    HeadersComeBack(a, order, tail, before.headers);
    LinesAhead(a, order, tail);
    LinesParse(before, Lines(a, order) + tail, a.firstLine, HeaderLines(a.headers, order) + tail);
  }

  lemma LinesAhead(a: Answer, order: seq<string>, tail: seq<string>)
    requires forall k :: k in order ==> k in a.headers
    ensures Lines(a, order) + tail == [a.firstLine] + (HeaderLines(a.headers, order) + tail)
  {
  }

  lemma SpacedParts(a: string, b: string, c: string)
    requires ' ' !in a && ' ' !in b
    ensures Split(a + " " + b + " " + c, " ") == [a, b] + Split(c, " ")
  {
    Absent(a, ' ');
    Absent(b, ' ');
    SplitConcat(a, " ", b);
    SplitConcat(a + " " + b, " ", c);
  }

  lemma StatusLineIs(statusCode: int, statusText: string)
    ensures StatusLine(statusCode, statusText) == "HTTP/1.1" + " " + SignedDecimal(statusCode) + " " + statusText
  {
  }

  // The parts of a status line: the protocol, the code, and the words of the reason phrase.
  lemma StatusLineSplits(statusCode: int, statusText: string)
    ensures Split(StatusLine(statusCode, statusText), " ") ==
            ["HTTP/1.1", SignedDecimal(statusCode)] + Split(statusText, " ")
  {
    StatusLineIs(statusCode, statusText);
    SpacedParts("HTTP/1.1", SignedDecimal(statusCode), statusText);
  }

  lemma AtoiNegative(n: int)
    requires 0 < n <= 0x8000_0000_0000_0000
    ensures Atoi("-" + Decimal(n)) == Number(-n)
  {
    var s := "-" + Decimal(n);
    DigitsDecimal(n);
    assert s[0] == '-' && s[1..] == Decimal(n);
  }

  lemma AtoiSigned(n: int)
    requires -0x8000_0000_0000_0000 <= n <= MAX_INT
    ensures Atoi(SignedDecimal(n)) == Number(n)
  {
    if n < 0 {
      AtoiNegative(-n);
    } else {
      AtoiDecimal(n);
    }
  }

  // Its second part is the number of the code.
  lemma StatusCodeComesBack(statusCode: int, statusText: string)
    requires -0x8000_0000_0000_0000 <= statusCode <= MAX_INT
    ensures var parts := Split(StatusLine(statusCode, statusText), " ");
            |parts| >= 3 && parts[0] == "HTTP/1.1" && Atoi(parts[1]) == Number(statusCode)
  {
    StatusLineSplits(statusCode, statusText);
    AtoiSigned(statusCode);
  }

  // What comes back of a status line has the first word for its reason phrase.
  lemma FirstLineKept(statusCode: int, statusText: string)
    ensures var parts := Split(StatusLine(statusCode, statusText), " ");
            && |parts| >= 3
            && (parts[0] + " " + parts[1] + " " + parts[2] == StatusLine(statusCode, statusText) <==>
                ' ' !in statusText)
  {
    var word := Split(statusText, " ")[0];
    StatusLineSplits(statusCode, statusText);
    FirstWord(statusText);
    StatusLineIs(statusCode, word);
    assert |StatusLine(statusCode, word)| - |word| == |StatusLine(statusCode, statusText)| - |statusText|;
  }

  // A response that SetFirstLine has started is always accepted, and its first line comes back exactly when
  // the reason phrase holds no blank: of "404 Not Found" the last word is lost.
  lemma FirstLineComesBack(statusCode: int, statusText: string, a: Answer, order: seq<string>, body: string,
                           before: Answer)
    requires GoodAnswer(a) && IsOrder(order, a.headers.Keys) && a.firstLine == StatusLine(statusCode, statusText)
    ensures var parsed := ResParsed(before, Text(a, order, body));
            && parsed.0 == ResponseOk && parsed.1.headers == before.headers + a.headers
            && (parsed.1.firstLine == a.firstLine <==> ' ' !in statusText)
  {
    ResponseRoundTrip(a, order, body, before);
    FirstLineKept(statusCode, statusText);
  }

  lemma FirstWord(s: string)
    ensures Split(s, " ")[0] == s <==> ' ' !in s
    ensures |Split(s, " ")[0]| == |s| <==> ' ' !in s
  {
    if ' ' !in s {
      Absent(s, ' ');
    } else {
      var i :| 0 <= i < |s| && s[i] == ' ';
      assert s[i..i + 1] == " ";
      assert At(s, " ", i);
    }
  }
}
