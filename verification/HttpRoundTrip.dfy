// What the request codec promises: the parser and the body splitter undo the printer.
module HttpRoundTrip {
  import opened HttpText
  import opened HttpLines
  import opened HttpRequest

  // ----- well-formed requests -----

  ghost predicate GoodPair(key: string, value: string) {
    Trimmed(key) && ':' !in key && Line(key) && Trimmed(value) && Line(value)
  }

  predicate LowerCase(c: char) {
    'a' <= c <= 'z'
  }

  // The first byte is ASCII and no lower-case letter.
  predicate Capital(key: string) {
    key != "" && key[0] < '\U{80}' && !LowerCase(key[0])
  }

  ghost predicate GoodHeader(key: string, value: string) {
    GoodPair(key, value) && Capital(key)
  }

  ghost predicate GoodFirst(f: Fields) {
    f.verb in METHODS && f.protocol in PROTOCOLS && f.path != "" && ' ' !in f.path && Line(f.path)
  }

  // What prints as lines.
  ghost predicate Printable(f: Fields) {
    GoodFirst(f) && forall k :: k in f.headers ==> GoodPair(k, f.headers[k])
  }

  ghost predicate WellFormed(f: Fields) {
    GoodFirst(f) && forall k :: k in f.headers ==> GoodHeader(k, f.headers[k])
  }

  lemma {:induction false} Absent(s: string, c: char)
    requires c !in s
    ensures Index(s, [c]) == -1 && Split(s, [c]) == [s]
  {
    if s != "" {
      Absent(s[1..], c);
      assert s[..1] == [s[0]];
    }
  }

  lemma Tokens(s: string)
    requires s in METHODS || s in PROTOCOLS
    ensures ' ' !in s && '\r' !in s
  {
    if s in METHODS {
      var i :| 0 <= i < |METHODS| && METHODS[i] == s;
      assert i in {0, 1, 2, 3, 4, 5, 6, 7};
    } else {
      var i :| 0 <= i < |PROTOCOLS| && PROTOCOLS[i] == s;
      assert i in {0, 1, 2, 3, 4};
    }
  }

  lemma SpacedSplits(a: string, b: string, c: string)
    requires ' ' !in a && ' ' !in b && ' ' !in c
    ensures Split(a + " " + b + " " + c, " ") == [a, b, c]
  {
    Absent(a, ' ');
    Absent(b, ' ');
    Absent(c, ' ');
    SplitConcat(a, " ", b);
    SplitConcat(a + " " + b, " ", c);
  }

  lemma FirstLineSplits(f: Fields)
    requires GoodFirst(f)
    ensures Split(FirstLine(f), " ") == [f.verb, f.path, f.protocol] && Line(FirstLine(f))
  {
    Tokens(f.verb);
    Tokens(f.protocol);
    SpacedLine(f.verb, f.path, f.protocol);
    SpacedSplits(f.verb, f.path, f.protocol);
  }

  lemma SpacedLine(a: string, b: string, c: string)
    requires '\r' !in a && Line(b) && '\r' !in c
    ensures Line(a + " " + b + " " + c)
  {
    LineWithin(a + " ", b, " " + c);
    assert a + " " + b + (" " + c) == a + " " + b + " " + c;
  }

  // Bytes around a line that hold no carriage return leave it a line.
  lemma LineWithin(before: string, l: string, after: string)
    requires '\r' !in before && '\r' !in after && Line(l) && (after == "" || after[0] != '\n')
    ensures Line(before + l + after)
  {
    var s := before + l + after;
    forall j: nat
      ensures !EndAt(s, j)
    {
      if EndAt(s, j) {
        assert |before| <= j < |before| + |l|;
        assert l[j - |before|] == '\r';
        assert j + 1 < |before| + |l| ==> EndAt(l, j - |before|);
      }
    }
  }

  lemma HeaderLineIsLine(key: string, value: string)
    requires GoodPair(key, value)
    ensures Line(HeaderLine(key, value)) && HeaderLine(key, value) != ""
  {
    var s := HeaderLine(key, value);
    forall j: nat
      ensures !EndAt(s, j)
    {
      if EndAt(s, j) {
        assert j + 1 < |key| ==> EndAt(key, j);
        assert j >= |key| + 2 ==> EndAt(value, j - |key| - 2);
      }
    }
  }

  // What the loop makes of one printed header line, even one cut off behind the colon.
  lemma HeaderLineParses(key: string, rest: string)
    requires Trimmed(key) && ':' !in key
    ensures Index(key + ":" + rest, ":") == |key|
    ensures TrimSpace((key + ":" + rest)[..|key|]) == key && (key + ":" + rest)[|key| + 1..] == rest
  {
    Absent(key, ':');
    IndexColon(key, rest);
    assert (key + ":" + rest)[..|key|] == key;
  }

  // ----- the loop over printed header lines -----

  lemma LineStep(lines: seq<string>, colon: nat, key: string, value: string, start: Headers)
    requires lines != [] && lines[0] != "" && colon == Index(lines[0], ":")
    requires key == TrimSpace(lines[0][..colon]) && value == TrimSpace(lines[0][colon + 1..]) && key != ""
    ensures ParsedLines(lines, start) == ParsedLines(lines[1..], start[Canonical(key) := value])
  {
  }

  lemma PairStep(key: string, value: string, lines: seq<string>, start: Headers)
    requires GoodPair(key, value) && key != "" && lines != [] && lines[0] == HeaderLine(key, value)
    ensures ParsedLines(lines, start) == ParsedLines(lines[1..], start[Canonical(key) := value])
  {
    HeaderLineParses(key, " " + value);
    HeaderLineIs(key, value);
    TrimBlank(value);
    LineStep(lines, |key|, key, value, start);
  }

  lemma CapitalStays(key: string)
    requires Capital(key)
    ensures Canonical(key) == key
  {
    assert key == [key[0]] + key[1..];
  }

  lemma HeaderStep(key: string, value: string, lines: seq<string>, start: Headers)
    requires GoodHeader(key, value) && lines != [] && lines[0] == HeaderLine(key, value)
    ensures ParsedLines(lines, start) == ParsedLines(lines[1..], start[key := value])
  {
    CapitalStays(key);
    PairStep(key, value, lines, start);
  }

  lemma HeaderLineIs(key: string, value: string)
    ensures HeaderLine(key, value) == key + ":" + (" " + value)
  {
  }

  function Chosen(headers: Headers, order: seq<string>): Headers
    requires forall k :: k in order ==> k in headers
  {
    map k | k in order :: headers[k]
  }

  lemma ChosenStep(headers: Headers, order: seq<string>, start: Headers)
    requires order != [] && forall k :: k in order ==> k in headers
    ensures start[order[0] := headers[order[0]]] + Chosen(headers, order[1..]) == start + Chosen(headers, order)
  {
  }

  lemma HeaderLinesStep(headers: Headers, order: seq<string>, tail: seq<string>)
    requires order != [] && forall k :: k in order ==> k in headers
    ensures HeaderLines(headers, order) + tail ==
            [HeaderLine(order[0], headers[order[0]])] + (HeaderLines(headers, order[1..]) + tail)
  {
  }

  lemma {:induction false} HeadersParse(headers: Headers, order: seq<string>, tail: seq<string>, start: Headers)
    requires forall k :: k in order ==> k in headers && GoodHeader(k, headers[k])
    ensures ParsedLines(HeaderLines(headers, order) + tail, start) == ParsedLines(tail, start + Chosen(headers, order))
    decreases |order|
  {
    if order == [] {
      assert HeaderLines(headers, order) + tail == tail && start + Chosen(headers, order) == start;
    } else {
      var key, value, rest := order[0], headers[order[0]], order[1..];
      HeaderLinesStep(headers, order, tail);
      var behind := HeaderLines(headers, rest) + tail;
      HeaderStep(key, value, [HeaderLine(key, value)] + behind, start);
      assert ([HeaderLine(key, value)] + behind)[1..] == behind;
      HeadersParse(headers, rest, tail, start[key := value]);
      ChosenStep(headers, order, start);
    }
  }

  // ----- the printed request as lines -----

  function Printed(f: Fields, order: seq<string>): seq<string>
    requires forall k :: k in order ==> k in f.headers
  {
    [FirstLine(f)] + HeaderLines(f.headers, order)
  }

  lemma {:induction false} EndedJoined(lines: seq<string>)
    requires lines != []
    ensures Ended(lines) == Joined(lines) + CRLF
  {
    if |lines| > 1 {
      EndedJoined(lines[1..]);
      assert lines[0] + CRLF + (Joined(lines[1..]) + CRLF) == Joined(lines) + CRLF;
    } else {
      assert lines[0] + CRLF + "" == Joined(lines) + CRLF;
    }
  }

  lemma RowIsLines(f: Fields, order: seq<string>, body: string)
    requires forall k :: k in order ==> k in f.headers
    ensures Row(f, order, body) == Joined(Printed(f, order)) + BLANK + body
  {
    var lines := HeaderLines(f.headers, order);
    EndedJoined(Printed(f, order));
    assert Printed(f, order)[1..] == lines;
    var text := Joined(Printed(f, order));
    assert text + CRLF + CRLF + body == text + BLANK + body;
  }

  lemma PrintedHeader(f: Fields, order: seq<string>, i: nat)
    requires Printable(f) && (forall k :: k in order ==> k in f.headers) && 0 < i < |Printed(f, order)|
    ensures Line(Printed(f, order)[i]) && Printed(f, order)[i] != ""
  {
    var key := order[i - 1];
    assert key in f.headers;
    HeaderLineIsLine(key, f.headers[key]);
  }

  lemma PrintedLines(f: Fields, order: seq<string>)
    requires Printable(f) && forall k :: k in order ==> k in f.headers
    ensures forall i :: 0 <= i < |Printed(f, order)| ==>
              Line(Printed(f, order)[i]) && (i > 0 ==> Printed(f, order)[i] != "")
  {
    FirstLineSplits(f);
    forall i | 0 < i < |Printed(f, order)|
      ensures Line(Printed(f, order)[i]) && Printed(f, order)[i] != ""
    {
      PrintedHeader(f, order, i);
    }
  }

  // Splitting a text at a blank line gives the lines before it, an empty one, and what is behind.
  lemma SplitAtBlank(a: string, rest: string)
    ensures Split(a + BLANK + rest, CRLF) == Split(a, CRLF) + ([""] + Split(rest, CRLF))
  {
    BlankIsTwo(a, rest);
    SplitConcat(a, CRLF, "" + CRLF + rest);
    SplitConcat("", CRLF, rest);
    assert Split("", CRLF) == [""];
  }

  lemma BlankIsTwo(a: string, rest: string)
    ensures a + CRLF + ("" + CRLF + rest) == a + BLANK + rest
  {
  }

  lemma SplitPrinted(lines: seq<string>)
    requires lines != [] && forall i :: 0 <= i < |lines| ==> Line(lines[i])
    ensures Split(Joined(lines), CRLF) == lines
  {
    forall l | l in lines
      ensures !Contains(l, CRLF)
    {
      LineIs(l);
    }
    SplitJoined(lines);
  }

  // What the parser returns when the first line is that of f.
  function Outcome(f: Fields, parsed: (Code, Headers)): (Code, Fields) {
    (parsed.0, f.(headers := parsed.1))
  }

  lemma FirstLineParses(before: Fields, f: Fields, parts: seq<string>)
    requires GoodFirst(f) && |parts| > 2 && parts[0] == FirstLine(f)
    ensures ParsedSplit(before, parts) == Outcome(f, ParsedLines(parts[1..], before.headers))
  {
    FirstLineSplits(f);
  }

  // What the parser makes of printed lines depends on what follows them only through the rest of the loop.
  lemma PrintedParses(f: Fields, order: seq<string>, tail: seq<string>, before: Fields)
    requires WellFormed(f) && (forall k :: k in order ==> k in f.headers) && |order| + |tail| >= 2
    ensures ParsedSplit(before, Printed(f, order) + tail) ==
            Outcome(f, ParsedLines(tail, before.headers + Chosen(f.headers, order)))
  {
    PrintedAhead(f, order, tail);
    FirstLineParses(before, f, Printed(f, order) + tail);
    HeadersParse(f.headers, order, tail, before.headers);
  }

  lemma PrintedAhead(f: Fields, order: seq<string>, tail: seq<string>)
    requires forall k :: k in order ==> k in f.headers
    ensures Printed(f, order) + tail == [FirstLine(f)] + (HeaderLines(f.headers, order) + tail)
    ensures (Printed(f, order) + tail)[1..] == HeaderLines(f.headers, order) + tail
  {
  }

  // ----- round trip -----

  // Whatever the order of the headers, whatever the body, and whatever the parsing request held before.
  lemma RoundTrip(f: Fields, order: seq<string>, body: string, before: Fields)
    requires WellFormed(f) && IsOrder(order, f.headers.Keys)
    ensures Parsed(before, Row(f, order, body)) == (RequestOk, f.(headers := before.headers + f.headers))
    ensures BodyOf(Row(f, order, body)) == body
    ensures |Row(f, order, body)| >= 4
  {
    var lines := Printed(f, order);
    RowIsLines(f, order, body);
    PrintedLines(f, order);
    HeaderComesBack(f, order, body, before);
    BlankAfter(lines, body);
    assert (Joined(lines) + BLANK + body)[|Joined(lines)| + 4..] == body;
  }

  lemma RowSplits(f: Fields, order: seq<string>, body: string)
    requires Printable(f) && forall k :: k in order ==> k in f.headers
    ensures Split(Joined(Printed(f, order)) + BLANK + body, CRLF) == Printed(f, order) + ([""] + Split(body, CRLF))
  {
    var lines := Printed(f, order);
    PrintedLines(f, order);
    SplitPrinted(lines);
    SplitAtBlank(Joined(lines), body);
  }

  // The printed bytes, line by line.
  lemma RowInLines(f: Fields, order: seq<string>, body: string)
    requires Printable(f) && forall k :: k in order ==> k in f.headers
    ensures var lines := Split(Row(f, order, body), CRLF);
            && |lines| == |order| + 2 + |Split(body, CRLF)|
            && lines[0] == f.verb + " " + f.path + " " + f.protocol
            && (forall i :: 0 <= i < |order| ==> lines[i + 1] == order[i] + ": " + f.headers[order[i]])
            && lines[|order| + 1] == "" && lines[|order| + 2..] == Split(body, CRLF)
  {
    RowIsLines(f, order, body);
    RowSplits(f, order, body);
  }

  lemma HeaderComesBack(f: Fields, order: seq<string>, body: string, before: Fields)
    requires WellFormed(f) && IsOrder(order, f.headers.Keys)
    ensures Parsed(before, Joined(Printed(f, order)) + BLANK + body) ==
            (RequestOk, f.(headers := before.headers + f.headers))
  {
    RowSplits(f, order, body);
    PrintedParses(f, order, [""] + Split(body, CRLF), before);
    assert Chosen(f.headers, order) == f.headers;
  }
}
