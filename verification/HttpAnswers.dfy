// Which requests ParseHeader refuses, and with which error.
module HttpAnswers {
  import opened HttpText
  import opened HttpLines
  import opened HttpRequest
  import opened HttpRoundTrip
  import opened HttpSpelling

  // ----- the first line -----

  // The methods of section 9.1 of RFC 9110.
  predicate KnownMethod(s: string) {
    || s == "GET" || s == "HEAD" || s == "POST" || s == "PUT"
    || s == "DELETE" || s == "CONNECT" || s == "OPTIONS" || s == "TRACE"
  }

  predicate KnownProtocol(s: string) {
    s == "HTTP/0.9" || s == "HTTP/1.0" || s == "HTTP/1.1" || s == "HTTP/2" || s == "HTTP/3"
  }

  lemma MethodsAre(s: string)
    ensures s in METHODS <==> KnownMethod(s)
  {
    if s in METHODS {
      var i :| 0 <= i < |METHODS| && METHODS[i] == s;
      assert i in {0, 1, 2, 3, 4, 5, 6, 7};
    }
    assert METHODS[0] in METHODS && METHODS[1] in METHODS && METHODS[2] in METHODS && METHODS[3] in METHODS;
    assert METHODS[4] in METHODS && METHODS[5] in METHODS && METHODS[6] in METHODS && METHODS[7] in METHODS;
  }

  lemma ProtocolsAre(s: string)
    ensures s in PROTOCOLS <==> KnownProtocol(s)
  {
    if s in PROTOCOLS {
      var i :| 0 <= i < |PROTOCOLS| && PROTOCOLS[i] == s;
      assert i in {0, 1, 2, 3, 4};
    }
    assert PROTOCOLS[0] in PROTOCOLS && PROTOCOLS[1] in PROTOCOLS && PROTOCOLS[2] in PROTOCOLS;
    assert PROTOCOLS[3] in PROTOCOLS && PROTOCOLS[4] in PROTOCOLS;
  }

  function Count(s: string, c: char): nat {
    if s == "" then 0 else (if s[0] == c then 1 else 0) + Count(s[1..], c)
  }

  lemma {:induction false} CountConcat(a: string, b: string, c: char)
    ensures Count(a + b, c) == Count(a, c) + Count(b, c)
  {
    if a == "" {
      assert a + b == b;
    } else {
      assert (a + b)[1..] == a[1..] + b;
      CountConcat(a[1..], b, c);
    }
  }

  lemma {:induction false} CountNone(s: string, c: char)
    requires c !in s
    ensures Count(s, c) == 0
  {
    if s != "" {
      CountNone(s[1..], c);
    }
  }

  // A text is split into one part more than there are separators.
  lemma {:induction false} PartsCounted(s: string, c: char)
    ensures |Split(s, [c])| == Count(s, c) + 1
    decreases |s|
  {
    var i := Index(s, [c]);
    if i < 0 {
      forall j | 0 <= j < |s|
        ensures s[j] != c
      {
        assert !At(s, [c], j) && s[j..j + 1] == [s[j]];
      }
      CountNone(s, c);
    } else {
      forall j | 0 <= j < i
        ensures s[j] != c
      {
        assert !At(s, [c], j) && s[j..j + 1] == [s[j]];
      }
      CountNone(s[..i], c);
      assert s == s[..i] + ([c] + s[i + 1..]);
      CountConcat(s[..i], [c] + s[i + 1..], c);
      assert ([c] + s[i + 1..])[1..] == s[i + 1..];
      PartsCounted(s[i + 1..], c);
    }
  }

  lemma FirstOfLines(first: string, rest: string)
    requires Line(first)
    ensures Split(first + CRLF + rest, CRLF) == [first] + Split(rest, CRLF)
  {
    LineIs(first);
    SplitConcat(first, CRLF, rest);
  }

  // Without an end of line nothing is looked at; with a first line that has not exactly two blanks neither.
  lemma NoFirstLine(f: Fields, s: string)
    requires !Contains(s, CRLF)
    ensures Parsed(f, s) == (if s == "" then None else UnknowInvalid, f)
  {
  }

  lemma FirstLineRefused(f: Fields, first: string, rest: string)
    requires Line(first) && Count(first, ' ') != 2
    ensures Parsed(f, first + CRLF + rest) == (FirstLineInvalid, f)
  {
    FirstOfLines(first, rest);
    PartsCounted(first, ' ');
  }

  // With two blanks the three parts are looked at in turn, and each is assigned once the parts before it are fine.
  lemma FirstLineAnswer(f: Fields, verb: string, path: string, protocol: string, rest: string)
    requires ' ' !in verb && ' ' !in path && ' ' !in protocol && Line(verb + " " + path + " " + protocol)
    ensures var (code, g) := Parsed(f, verb + " " + path + " " + protocol + CRLF + rest);
            if !KnownMethod(verb) then code == MethodInvalid && g == f
            else if path == "" then code == PathInvalid && g == f.(verb := verb)
            else if !KnownProtocol(protocol) then code == ProtocolInvalid && g == f.(verb := verb, path := path)
            else
              && code in {RequestOk, RequestNeedReadMore, InvalidHeaders, Panic}
              && g == f.(verb := verb, path := path, protocol := protocol, headers := g.headers)
              && (!Contains(rest, CRLF) ==> code == RequestNeedReadMore && g.headers == f.headers)
  {
    var first := verb + " " + path + " " + protocol;
    FirstOfLines(first, rest);
    SpacedSplits(verb, path, protocol);
    MethodsAre(verb);
    ProtocolsAre(protocol);
    LoopAnswers(([first] + Split(rest, CRLF))[1..], f.headers);
  }

  lemma {:induction false} LoopAnswers(lines: seq<string>, headers: Headers)
    ensures ParsedLines(lines, headers).0 in {RequestOk, RequestNeedReadMore, InvalidHeaders, Panic}
    decreases |lines|
  {
    if lines != [] && !(lines[0] == "" && |lines| > 1) {
      var colon := Index(lines[0], ":");
      if colon >= 0 {
        var key := TrimSpace(lines[0][..colon]);
        if key != "" {
          LoopAnswers(lines[1..], headers[Canonical(key) := TrimSpace(lines[0][colon + 1..])]);
        }
      }
    }
  }

  // ----- a header line -----

  ghost predicate Lined(lines: seq<string>) {
    forall i :: 0 <= i < |lines| ==> Line(lines[i])
  }

  lemma HeadersThen(f: Fields, hs: seq<Written>, order: seq<string>, tail: seq<string>, before: Fields)
    requires GoodFirst(f) && AllStand(hs, f.headers, order) && |hs| + |tail| >= 2
    requires Lined(tail)
    ensures Parsed(before, Joined([FirstLine(f)] + (LinesOf(hs) + tail))) ==
            Outcome(f, ParsedLines(tail, before.headers + Chosen(f.headers, order)))
  {
    var rest := LinesOf(hs) + tail;
    var lines := [FirstLine(f)] + rest;
    AllLines(f, hs, order, tail);
    SplitPrinted(lines);
    assert lines[1..] == rest;
    FirstLineParses(before, f, lines);
    WrittenParse(hs, f.headers, order, tail, before.headers);
  }

  lemma AllLines(f: Fields, hs: seq<Written>, order: seq<string>, tail: seq<string>)
    requires GoodFirst(f) && AllStand(hs, f.headers, order)
    requires Lined(tail)
    ensures var lines := [FirstLine(f)] + (LinesOf(hs) + tail);
            Lined(lines)
  {
    var lines := [FirstLine(f)] + (LinesOf(hs) + tail);
    FirstLineSplits(f);
    forall i | 0 < i < |lines|
      ensures Line(lines[i])
    {
      if i <= |hs| {
        assert Stands(hs[i - 1], order[i - 1], f.headers[order[i - 1]]);
      } else {
        assert lines[i] == tail[i - 1 - |hs|];
      }
    }
  }

  // What the parser says of the first lines of a request is what the loop says of the line that ends it.
  lemma EndsWith(f: Fields, hs: seq<Written>, order: seq<string>, tail: seq<string>, before: Fields, code: Code)
    requires GoodFirst(f) && AllStand(hs, f.headers, order) && |hs| + |tail| >= 2 && Lined(tail)
    requires ParsedLines(tail, before.headers + Chosen(f.headers, order)) ==
             (code, before.headers + Chosen(f.headers, order))
    ensures Parsed(before, Joined([FirstLine(f)] + (LinesOf(hs) + tail))) ==
            (code, f.(headers := before.headers + Chosen(f.headers, order)))
  {
    HeadersThen(f, hs, order, tail, before);
  }

  // Behind any good header lines a line without a colon, unless it is the blank line, is refused; the fields that
  // came before it have been assigned.
  lemma NoColonRefused(f: Fields, hs: seq<Written>, order: seq<string>, tail: seq<string>, before: Fields)
    requires GoodFirst(f) && AllStand(hs, f.headers, order) && |hs| + |tail| >= 2
    requires Lined(tail)
    requires tail != [] && ':' !in tail[0] && (tail[0] != "" || |tail| == 1)
    ensures Parsed(before, Joined([FirstLine(f)] + (LinesOf(hs) + tail))) ==
            (InvalidHeaders, f.(headers := before.headers + Chosen(f.headers, order)))
  {
    NoColonLine(tail, before.headers + Chosen(f.headers, order));
    EndsWith(f, hs, order, tail, before, InvalidHeaders);
  }

  lemma NoColonLine(lines: seq<string>, headers: Headers)
    requires lines != [] && ':' !in lines[0] && (lines[0] != "" || |lines| == 1)
    ensures ParsedLines(lines, headers) == (InvalidHeaders, headers)
  {
    Absent(lines[0], ':');
  }

  // A line with nothing but white space before its colon is a slice out of range.
  lemma NamelessPanics(f: Fields, hs: seq<Written>, order: seq<string>, p: string, rest: string, tail: seq<string>,
                       before: Fields)
    requires GoodFirst(f) && AllStand(hs, f.headers, order) && |hs| + |tail| >= 2
    requires Lined(tail)
    requires tail != [] && tail[0] == p + ":" + rest && Pad(p)
    ensures Parsed(before, Joined([FirstLine(f)] + (LinesOf(hs) + tail))) ==
            (Panic, f.(headers := before.headers + Chosen(f.headers, order)))
  {
    NamelessLine(p, rest, tail, before.headers + Chosen(f.headers, order));
    EndsWith(f, hs, order, tail, before, Panic);
  }

  lemma NamelessLine(p: string, rest: string, lines: seq<string>, headers: Headers)
    requires Pad(p) && lines != [] && lines[0] == p + ":" + rest
    ensures ParsedLines(lines, headers) == (Panic, headers)
  {
    Absent(p, ':');
    IndexColon(p, rest);
    assert (p + ":" + rest)[..|p|] == p && p == p + "" + "";
    PadsAreTrimmed(p, "", "");
  }
}
