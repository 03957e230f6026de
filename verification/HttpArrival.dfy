// A request that arrives piece by piece: where the header ends, what later bytes can still change, and what
// the parser says of a request that is cut off inside its header.
module HttpArrival {
  import opened HttpText
  import opened HttpLines
  import opened HttpRequest
  import opened HttpRoundTrip

  // ----- the first blank line -----

  lemma {:induction false} JoinedEmpty(lines: seq<string>)
    requires lines != []
    ensures Joined(lines + [""]) == Joined(lines) + CRLF
  {
    assert (lines + [""])[1..] == lines[1..] + [""];
    if |lines| > 1 {
      JoinedEmpty(lines[1..]);
      assert lines[0] + CRLF + (Joined(lines[1..]) + CRLF) == Joined(lines) + CRLF;
    } else {
      assert Joined([""]) == "";
    }
  }

  // The lines before the first CRLFCRLF: none of them is empty, but for the first.
  lemma LinesBefore(a: string, rest: string, k: nat)
    requires Index(a + BLANK + rest, BLANK) == |a| && 0 < k < |Split(a, CRLF)|
    ensures Split(a, CRLF)[k] != ""
  {
    var lines := Split(a, CRLF);
    if lines[k] == "" {
      SplitIntoLines(a);
      assert (lines + [""])[k] == "";
      BlankJoined(lines + [""]);
      JoinedEmpty(lines);
      BlankGoesOn(a, rest, Index(a + CRLF, BLANK));
    }
  }

  lemma BlankGoesOn(a: string, rest: string, j: nat)
    requires At(a + CRLF, BLANK, j)
    ensures j < |a| && At(a + BLANK + rest, BLANK, j)
  {
    AtFront(a + CRLF, CRLF + rest, BLANK, j);
    assert a + CRLF + (CRLF + rest) == a + BLANK + rest;
  }

  lemma SplitIntoLines(s: string)
    ensures Joined(Split(s, CRLF)) == s && forall l :: l in Split(s, CRLF) ==> Line(l)
  {
    JoinedSplit(s);
    forall l | l in Split(s, CRLF)
      ensures Line(l)
    {
      LineIs(l);
    }
  }

  lemma {:induction false} LoopEndsAtBlank(lines: seq<string>, t1: seq<string>, t2: seq<string>, headers: Headers)
    requires t1 != [] && t2 != [] && forall k :: 0 <= k < |lines| ==> lines[k] != ""
    ensures ParsedLines(lines + ([""] + t1), headers) == ParsedLines(lines + ([""] + t2), headers)
    decreases |lines|
  {
    var l1, l2 := lines + ([""] + t1), lines + ([""] + t2);
    if lines != [] {
      assert l1[1..] == lines[1..] + ([""] + t1) && l2[1..] == lines[1..] + ([""] + t2);
      var colon := Index(lines[0], ":");
      if colon >= 0 {
        var key := TrimSpace(lines[0][..colon]);
        if key != "" {
          LoopEndsAtBlank(lines[1..], t1, t2, headers[Canonical(key) := TrimSpace(lines[0][colon + 1..])]);
        }
      }
    }
  }

  lemma SplitEndsAtBlank(f: Fields, lines: seq<string>, t1: seq<string>, t2: seq<string>)
    requires lines != [] && t1 != [] && t2 != [] && forall k :: 0 < k < |lines| ==> lines[k] != ""
    ensures ParsedSplit(f, lines + ([""] + t1)) == ParsedSplit(f, lines + ([""] + t2))
  {
    var l1, l2 := lines + ([""] + t1), lines + ([""] + t2);
    assert l1[1..] == lines[1..] + ([""] + t1) && l2[1..] == lines[1..] + ([""] + t2);
    LoopEndsAtBlank(lines[1..], t1, t2, f.headers);
  }

  // What follows the first CRLFCRLF has no influence on what the header parser returns or assigns.
  lemma BodyNeverMatters(f: Fields, a: string, t1: string, t2: string)
    requires Index(a + BLANK + t1, BLANK) == |a|
    ensures Parsed(f, a + BLANK + t1) == Parsed(f, a + BLANK + t2)
  {
    SplitAtBlank(a, t1);
    SplitAtBlank(a, t2);
    forall k | 0 < k < |Split(a, CRLF)|
      ensures Split(a, CRLF)[k] != ""
    {
      LinesBefore(a, t1, k);
    }
    SplitEndsAtBlank(f, Split(a, CRLF), Split(t1, CRLF), Split(t2, CRLF));
  }

  // ----- an accepted request -----

  lemma {:induction false} OkNeedsBlankLine(lines: seq<string>, headers: Headers) returns (k: nat)
    requires ParsedLines(lines, headers).0 == RequestOk
    ensures k < |lines| - 1 && lines[k] == "" && forall j :: 0 <= j < k ==> lines[j] != ""
    decreases |lines|
  {
    if lines[0] == "" && |lines| > 1 {
      k := 0;
    } else {
      var colon := Index(lines[0], ":");
      var key := TrimSpace(lines[0][..colon]);
      var rest := lines[1..];
      var k' := OkNeedsBlankLine(rest, headers[Canonical(key) := TrimSpace(lines[0][colon + 1..])]);
      k := k' + 1;
      assert lines[k] == rest[k'] && forall j :: 0 < j < k ==> lines[j] == rest[j - 1];
    }
  }

  lemma {:induction false} JoinedAt(lines: seq<string>, k: nat)
    requires 0 < k < |lines| - 1 && lines[k] == ""
    ensures Joined(lines) == Joined(lines[..k]) + BLANK + Joined(lines[k + 1..])
  {
    if k == 1 {
      assert lines[1..][1..] == lines[2..] && lines[..1] == [lines[0]];
      assert Joined(lines[1..]) == "" + CRLF + Joined(lines[2..]);
      assert lines[0] + CRLF + ("" + CRLF + Joined(lines[2..])) == lines[0] + BLANK + Joined(lines[2..]);
    } else {
      var rest := lines[1..];
      JoinedAt(rest, k - 1);
      assert rest[k..] == lines[k + 1..] && lines[..k][1..] == rest[..k - 1];
      Regroup(lines[0], Joined(rest[..k - 1]), Joined(rest[k..]));
    }
  }

  lemma BlankLineIs(lines: seq<string>, k: nat)
    requires 0 < k < |lines| - 1 && lines[k] == "" && (forall j :: 0 < j < k ==> lines[j] != "")
    requires forall l :: l in lines ==> Line(l)
    ensures Index(Joined(lines), BLANK) == |Joined(lines[..k])|
    ensures Joined(lines) == Joined(lines[..k]) + BLANK + Joined(lines[k + 1..])
  {
    JoinedAt(lines, k);
    assert forall l :: l in lines[..k] ==> l in lines;
    BlankAfter(lines[..k], Joined(lines[k + 1..]));
  }

  lemma BodyBehind(a: string, rest: string)
    requires Index(a + BLANK + rest, BLANK) == |a|
    ensures BodyOf(a + BLANK + rest) == rest
  {
  }

  lemma OkLine(f: Fields, lines: seq<string>) returns (k: nat)
    requires lines != [] && ParsedSplit(f, lines).0 == RequestOk
    ensures 0 < k < |lines| - 1 && lines[k] == "" && (forall j :: 0 < j < k ==> lines[j] != "")
  {
    k := OkNeedsBlankLine(lines[1..], f.headers);
    k := k + 1;
    assert forall j :: 0 < j < k ==> lines[j] == lines[1..][j - 1];
  }

  // The line scan and the byte scan stop at the same place.
  lemma ScansAgree(f: Fields, s: string) returns (k: nat)
    requires Parsed(f, s).0 == RequestOk
    ensures var lines := Split(s, CRLF);
            && 0 < k < |lines| - 1 && lines[k] == "" && (forall j :: 0 < j < k ==> lines[j] != "")
            && Index(s, BLANK) == |Joined(lines[..k])|
            && BodyOf(s) == Joined(lines[k + 1..])
            && s == Joined(lines[..k]) + BLANK + BodyOf(s)
  {
    var lines := Split(s, CRLF);
    k := OkLine(f, lines);
    SplitIntoLines(s);
    BlankLineIs(lines, k);
    BodyBehind(Joined(lines[..k]), Joined(lines[k + 1..]));
  }

  // Nothing without CRLFCRLF is accepted, and an accepted request stays accepted, with the same fields, when
  // more bytes arrive: they are appended to the body.
  lemma AcceptedForGood(f: Fields, s: string, more: string)
    requires Parsed(f, s).0 == RequestOk
    ensures Contains(s, BLANK)
    ensures Parsed(f, s + more) == Parsed(f, s)
    ensures BodyOf(s + more) == BodyOf(s) + more
  {
    var k := ScansAgree(f, s);
    var a := Joined(Split(s, CRLF)[..k]);
    BodyNeverMatters(f, a, BodyOf(s), BodyOf(s) + more);
    BodyGrows(a, BodyOf(s), more);
  }

  lemma BodyGrows(a: string, rest: string, more: string)
    requires Index(a + BLANK + rest, BLANK) == |a|
    ensures a + BLANK + rest + more == a + BLANK + (rest + more)
    ensures BodyOf(a + BLANK + rest + more) == rest + more
  {
    var s := a + BLANK + rest;
    assert s + more == a + BLANK + (rest + more);
    forall j: nat | j <= |a|
      ensures At(s + more, BLANK, j) <==> At(s, BLANK, j)
    {
      AtFront(s, more, BLANK, j);
    }
    IndexIs(s + more, BLANK, |a|);
  }

  // ----- a request cut off inside its header -----

  // What can have arrived of a line of the header, or of the blank line that ends it, before its CRLF is there.
  ghost predicate Begun(q: string, f: Fields) {
    q <= "\r" || exists k :: k in f.headers && q <= HeaderLine(k, f.headers[k]) + "\r"
  }

  lemma JoinedMore(lines: seq<string>, l: string)
    requires lines != []
    ensures Joined(lines + [l]) == Joined(lines) + CRLF + l
    decreases |lines|
  {
    assert (lines + [l])[1..] == lines[1..] + [l];
    if |lines| > 1 {
      JoinedMore(lines[1..], l);
      assert lines[0] + CRLF + (Joined(lines[1..]) + CRLF + l) == Joined(lines) + CRLF + l;
    } else {
      assert Joined([l]) == l;
    }
  }

  lemma CutBehind(text: string, n: nat) returns (q: string)
    requires |text| + 2 <= n < |text| + 4
    ensures q <= "\r" && (text + BLANK)[..n] == text + CRLF + q
  {
    q := (text + BLANK)[|text| + 2..n];
  }

  lemma CutWithin(base: string, line: string, n: nat) returns (q: string)
    requires |base| + 2 <= n < |base| + |line| + 4
    ensures q <= line + "\r" && (base + CRLF + line + BLANK)[..n] == base + CRLF + q
  {
    q := (base + CRLF + line + BLANK)[|base| + 2..n];
    assert q == (line + "\r")[..n - |base| - 2];
  }

  lemma CutBefore(base: string, line: string, n: nat)
    requires n < |base| + 2
    ensures (base + CRLF + line + BLANK)[..n] == (base + BLANK)[..n]
  {
  }

  // What is there is the first line, some complete header lines, and the beginning of the next line.
  lemma {:induction false} Cut(f: Fields, order: seq<string>, n: nat) returns (m: nat, q: string)
    requires forall k :: k in order ==> k in f.headers
    requires |FirstLine(f)| + 2 <= n < |Joined(Printed(f, order))| + 4
    ensures m <= |order| && Begun(q, f)
    ensures (Joined(Printed(f, order)) + BLANK)[..n] == Joined(Printed(f, order[..m])) + CRLF + q
    decreases |order|
  {
    var text := Joined(Printed(f, order));
    if n >= |text| + 2 {
      m := |order|;
      q := CutBehind(text, n);
      assert order[..m] == order;
    } else {
      var last := |order| - 1;
      var key := order[last];
      var line := HeaderLine(key, f.headers[key]);
      var base := Joined(Printed(f, order[..last]));
      LastPrinted(f, order);
      if n >= |base| + 2 {
        m := last;
        q := CutWithin(base, line, n);
      } else {
        m, q := Cut(f, order[..last], n);
        assert order[..last][..m] == order[..m];
        CutBefore(base, line, n);
      }
    }
  }

  lemma LastPrinted(f: Fields, order: seq<string>)
    requires order != [] && forall k :: k in order ==> k in f.headers
    ensures var last := |order| - 1;
            Joined(Printed(f, order)) ==
            Joined(Printed(f, order[..last])) + CRLF + HeaderLine(order[last], f.headers[order[last]])
  {
    var last := |order| - 1;
    var line := HeaderLine(order[last], f.headers[order[last]]);
    assert Printed(f, order) == Printed(f, order[..last]) + [line];
    JoinedMore(Printed(f, order[..last]), line);
  }

  lemma PartOfLine(q: string, l: string)
    requires Line(l) && q <= l + "\r"
    ensures Line(q)
  {
    assert forall j: nat :: EndAt(q, j) ==> EndAt(l, j);
  }

  lemma BegunIsLine(q: string, f: Fields)
    requires WellFormed(f) && Begun(q, f)
    ensures Line(q)
  {
    if q <= "\r" {
      PartOfLine(q, "");
    } else {
      var k :| k in f.headers && q <= HeaderLine(k, f.headers[k]) + "\r";
      HeaderLineIsLine(k, f.headers[k]);
      PartOfLine(q, HeaderLine(k, f.headers[k]));
    }
  }

  lemma HalfHeader(key: string, value: string, q: string)
    requires q <= HeaderLine(key, value) + "\r" && ':' in q && ':' !in key
    ensures |q| > |key| && q == key + ":" + q[|key| + 1..]
  {
    var line := HeaderLine(key, value) + "\r";
    var i :| 0 <= i < |q| && q[i] == ':';
    assert line[i] == ':' && line[|key|] == ':';
    assert forall j :: 0 <= j < |key| ==> line[j] == key[j];
  }

  lemma HalfHeaderParses(key: string, value: string, q: string, headers: Headers)
    requires GoodHeader(key, value) && q <= HeaderLine(key, value) + "\r" && ':' in q
    ensures ParsedLines([q], headers).0 == RequestNeedReadMore
  {
    HalfHeader(key, value, q);
    var rest := q[|key| + 1..];
    HeaderLineParses(key, rest);
    LineStep([q], |key|, key, TrimSpace(rest), headers);
  }

  // The last line of a cut request ends the loop: it is taken for a header without a colon, or as half a header.
  lemma BegunParses(q: string, f: Fields, headers: Headers)
    requires WellFormed(f) && Begun(q, f)
    ensures ParsedLines([q], headers).0 == if ':' in q then RequestNeedReadMore else InvalidHeaders
  {
    if ':' in q {
      var k :| k in f.headers && q <= HeaderLine(k, f.headers[k]) + "\r";
      HalfHeaderParses(k, f.headers[k], q, headers);
    } else {
      Absent(q, ':');
    }
  }

  lemma CutSplits(f: Fields, order: seq<string>, q: string)
    requires WellFormed(f) && (forall k :: k in order ==> k in f.headers) && Begun(q, f)
    ensures Split(Joined(Printed(f, order)) + CRLF + q, CRLF) == Printed(f, order) + [q]
  {
    PrintedLines(f, order);
    SplitPrinted(Printed(f, order));
    BegunIsLine(q, f);
    LineIs(q);
    SplitConcat(Joined(Printed(f, order)), CRLF, q);
  }

  lemma CutParses(f: Fields, order: seq<string>, q: string, before: Fields)
    requires WellFormed(f) && (forall k :: k in order ==> k in f.headers) && Begun(q, f)
    ensures ParsedSplit(before, Printed(f, order) + [q]).0 ==
            if order == [] || ':' in q then RequestNeedReadMore else InvalidHeaders
  {
    if order == [] {
      FirstLineSplits(f);
    } else {
      PrintedParses(f, order, [q], before);
      BegunParses(q, f, before.headers + Chosen(f.headers, order));
    }
  }

  lemma FirstLineCut(f: Fields, rest: string, n: nat)
    requires WellFormed(f) && n < |FirstLine(f)| + 2
    ensures !Contains((FirstLine(f) + CRLF + rest)[..n], CRLF)
  {
    FirstLineSplits(f);
    var p := (FirstLine(f) + CRLF + rest)[..n];
    assert forall j: nat :: EndAt(p, j) ==> EndAt(FirstLine(f), j);
    LineIs(p);
  }

  // What the parser says of a printed request of which only a part of the header is there. It asks for more
  // only while no header line is complete, or when the last line already has its colon.
  lemma CutShort(f: Fields, order: seq<string>, body: string, n: nat, before: Fields)
    requires WellFormed(f) && (forall k :: k in order ==> k in f.headers) && n < |Row(f, order, body)| - |body|
    ensures var there := Row(f, order, body)[..n];
            var lines := Split(there, CRLF);
            Parsed(before, there).0 ==
              if n == 0 then None
              else if |lines| == 1 then UnknowInvalid
              else if |lines| == 2 || ':' in lines[|lines| - 1] then RequestNeedReadMore
              else InvalidHeaders
  {
    var text := Joined(Printed(f, order));
    RowIsLines(f, order, body);
    assert (text + BLANK + body)[..n] == (text + BLANK)[..n];
    if n < |FirstLine(f)| + 2 {
      FirstLineCut(f, Ended(HeaderLines(f.headers, order)) + CRLF + body, n);
      assert Row(f, order, body) == FirstLine(f) + CRLF + (Ended(HeaderLines(f.headers, order)) + CRLF + body);
    } else {
      var m, q := Cut(f, order, n);
      CutSplits(f, order[..m], q);
      CutParses(f, order[..m], q, before);
    }
  }

  // ----- when the body is complete -----

  // A printed request whose length header is right, parsed when the header was there and some of the body:
  // more bytes are asked for until the last one has come, however the rest is cut up.
  lemma CompleteWhenAllThere(f: Fields, order: seq<string>, body: string, start: nat, there: nat, before: Fields)
    requires WellFormed(f) && IsOrder(order, f.headers.Keys) && !Multipart(f.headers)
    requires |body| <= MAX_INT && HeaderOf(f.headers, "Content-Length") == Decimal(|body|)
    requires before.headers == map[] && start <= there <= |body|
    ensures var arrived := Row(f, order, body)[..|Row(f, order, body)| - |body| + start];
            Parsed(before, arrived) == (RequestOk, f) && BodyOf(arrived) == body[..start]
    ensures BodyVerdict(f.headers, body[..there]) == if there == |body| then Complete else Incomplete
  {
    PartComesBack(f, order, body[..start], before);
    RowCut(f, order, body, start);
    LengthTells(f.headers, body, there);
  }

  lemma PartComesBack(f: Fields, order: seq<string>, part: string, before: Fields)
    requires WellFormed(f) && IsOrder(order, f.headers.Keys) && before.headers == map[]
    ensures Parsed(before, Row(f, order, part)) == (RequestOk, f) && BodyOf(Row(f, order, part)) == part
  {
    FreshHeaders(f, before);
    RoundTrip(f, order, part, before);
  }

  lemma FreshHeaders(f: Fields, before: Fields)
    requires before.headers == map[]
    ensures f.(headers := before.headers + f.headers) == f
  {
    assert before.headers + f.headers == f.headers;
  }

  lemma RowCut(f: Fields, order: seq<string>, body: string, start: nat)
    requires (forall k :: k in order ==> k in f.headers) && start <= |body|
    ensures var row := Row(f, order, body);
            && |row| >= |body| && row[|row| - |body|..] == body
            && row[..|row| - |body| + start] == Row(f, order, body[..start])
  {
  }

  lemma LengthTells(headers: Headers, body: string, there: nat)
    requires !Multipart(headers) && |body| <= MAX_INT && HeaderOf(headers, "Content-Length") == Decimal(|body|)
    requires there <= |body|
    ensures BodyVerdict(headers, body[..there]) == if there == |body| then Complete else Incomplete
  {
    AtoiDecimal(|body|);
  }

  // With a boundary, a complete body stays complete.
  lemma MultipartForGood(headers: Headers, body: string, more: string)
    requires Multipart(headers) && BodyVerdict(headers, body) == Complete
    ensures BodyVerdict(headers, body + more) == Complete
  {
    var end := Boundary(headers) + "--";
    AtFront(body, more, end, Index(body, end));
  }
}
