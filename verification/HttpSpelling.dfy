// The spellings of a header that the parser takes for the same: outer white space, and the case of the first letter.
module HttpSpelling {
  import opened HttpText
  import opened HttpLines
  import opened HttpRequest
  import opened HttpRoundTrip
  import opened HttpArrival
  import opened HttpReprint

  // ----- white space around a text -----

  // Bytes of ASCII white space.
  predicate Pad(p: string) {
    forall i :: 0 <= i < |p| ==> p[i] in " \t\n\U{0B}\U{0C}\r"
  }

  lemma {:induction false} PadAhead(p: string, s: string)
    requires Pad(p)
    ensures TrimLeft(p + s) == TrimLeft(s)
    decreases |p|
  {
    if p == "" {
      assert p + s == s;
    } else {
      assert (p + s)[1..] == p[1..] + s;
      PadAhead(p[1..], s);
    }
  }

  lemma {:induction false} PadBehind(s: string, p: string)
    requires Pad(p)
    ensures TrimRight(s + p) == TrimRight(s)
    decreases |p|
  {
    if p == "" {
      assert s + p == s;
    } else {
      var last := |p| - 1;
      assert (s + p)[..|s + p| - 1] == s + p[..last];
      PadBehind(s, p[..last]);
    }
  }

  // White space behind a text is no part of a wider one in front of it.
  lemma AheadWithPad(s: string, p: string)
    requires s != "" && SpaceAhead(s) == 0 && Pad(p)
    ensures SpaceAhead(s + p) == 0
  {
    var t := s + p;
    assert |s| >= 2 ==> t[..2] == s[..2];
    assert |s| >= 3 ==> t[..3] == s[..3];
    assert |t| >= 2 && |s| < 2 ==> t[..2][1] == p[0];
    assert |t| >= 3 && |s| < 3 ==> t[..3][2] == p[2 - |s|];
  }

  // All ASCII white space around a text is trimmed, and nothing else of it.
  lemma PadsAreTrimmed(p: string, s: string, q: string)
    requires Pad(p) && Pad(q) && Trimmed(s)
    ensures TrimSpace(p + s + q) == s
  {
    assert p + s + q == p + (s + q);
    PadAhead(p, s + q);
    TrimmedIs(s);
    if s == "" {
      assert s + q == q + "";
      PadAhead(q, "");
    } else {
      AheadWithPad(s, q);
      PadBehind(s, q);
    }
  }

  lemma BareEnds(t: string)
    requires t != "" && SpaceAhead(t) == 0 && SpaceBehind(t) == 0
    ensures !Pad([t[0]]) && !Pad([t[|t| - 1]])
  {
    assert [t[0]][0] == t[0] && [t[|t| - 1]][0] == t[|t| - 1];
  }

  // What is left has no ASCII white space at its ends.
  lemma NothingLeft(s: string)
    ensures var t := TrimSpace(s); t == "" || (!Pad([t[0]]) && !Pad([t[|t| - 1]]))
  {
    var i, j := TrimSlice(s);
    var t := TrimSpace(s);
    TrimmedIs(t);
    if t != "" {
      BareEnds(t);
    }
  }

  // ----- the first letter of a name -----

  const LOWER := "abcdefghijklmnopqrstuvwxyz"
  const UPPER := "ABCDEFGHIJKLMNOPQRSTUVWXYZ"

  lemma LettersAre(i: nat)
    requires i < 26
    ensures LOWER[i] == 'a' + i as char && UPPER[i] == 'A' + i as char
  {
  }

  predicate Capitalized(name: string, key: string, i: nat) {
    i < 26 && name != "" && name[0] == LOWER[i] && key == [UPPER[i]] + name[1..]
  }

  // What is stored under `key` was written with this name: with the letter that it starts with in either case, or
  // with a byte beyond ASCII in place of U+FFFD.
  ghost predicate Spells(name: string, key: string) {
    || (Capital(key) && name == key)
    || (exists i: nat :: Capitalized(name, key, i))
    || (name != "" && name[0] >= '\U{80}' && key == REPLACEMENT + name[1..])
  }

  lemma CapitalizedIs(name: string, key: string, i: nat)
    requires Capitalized(name, key, i)
    ensures Canonical(name) == key
  {
    LettersAre(i);
    LetterUp(name[0], i);
  }

  lemma LetterUp(c: char, i: nat)
    requires i < 26 && c == 'a' + i as char
    ensures UpperFirst(c) == ['A' + i as char]
  {
  }

  lemma SpellsIs(name: string, key: string)
    requires Spells(name, key)
    ensures name != "" && Canonical(name) == key
  {
    if Capital(key) && name == key {
      CapitalStays(key);
    } else if i: nat :| Capitalized(name, key, i) {
      CapitalizedIs(name, key, i);
    }
  }

  // Every name is a spelling of something.
  lemma SpellsSomething(name: string) returns (key: string)
    requires name != ""
    ensures Spells(name, key)
  {
    key := Canonical(name);
    if LowerCase(name[0]) {
      var i := (name[0] - 'a') as nat;
      LettersAre(i);
      assert Capitalized(name, key, i);
    }
  }

  // ----- header lines -----

  datatype Written = Written(before: string, name: string, behind: string, ahead: string, value: string, after: string)

  function LineOf(h: Written): string {
    h.before + h.name + h.behind + ":" + (h.ahead + h.value + h.after)
  }

  // The header stands on one line, for this key and value.
  ghost predicate Stands(h: Written, key: string, value: string) {
    && Pad(h.before) && Pad(h.behind) && Pad(h.ahead) && Pad(h.after) && Line(LineOf(h))
    && GoodPair(h.name, h.value) && Spells(h.name, key) && h.value == value
  }

  lemma WrittenTrims(h: Written)
    requires Pad(h.before) && Pad(h.behind) && Pad(h.ahead) && Pad(h.after) && GoodPair(h.name, h.value)
    ensures TrimSpace(h.before + h.name + h.behind) == h.name && ':' !in h.before + h.name + h.behind
    ensures TrimSpace(h.ahead + h.value + h.after) == h.value
  {
    PadsAreTrimmed(h.before, h.name, h.behind);
    PadsAreTrimmed(h.ahead, h.value, h.after);
  }

  lemma LineCut(name: string, value: string)
    requires ':' !in name
    ensures var l := name + ":" + value;
            l != "" && Index(l, ":") == |name| && l[..|name|] == name && l[|name| + 1..] == value
  {
    Absent(name, ':');
    IndexColon(name, value);
    assert (name + ":" + value)[..|name|] == name && (name + ":" + value)[|name| + 1..] == value;
  }

  lemma WrittenStep(h: Written, key: string, lines: seq<string>, start: Headers)
    requires Stands(h, key, h.value) && lines != [] && lines[0] == LineOf(h)
    ensures ParsedLines(lines, start) == ParsedLines(lines[1..], start[key := h.value])
  {
    var name, value := h.before + h.name + h.behind, h.ahead + h.value + h.after;
    SpellsIs(h.name, key);
    WrittenTrims(h);
    LineCut(name, value);
    LineStep(lines, |name|, h.name, h.value, start);
  }

  function LinesOf(hs: seq<Written>): seq<string> {
    seq(|hs|, i requires 0 <= i < |hs| => LineOf(hs[i]))
  }

  // The headers, in this order, are written so.
  ghost predicate AllStand(hs: seq<Written>, headers: Headers, order: seq<string>) {
    && |hs| == |order| && (forall k :: k in order ==> k in headers)
    && forall i :: 0 <= i < |hs| ==> Stands(hs[i], order[i], headers[order[i]])
  }

  lemma FirstWritten(hs: seq<Written>, tail: seq<string>)
    requires hs != []
    ensures var lines := LinesOf(hs) + tail;
            lines != [] && lines[0] == LineOf(hs[0]) && lines[1..] == LinesOf(hs[1..]) + tail
  {
  }

  lemma {:induction false} WrittenParse(hs: seq<Written>, headers: Headers, order: seq<string>, tail: seq<string>,
                                         start: Headers)
    requires AllStand(hs, headers, order)
    ensures ParsedLines(LinesOf(hs) + tail, start) == ParsedLines(tail, start + Chosen(headers, order))
    decreases |hs|
  {
    if hs == [] {
      assert LinesOf(hs) + tail == tail && start + Chosen(headers, order) == start;
    } else {
      var lines := LinesOf(hs) + tail;
      assert Stands(hs[0], order[0], headers[order[0]]);
      FirstWritten(hs, tail);
      WrittenStep(hs[0], order[0], lines, start);
      WrittenParse(hs[1..], headers, order[1..], tail, start[order[0] := headers[order[0]]]);
      ChosenStep(headers, order, start);
    }
  }

  // ----- a request as it may be written -----

  function TextOf(f: Fields, hs: seq<Written>, body: string): string {
    FirstLine(f) + CRLF + Ended(LinesOf(hs)) + CRLF + body
  }

  lemma TextIsLines(f: Fields, hs: seq<Written>, body: string)
    ensures TextOf(f, hs, body) == Joined([FirstLine(f)] + LinesOf(hs)) + BLANK + body
  {
    var lines := [FirstLine(f)] + LinesOf(hs);
    EndedJoined(lines);
    assert lines[1..] == LinesOf(hs);
    var text := Joined(lines);
    assert text + CRLF + CRLF + body == text + BLANK + body;
  }

  lemma LinesAreLines(f: Fields, hs: seq<Written>, headers: Headers, order: seq<string>)
    requires GoodFirst(f) && AllStand(hs, headers, order)
    ensures var lines := [FirstLine(f)] + LinesOf(hs);
            forall i :: 0 <= i < |lines| ==> Line(lines[i]) && (i > 0 ==> lines[i] != "")
  {
    FirstLineSplits(f);
    var lines := [FirstLine(f)] + LinesOf(hs);
    forall i | 0 < i < |lines|
      ensures Line(lines[i]) && lines[i] != ""
    {
      assert Stands(hs[i - 1], order[i - 1], headers[order[i - 1]]);
    }
  }

  lemma WrittenSplits(f: Fields, hs: seq<Written>, order: seq<string>, body: string)
    requires GoodFirst(f) && AllStand(hs, f.headers, order)
    ensures Split(TextOf(f, hs, body), CRLF) == [FirstLine(f)] + (LinesOf(hs) + ([""] + Split(body, CRLF)))
  {
    var lines := [FirstLine(f)] + LinesOf(hs);
    TextIsLines(f, hs, body);
    LinesAreLines(f, hs, f.headers, order);
    SplitPrinted(lines);
    SplitAtBlank(Joined(lines), body);
    FirstApart(FirstLine(f), LinesOf(hs), [""] + Split(body, CRLF));
  }

  lemma FirstApart(first: string, lines: seq<string>, tail: seq<string>)
    ensures [first] + lines + tail == [first] + (lines + tail)
  {
  }

  lemma WrittenBody(f: Fields, hs: seq<Written>, order: seq<string>, body: string)
    requires GoodFirst(f) && AllStand(hs, f.headers, order)
    ensures BodyOf(TextOf(f, hs, body)) == body
  {
    var lines := [FirstLine(f)] + LinesOf(hs);
    TextIsLines(f, hs, body);
    LinesAreLines(f, hs, f.headers, order);
    BlankAfter(lines, body);
    BodyBehind(Joined(lines), body);
  }

  // However a request is spelled, and whatever its body, the parser comes to the same fields: a name with a
  // lower-case first letter is stored with the capital, and what stands around names and values is gone.
  lemma SpellingsParse(f: Fields, hs: seq<Written>, order: seq<string>, body: string, before: Fields)
    requires GoodFirst(f) && IsOrder(order, f.headers.Keys) && AllStand(hs, f.headers, order)
    ensures Parsed(before, TextOf(f, hs, body)) == (RequestOk, f.(headers := before.headers + f.headers))
    ensures BodyOf(TextOf(f, hs, body)) == body
  {
    var tail := [""] + Split(body, CRLF);
    var rest := LinesOf(hs) + tail;
    WrittenSplits(f, hs, order, body);
    assert ([FirstLine(f)] + rest)[1..] == rest;
    FirstLineParses(before, f, [FirstLine(f)] + rest);
    WrittenParse(hs, f.headers, order, tail, before.headers);
    assert Chosen(f.headers, order) == f.headers;
    WrittenBody(f, hs, order, body);
  }
}
