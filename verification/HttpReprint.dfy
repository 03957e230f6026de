// The normal form of accepted requests: when printing what was parsed, and parsing that, gives the same again.
module HttpReprint {
  import opened HttpText
  import opened HttpLines
  import opened HttpRequest
  import opened HttpRoundTrip
  import opened HttpArrival

  // ----- trimming -----

  lemma {:induction false} LeftIsSlice(s: string) returns (i: nat)
    ensures i <= |s| && TrimLeft(s) == s[i..] && SpaceAhead(TrimLeft(s)) == 0
    decreases |s|
  {
    i := SpaceAhead(s);
    if i > 0 {
      var i' := LeftIsSlice(s[i..]);
      assert s[i..][i'..] == s[i + i'..];
      i := i + i';
    }
  }

  lemma {:induction false} RightIsSlice(s: string) returns (j: nat)
    ensures j <= |s| && TrimRight(s) == s[..j] && SpaceBehind(TrimRight(s)) == 0
    decreases |s|
  {
    j := |s| - SpaceBehind(s);
    if j < |s| {
      var j' := RightIsSlice(s[..j]);
      assert s[..j][..j'] == s[..j'];
      j := j';
    } else {
      assert s[..j] == s;
    }
  }

  lemma AheadOfPrefix(s: string, j: nat)
    requires j <= |s| && SpaceAhead(s) == 0
    ensures SpaceAhead(s[..j]) == 0
  {
    assert j >= 2 ==> s[..j][..2] == s[..2];
    assert j >= 3 ==> s[..j][..3] == s[..3];
  }

  lemma TrimmedIs(s: string)
    ensures Trimmed(s) <==> SpaceAhead(s) == 0 && SpaceBehind(s) == 0
  {
    if SpaceAhead(s) == 0 && SpaceBehind(s) > 0 {
      assert |TrimRight(s)| <= |s| - SpaceBehind(s);
    }
    if SpaceAhead(s) > 0 {
      assert |TrimLeft(s)| <= |s| - SpaceAhead(s);
    }
  }

  // What is trimmed is a part of the text, and has no outer white space left.
  lemma TrimSlice(s: string) returns (i: nat, j: nat)
    ensures i <= j <= |s| && TrimSpace(s) == s[i..j] && Trimmed(TrimSpace(s))
  {
    i := LeftIsSlice(s);
    var n := RightIsSlice(s[i..]);
    j := i + n;
    assert s[i..][..n] == s[i..j];
    AheadOfPrefix(s[i..], n);
    TrimmedIs(s[i..j]);
  }

  lemma SliceIsLine(l: string, i: nat, j: nat)
    requires Line(l) && i <= j <= |l|
    ensures Line(l[i..j])
  {
    assert forall n: nat :: EndAt(l[i..j], n) ==> EndAt(l, i + n);
  }

  // ----- keys -----

  // The first byte is ASCII, so that it is a character by itself.
  predicate Ascii(key: string)
    requires key != ""
  {
    key[0] < '\U{80}'
  }

  lemma CanonicalAhead(key: string)
    requires key != "" && SpaceAhead(key) == 0
    ensures SpaceAhead(Canonical(key)) == 0
  {
    var k := Canonical(key);
    assert |k| >= 2 ==> k[..2][0] == k[0];
    assert |k| >= 3 ==> k[..3][0] == k[0];
  }

  // A byte that no white space of more than one byte starts with.
  predicate Narrow(c: char) {
    c != '\U{C2}' && c != '\U{E1}' && c != '\U{E2}' && c != '\U{E3}'
  }

  lemma NotWide(s: string)
    requires s == "" || Narrow(s[0])
    ensures !WideSpace(s)
  {
  }

  // The last n bytes.
  function Suffix(s: string, n: nat): string
    requires n <= |s|
  {
    s[|s| - n..]
  }

  // What is behind a text shows in its last three bytes.
  lemma BehindIs(s: string)
    requires s != ""
    ensures SpaceBehind(s) == 0 <==>
            && !AsciiSpace(s[|s| - 1])
            && (|s| >= 2 ==> !WideSpace(Suffix(s, 2)))
            && (|s| >= 3 ==> !WideSpace(Suffix(s, 3)))
  {
  }

  lemma SuffixKept(first: string, rest: string, n: nat)
    requires n <= |rest|
    ensures Suffix(first + rest, n) == Suffix(rest, n)
  {
  }

  lemma SuffixChanged(first: string, rest: string, n: nat)
    requires (forall i :: 0 <= i < |first| ==> Narrow(first[i])) && |rest| < n <= |first + rest|
    ensures !WideSpace(Suffix(first + rest, n))
  {
    assert Suffix(first + rest, n)[0] == first[|first + rest| - n];
    NotWide(Suffix(first + rest, n));
  }

  // Bytes that no white space holds.
  predicate Solid(first: string) {
    first != "" && forall i :: 0 <= i < |first| ==> Narrow(first[i]) && !AsciiSpace(first[i])
  }

  lemma LastByte(first: string, rest: string, c: char)
    requires Solid(first) && (rest != "" ==> !AsciiSpace(([c] + rest)[|rest|]))
    ensures !AsciiSpace((first + rest)[|first + rest| - 1])
  {
  }

  // A byte in front can be exchanged for such bytes.
  lemma BehindChanged(first: string, rest: string, c: char)
    requires SpaceBehind([c] + rest) == 0 && Solid(first)
    ensures SpaceBehind(first + rest) == 0
  {
    BehindIs([c] + rest);
    LastByte(first, rest, c);
    BothSuffixes(first, rest, c, 2);
    BothSuffixes(first, rest, c, 3);
    BehindIs(first + rest);
  }

  lemma BothSuffixes(first: string, rest: string, c: char, n: nat)
    requires n >= 2 && (n <= |[c] + rest| ==> !WideSpace(Suffix([c] + rest, n)))
    requires Solid(first)
    ensures n <= |first + rest| ==> !WideSpace(Suffix(first + rest, n))
  {
    if n <= |rest| {
      SuffixKept(first, rest, n);
      SuffixKept([c], rest, n);
    } else if n <= |first + rest| {
      SuffixChanged(first, rest, n);
    }
  }

  lemma UpperSolid(c: char)
    requires UpperFirst(c) != [c]
    ensures Solid(UpperFirst(c))
  {
  }

  lemma CanonicalBehind(key: string)
    requires key != "" && SpaceBehind(key) == 0
    ensures SpaceBehind(Canonical(key)) == 0
  {
    assert [key[0]] + key[1..] == key;
    if Canonical(key) != key {
      UpperSolid(key[0]);
      BehindChanged(UpperFirst(key[0]), key[1..], key[0]);
    }
  }

  // The changed first byte leaves a key trimmed, on one line and without a colon; doing it again changes
  // nothing exactly if the first byte is ASCII.
  lemma CanonicalIs(key: string)
    requires key != "" && Trimmed(key) && ':' !in key && Line(key)
    ensures var k := Canonical(key); k != "" && Trimmed(k) && ':' !in k && Line(k)
    ensures Ascii(Canonical(key)) <==> Ascii(key)
    ensures Canonical(Canonical(key)) == Canonical(key) <==> Ascii(key)
  {
    CanonicalTrimmed(key);
    CanonicalLine(key);
    CanonicalTwice(key);
  }

  lemma CanonicalTrimmed(key: string)
    requires key != "" && Trimmed(key)
    ensures Trimmed(Canonical(key))
  {
    TrimmedIs(key);
    CanonicalAhead(key);
    CanonicalBehind(key);
    TrimmedIs(Canonical(key));
  }

  lemma CanonicalTwice(key: string)
    requires key != ""
    ensures Canonical(key) != "" && (Ascii(Canonical(key)) <==> Ascii(key))
    ensures Canonical(Canonical(key)) == Canonical(key) <==> Ascii(key)
  {
    assert !Ascii(key) ==> |Canonical(Canonical(key))| == |key| + 4;
  }

  lemma CanonicalLine(key: string)
    requires key != "" && Line(key)
    ensures Line(Canonical(key))
  {
    var k := Canonical(key);
    var d := |k| - |key|;
    assert forall j: nat :: EndAt(k, j) && j > d ==> EndAt(key, j - d);
    assert forall j: nat :: EndAt(k, j) && j <= d ==> j == 0 && EndAt(key, 0);
  }

  // ----- what the parser accepts is printable -----

  // U+FFFD in UTF-8.
  const REPLACEMENT := "\U{EF}\U{BF}\U{BD}"

  // No name starts with a lower-case letter, or with a byte beyond ASCII other than those of U+FFFD.
  ghost predicate ParsedPair(key: string, value: string) {
    GoodPair(key, value) && key != "" && !LowerCase(key[0]) && (Ascii(key) || REPLACEMENT <= key)
  }

  lemma NotBefore(s: string, c: char, i: nat)
    requires i <= |s| && forall j: nat :: j < i ==> !At(s, [c], j)
    ensures c !in s[..i]
  {
    forall j | 0 <= j < i
      ensures s[j] != c
    {
      assert !At(s, [c], j) && s[j..j + 1] == [s[j]];
    }
  }

  lemma TrimmedPart(l: string, i: nat, j: nat)
    requires Line(l) && i <= j <= |l|
    ensures Line(TrimSpace(l[i..j])) && Trimmed(TrimSpace(l[i..j]))
    ensures forall c :: c !in l[i..j] ==> c !in TrimSpace(l[i..j])
  {
    var n, m := TrimSlice(l[i..j]);
    SliceIsLine(l, i, j);
    SliceIsLine(l[i..j], n, m);
  }

  lemma CanonicalFirst(key: string)
    requires key != ""
    ensures var k := Canonical(key); k != "" && !LowerCase(k[0]) && (Ascii(k) || REPLACEMENT <= k)
  {
  }

  lemma LineGivesPair(line: string, colon: nat, key: string, value: string)
    requires Line(line) && colon == Index(line, ":")
    requires key == TrimSpace(line[..colon]) && key != "" && value == TrimSpace(line[colon + 1..])
    ensures ParsedPair(Canonical(key), value)
  {
    NotBefore(line, ':', colon);
    assert line[0..colon] == line[..colon] && line[colon + 1..|line|] == line[colon + 1..];
    TrimmedPart(line, 0, colon);
    TrimmedPart(line, colon + 1, |line|);
    CanonicalIs(key);
    CanonicalFirst(key);
  }

  // One round of the loop that goes on.
  lemma RoundOn(lines: seq<string>, headers: Headers) returns (colon: nat, key: string)
    requires ParsedLines(lines, headers).0 == RequestOk && !(lines[0] == "" && |lines| > 1)
    ensures lines != [] && colon == Index(lines[0], ":") && key == TrimSpace(lines[0][..colon]) && key != ""
    ensures ParsedLines(lines, headers) ==
            ParsedLines(lines[1..], headers[Canonical(key) := TrimSpace(lines[0][colon + 1..])])
  {
    colon := Index(lines[0], ":");
    key := TrimSpace(lines[0][..colon]);
  }

  ghost predicate ParsedPairs(headers: Headers) {
    forall k :: k in headers ==> ParsedPair(k, headers[k])
  }

  lemma {:induction false} LoopGivesPairs(lines: seq<string>, headers: Headers)
    requires ParsedLines(lines, headers).0 == RequestOk && forall i :: 0 <= i < |lines| ==> Line(lines[i])
    requires ParsedPairs(headers)
    ensures ParsedPairs(ParsedLines(lines, headers).1)
    decreases |lines|
  {
    if !(lines[0] == "" && |lines| > 1) {
      var colon, key := RoundOn(lines, headers);
      var value := TrimSpace(lines[0][colon + 1..]);
      LineGivesPair(lines[0], colon, key, value);
      LoopGivesPairs(lines[1..], headers[Canonical(key) := value]);
    }
  }

  // The parts of a line, split at a character.
  lemma {:induction false} PartsOfLine(l: string, c: char)
    requires Line(l)
    ensures forall i :: 0 <= i < |Split(l, [c])| ==> Line(Split(l, [c])[i]) && c !in Split(l, [c])[i]
    decreases |l|
  {
    var i := Index(l, [c]);
    if i < 0 {
      NotBefore(l, c, |l|);
      assert l[..|l|] == l;
    } else {
      NotBefore(l, c, i);
      SliceIsLine(l, 0, i);
      SliceIsLine(l, i + 1, |l|);
      assert l[i + 1..|l|] == l[i + 1..];
      PartsOfLine(l[i + 1..], c);
    }
  }

  // Of an accepted request everything that was parsed prints as lines again.
  lemma AcceptedIsPrintable(f: Fields, s: string)
    requires f.headers == map[] && Parsed(f, s).0 == RequestOk
    ensures GoodFirst(Parsed(f, s).1) && ParsedPairs(Parsed(f, s).1.headers)
  {
    var lines := Split(s, CRLF);
    SplitIntoLines(s);
    AcceptedFirst(f, lines);
    PartsOfLine(lines[0], ' ');
    LoopGivesPairs(lines[1..], f.headers);
  }

  // What an accepted request has been split into.
  lemma AcceptedFirst(f: Fields, lines: seq<string>)
    requires lines != [] && ParsedSplit(f, lines).0 == RequestOk
    ensures var (parts, g, loop) := (Split(lines[0], " "), ParsedSplit(f, lines).1, ParsedLines(lines[1..], f.headers));
            && |parts| == 3 && parts[0] in METHODS && parts[1] != "" && parts[2] in PROTOCOLS
            && loop.0 == RequestOk && g == Fields(parts[0], parts[1], parts[2], loop.1)
  {
  }

  // ----- keys that do not come back -----

  predicate AsciiKeys(headers: Headers) {
    forall k :: k in headers ==> k != "" && Ascii(k)
  }

  lemma {:induction false} Shortest(keys: set<string>) returns (k: string)
    requires keys != {}
    ensures k in keys && forall j :: j in keys ==> |k| <= |j|
    decreases |keys|
  {
    k :| k in keys;
    if keys != {k} {
      var j := Shortest(keys - {k});
      if |j| < |k| {
        k := j;
      }
    }
  }

  // The shortest key whose first byte is beyond ASCII: every such key grows, so nothing becomes this one.
  lemma LostKey(headers: Headers) returns (lost: string)
    requires ParsedPairs(headers) && !AsciiKeys(headers)
    ensures lost in headers && forall k :: k in headers ==> k != "" && Canonical(k) != lost
  {
    var bad := set k | k in headers && k != "" && !Ascii(k);
    var some :| some in headers && !(some != "" && Ascii(some));
    assert ParsedPair(some, headers[some]) && some in bad;
    lost := Shortest(bad);
    forall k | k in headers
      ensures k != "" && Canonical(k) != lost
    {
      assert ParsedPair(k, headers[k]);
      assert !Ascii(k) ==> k in bad && |Canonical(k)| == |k| + 2;
    }
  }

  lemma {:induction false} LoopMisses(headers: Headers, order: seq<string>, tail: seq<string>, start: Headers,
                                       lost: string)
    requires forall k :: k in order ==> k in headers && k != "" && GoodPair(k, headers[k]) && Canonical(k) != lost
    requires |tail| > 1 && tail[0] == "" && lost !in start
    ensures var parsed := ParsedLines(HeaderLines(headers, order) + tail, start);
            parsed.0 == RequestOk && lost !in parsed.1
    decreases |order|
  {
    if order == [] {
      assert HeaderLines(headers, order) + tail == tail;
    } else {
      var key, value, rest := order[0], headers[order[0]], order[1..];
      HeaderLinesStep(headers, order, tail);
      var behind := HeaderLines(headers, rest) + tail;
      PairStep(key, value, [HeaderLine(key, value)] + behind, start);
      assert ([HeaderLine(key, value)] + behind)[1..] == behind;
      LoopMisses(headers, rest, tail, start[Canonical(key) := value], lost);
    }
  }

  // ----- printing what was parsed -----

  lemma ReprintSplits(f: Fields, g: Fields, order: seq<string>, body: string)
    requires Printable(g) && IsOrder(order, g.headers.Keys)
    ensures Parsed(f, Row(g, order, body)) ==
            Outcome(g, ParsedLines(HeaderLines(g.headers, order) + ([""] + Split(body, CRLF)), f.headers))
  {
    var tail := [""] + Split(body, CRLF);
    RowIsLines(g, order, body);
    RowSplits(g, order, body);
    PrintedAhead(g, order, tail);
    FirstLineParses(f, g, Printed(g, order) + tail);
  }

  lemma ReprintBody(g: Fields, order: seq<string>, body: string)
    requires Printable(g) && IsOrder(order, g.headers.Keys)
    ensures BodyOf(Row(g, order, body)) == body
  {
    RowIsLines(g, order, body);
    PrintedLines(g, order);
    BlankAfter(Printed(g, order), body);
    BodyBehind(Joined(Printed(g, order)), body);
  }

  // An accepted request, printed from what was parsed and parsed again, is accepted with the same body; and it
  // has the same fields exactly if all keys that were parsed start with an ASCII byte.
  lemma Reprinted(f: Fields, s: string, order: seq<string>)
    requires f.headers == map[] && Parsed(f, s).0 == RequestOk && IsOrder(order, Parsed(f, s).1.headers.Keys)
    ensures var g := Parsed(f, s).1;
            var row := Row(g, order, BodyOf(s));
            && Parsed(f, row).0 == RequestOk && BodyOf(row) == BodyOf(s)
            && (Parsed(f, row).1 == g <==> AsciiKeys(g.headers))
  {
    var g, body := Parsed(f, s).1, BodyOf(s);
    AcceptedIsPrintable(f, s);
    ReprintBody(g, order, body);
    if AsciiKeys(g.headers) {
      RoundTrip(g, order, body, f);
      FreshHeaders(g, f);
    } else {
      var lost := LostKey(g.headers);
      ReprintSplits(f, g, order, body);
      LoopMisses(g.headers, order, [""] + Split(body, CRLF), f.headers, lost);
    }
  }
}
