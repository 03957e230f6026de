// Texts as lines: where the first blank line is, for a splitter that looks for CRLF and for a scanner
// that looks for CRLFCRLF.
module HttpLines {
  import opened HttpText

  // The lines with CRLF between them: what Split undoes.
  function Joined(lines: seq<string>): string
    requires lines != []
  {
    if |lines| == 1 then lines[0] else lines[0] + CRLF + Joined(lines[1..])
  }

  lemma {:induction false} SplitJoined(lines: seq<string>)
    requires lines != [] && forall l :: l in lines ==> !Contains(l, CRLF)
    ensures Split(Joined(lines), CRLF) == lines
    decreases |lines|
  {
    assert lines[0] in lines;
    SplitOne(lines[0]);
    if |lines| > 1 {
      SplitConcat(lines[0], CRLF, Joined(lines[1..]));
      assert forall l :: l in lines[1..] ==> l in lines;
      SplitJoined(lines[1..]);
      assert [lines[0]] + lines[1..] == lines;
    } else {
      assert [lines[0]] == lines;
    }
  }

  lemma SplitOne(l: string)
    requires !Contains(l, CRLF)
    ensures Split(l, CRLF) == [l]
  {
  }

  lemma {:induction false} JoinedSplit(s: string)
    ensures Joined(Split(s, CRLF)) == s && forall l :: l in Split(s, CRLF) ==> !Contains(l, CRLF)
    decreases |s|
  {
    var i := Index(s, CRLF);
    if i >= 0 {
      var t := s[i + 2..];
      JoinedSplit(t);
      assert s == s[..i] + CRLF + t;
      NoneBefore(s, i);
      assert ([s[..i]] + Split(t, CRLF))[1..] == Split(t, CRLF);
    }
  }

  // ----- occurrences, byte by byte -----

  predicate EndAt(s: string, j: nat) {
    j + 1 < |s| && s[j] == '\r' && s[j + 1] == '\n'
  }

  lemma EndIs(s: string, j: nat)
    ensures At(s, CRLF, j) <==> EndAt(s, j)
  {
    if j + 2 <= |s| {
      assert s[j..j + 2] == [s[j], s[j + 1]];
    }
  }

  lemma BlankIs(s: string, j: nat)
    ensures At(s, BLANK, j) <==> EndAt(s, j) && EndAt(s, j + 2)
  {
    if j + 4 <= |s| {
      assert s[j..j + 4] == [s[j], s[j + 1], s[j + 2], s[j + 3]];
    }
  }

  // A line: no end of line inside.
  ghost predicate Line(l: string) {
    forall j: nat :: !EndAt(l, j)
  }

  lemma LineIs(l: string)
    ensures Line(l) <==> !Contains(l, CRLF)
  {
    forall j: nat
      ensures At(l, CRLF, j) <==> EndAt(l, j)
    {
      EndIs(l, j);
    }
  }

  lemma NoneBefore(s: string, i: nat)
    requires i <= |s| && forall j: nat :: j < i ==> !At(s, CRLF, j)
    ensures !Contains(s[..i], CRLF)
  {
    forall j: nat
      ensures !EndAt(s[..i], j)
    {
      EndIs(s, j);
    }
    LineIs(s[..i]);
  }

  // A blank line in a list of lines: an empty line that is neither the first nor the last.
  ghost predicate HasBlank(lines: seq<string>) {
    exists k :: 0 < k < |lines| - 1 && lines[k] == ""
  }

  // Where a blank line can be in a text whose first line is l: at the end of l, if what follows starts
  // with an end of line, or inside what follows.
  lemma BlankBehind(l: string, rest: string, j: nat)
    requires Line(l)
    ensures At(l + CRLF + rest, BLANK, j) <==>
            if j < |l| + 2 then j == |l| && EndAt(rest, 0) else At(rest, BLANK, j - |l| - 2)
  {
    var s := l + CRLF + rest;
    BlankIs(s, j);
    assert forall i: nat :: i < |rest| ==> s[|l| + 2 + i] == rest[i];
    if j < |l| {
      assert EndAt(s, j) ==> EndAt(l, j) || s[j + 1] == '\r';
    } else if j >= |l| + 2 {
      BlankIs(rest, j - |l| - 2);
    }
  }

  // Lines that hold a blank line make a text that holds CRLFCRLF.
  lemma {:induction false} BlankJoined(lines: seq<string>)
    requires HasBlank(lines) && forall l :: l in lines ==> Line(l)
    ensures Contains(Joined(lines), BLANK)
  {
    var rest := lines[1..];
    var k :| 0 < k < |lines| - 1 && lines[k] == "";
    if k == 1 {
      BlankBehind(lines[0], Joined(rest), |lines[0]|);
    } else {
      assert rest[k - 1] == "";
      BlankJoined(rest);
      BlankBehind(lines[0], Joined(rest), |lines[0]| + 2 + Index(Joined(rest), BLANK));
    }
  }

  // After lines of which only the first may be empty, CRLFCRLF is first found where they end.
  lemma {:induction false} BlankAfter(lines: seq<string>, rest: string)
    requires lines != [] && (forall l :: l in lines ==> Line(l))
    requires forall k :: 0 < k < |lines| ==> lines[k] != ""
    ensures Index(Joined(lines) + BLANK + rest, BLANK) == |Joined(lines)|
    decreases |lines|
  {
    if |lines| == 1 {
      FirstBlank(lines[0], CRLF + rest, 0);
      assert lines[0] + BLANK + rest == lines[0] + CRLF + (CRLF + rest);
    } else {
      var inner := Joined(lines[1..]);
      BlankAfter(lines[1..], rest);
      StartsApart(lines[1..], BLANK + rest);
      assert inner + (BLANK + rest) == inner + BLANK + rest;
      FirstBlank(lines[0], inner + BLANK + rest, |inner| + 2);
      Regroup(lines[0], inner, rest);
    }
  }

  lemma Regroup(l: string, inner: string, rest: string)
    ensures (l + CRLF + inner) + BLANK + rest == l + CRLF + (inner + BLANK + rest)
  {
  }

  // The first blank line of l and what follows it, n bytes behind the end of l.
  lemma FirstBlank(l: string, rest: string, n: nat)
    requires Line(l)
    requires if n == 0 then EndAt(rest, 0) else !EndAt(rest, 0) && n >= 2 && Index(rest, BLANK) == n - 2
    ensures Index(l + CRLF + rest, BLANK) == |l| + n
  {
    var s := l + CRLF + rest;
    forall j: nat
      ensures j < |l| + n ==> !At(s, BLANK, j)
      ensures j == |l| + n ==> At(s, BLANK, j)
    {
      BlankBehind(l, rest, j);
    }
    IndexIs(s, BLANK, |l| + n);
  }

  // A text whose first line is not empty does not start with an end of line.
  lemma StartsApart(lines: seq<string>, rest: string)
    requires lines != [] && lines[0] != "" && Line(lines[0]) && |rest| >= 1 && rest[0] == '\r'
    ensures !EndAt(Joined(lines) + rest, 0)
  {
    var l := lines[0];
    assert !EndAt(l, 0);
  }
}
