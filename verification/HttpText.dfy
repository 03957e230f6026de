// The string operations that moudles/server/lib uses, on byte strings: each char stands for one byte.
module HttpText {
  const CRLF := "\r\n"
  const BLANK := "\r\n\r\n"

  predicate At(s: string, sep: string, j: nat) {
    j + |sep| <= |s| && s[j..j + |sep|] == sep
  }

  // strings.Index: where sep first occurs in s, or -1.
  function Index(s: string, sep: string): (i: int)
    ensures -1 <= i && (i >= 0 ==> At(s, sep, i))
    ensures forall j: nat :: i < 0 || j < i ==> !At(s, sep, j)
    decreases |s|
  {
    if At(s, sep, 0) then 0
    else if s == "" then -1
    else
      var i := Index(s[1..], sep);
      assert forall j: nat :: j > 0 && At(s, sep, j) ==> At(s[1..], sep, j - 1);
      if i < 0 then -1 else i + 1
  }

  predicate Contains(s: string, sep: string) {
    Index(s, sep) >= 0
  }

  // strings.Split.
  function Split(s: string, sep: string): (parts: seq<string>)
    requires sep != ""
    ensures parts != []
    decreases |s|
  {
    var i := Index(s, sep);
    if i < 0 then [s] else [s[..i]] + Split(s[i + |sep|..], sep)
  }

  lemma IndexIs(s: string, sep: string, i: nat)
    requires At(s, sep, i) && forall j: nat :: j < i ==> !At(s, sep, j)
    ensures Index(s, sep) == i
  {
  }

  // No two occurrences of the separator overlap.
  predicate Apart(sep: string) {
    |sep| == 1 || (|sep| == 2 && sep[0] != sep[1])
  }

  lemma AtFront(a: string, b: string, sep: string, j: nat)
    requires j + |sep| <= |a|
    ensures At(a + b, sep, j) <==> At(a, sep, j)
  {
    assert (a + b)[j..j + |sep|] == a[j..j + |sep|];
  }

  // Where a separator follows a text that has none, it is the first.
  lemma IndexAfter(a: string, sep: string, b: string)
    requires Apart(sep)
    ensures Index(a + sep + b, sep) == if Contains(a, sep) then Index(a, sep) else |a|
  {
    var s := a + (sep + b);
    assert s == a + sep + b;
    var i := if Contains(a, sep) then Index(a, sep) else |a|;
    forall j: nat | j < i
      ensures !At(s, sep, j)
    {
      if j + |sep| <= |a| {
        AtFront(a, sep + b, sep, j);
      } else {
        assert |sep| == 2 && j == |a| - 1;
        assert s[j + 1] == sep[0];
      }
    }
    if Contains(a, sep) {
      AtFront(a, sep + b, sep, i);
    } else {
      assert s[i..i + |sep|] == sep;
    }
    IndexIs(s, sep, i);
  }

  lemma {:induction false} SplitConcat(a: string, sep: string, b: string)
    requires Apart(sep)
    ensures Split(a + sep + b, sep) == Split(a, sep) + Split(b, sep)
    decreases |a|
  {
    var s := a + sep + b;
    IndexAfter(a, sep, b);
    var i := Index(a, sep);
    if i < 0 {
      assert s[..|a|] == a && s[|a| + |sep|..] == b;
    } else {
      var a' := a[i + |sep|..];
      SplitConcat(a', sep, b);
      CutFront(a, sep, b, i, i + |sep|);
      Regrouped(a[..i], Split(a', sep), Split(b, sep));
    }
  }

  lemma Regrouped(first: string, a: seq<string>, b: seq<string>)
    ensures [first] + (a + b) == ([first] + a) + b
  {
  }

  lemma CutFront(a: string, sep: string, b: string, i: nat, j: nat)
    requires i <= j <= |a|
    ensures (a + sep + b)[..i] == a[..i] && (a + sep + b)[j..] == a[j..] + sep + b
  {
  }

  // ----- strings.TrimSpace -----

  predicate AsciiSpace(c: char) {
    c == ' ' || '\t' <= c <= '\r'
  }

  // The white space of Unicode beyond ASCII, in UTF-8.
  predicate WideSpace(s: string) {
    || (|s| == 2 && s[0] == '\U{C2}' && (s[1] == '\U{85}' || s[1] == '\U{A0}'))
    || (|s| == 3 && s[0] == '\U{E1}' && s[1] == '\U{9A}' && s[2] == '\U{80}')
    || (|s| == 3 && s[0] == '\U{E2}' && s[1] == '\U{80}' &&
        ('\U{80}' <= s[2] <= '\U{8A}' || s[2] in "\U{A8}\U{A9}\U{AF}"))
    || (|s| == 3 && s[0] == '\U{E2}' && s[1] == '\U{81}' && s[2] == '\U{9F}')
    || (|s| == 3 && s[0] == '\U{E3}' && s[1] == '\U{80}' && s[2] == '\U{80}')
  }

  // A code point of two or three bytes in UTF-8, by section 3 of RFC 3629.
  function Utf8(c: nat): string
    requires 0x80 <= c < 0xD800
  {
    if c < 0x800 then [(0xC0 + c / 0x40) as char, (0x80 + c % 0x40) as char]
    else [(0xE0 + c / 0x1000) as char, (0x80 + c / 0x40 % 0x40) as char, (0x80 + c % 0x40) as char]
  }

  // The code points beyond ASCII that Unicode calls white space.
  predicate UnicodeSpace(c: nat) {
    || c in {0x85, 0xA0, 0x1680, 0x2028, 0x2029, 0x202F, 0x205F, 0x3000}
    || 0x2000 <= c <= 0x200A
  }

  lemma WideSpaceIs(s: string)
    ensures WideSpace(s) <==> exists c: nat :: UnicodeSpace(c) && s == Utf8(c)
  {
    if WideSpace(s) {
      var c := CodeOf(s);
    }
  }

  lemma CodeOf(s: string) returns (c: nat)
    requires WideSpace(s)
    ensures UnicodeSpace(c) && s == Utf8(c)
  {
    c := if |s| == 2 then s[1] as nat
         else (s[0] as nat - 0xE0) * 0x1000 + (s[1] as nat - 0x80) * 0x40 + (s[2] as nat - 0x80);
    assert |s| == 2 ==> s == [s[0], s[1]];
    assert |s| == 3 ==> s == [s[0], s[1], s[2]];
  }

  // How many bytes the space at the front of s takes, if there is one.
  function SpaceAhead(s: string): (n: nat)
    ensures n <= |s|
  {
    if s != "" && AsciiSpace(s[0]) then 1
    else if |s| >= 2 && WideSpace(s[..2]) then 2
    else if |s| >= 3 && WideSpace(s[..3]) then 3
    else 0
  }

  function SpaceBehind(s: string): (n: nat)
    ensures n <= |s|
  {
    if s != "" && AsciiSpace(s[|s| - 1]) then 1
    else if |s| >= 2 && WideSpace(s[|s| - 2..]) then 2
    else if |s| >= 3 && WideSpace(s[|s| - 3..]) then 3
    else 0
  }

  function TrimLeft(s: string): (t: string)
    ensures |t| <= |s|
    decreases |s|
  {
    if SpaceAhead(s) == 0 then s else TrimLeft(s[SpaceAhead(s)..])
  }

  function TrimRight(s: string): (t: string)
    ensures |t| <= |s|
    decreases |s|
  {
    if SpaceBehind(s) == 0 then s else TrimRight(s[..|s| - SpaceBehind(s)])
  }

  function TrimSpace(s: string): string {
    TrimRight(TrimLeft(s))
  }

  predicate Trimmed(s: string) {
    TrimSpace(s) == s
  }

  // A blank in front of a text without outer white space is all that is trimmed.
  lemma TrimBlank(s: string)
    requires Trimmed(s)
    ensures TrimSpace(" " + s) == s
  {
    assert (" " + s)[1..] == s;
    assert TrimLeft(" " + s) == TrimLeft(s);
  }

  // ----- the first separator of a line -----

  lemma IndexColon(key: string, rest: string)
    requires !Contains(key, ":")
    ensures Index(key + ":" + rest, ":") == |key|
  {
    IndexAfter(key, ":", rest);
  }

  // ----- numbers -----

  const MAX_INT: nat := 0x7FFF_FFFF_FFFF_FFFF

  function Digit(d: nat): char
    requires d < 10
  {
    '0' + d as char
  }

  // The verb %d, on numbers that are not negative.
  function Decimal(n: nat): (s: string)
    ensures s != "" && forall i :: 0 <= i < |s| ==> '0' <= s[i] <= '9'
  {
    if n < 10 then [Digit(n)] else Decimal(n / 10) + [Digit(n % 10)]
  }

  datatype Number = Number(value: int) | NoNumber

  function Digits(s: string): Number {
    if s == "" then Number(0)
    else
      var front := Digits(s[..|s| - 1]);
      var c := s[|s| - 1];
      if front.NoNumber? || !('0' <= c <= '9') then NoNumber else Number(10 * front.value + (c - '0') as int)
  }

  // strconv.Atoi, where an int has 64 bits.
  function Atoi(s: string): Number {
    var digits := if s != "" && s[0] in "+-" then s[1..] else s;
    var n := Digits(digits);
    if digits == "" || n.NoNumber? then NoNumber
    else if s[0] == '-' then if n.value > MAX_INT + 1 then NoNumber else Number(-n.value)
    else if n.value > MAX_INT then NoNumber
    else n
  }

  lemma {:induction false} DigitsDecimal(n: nat)
    ensures Digits(Decimal(n)) == Number(n)
  {
    var s := Decimal(n);
    if n < 10 {
      assert s[..|s| - 1] == "";
    } else {
      DigitsDecimal(n / 10);
      assert s[..|s| - 1] == Decimal(n / 10);
    }
  }

  lemma AtoiDecimal(n: nat)
    requires n <= MAX_INT
    ensures Atoi(Decimal(n)) == Number(n)
  {
    DigitsDecimal(n);
    var s := Decimal(n);
    assert '0' <= s[0] <= '9' && s[0] !in "+-";
  }
}
