// When RequestBodyValid takes a body for complete: at once, by its length, or by its boundary.
module HttpBody {
  import opened HttpText
  import opened HttpRequest
  import opened HttpRoundTrip
  import opened HttpArrival

  predicate SaysMultipart(headers: Headers) {
    "Content-Type" in headers && Contains(headers["Content-Type"], "multipart/form-data")
  }

  // Neither header tells how long the body is: as in most requests without one.
  predicate SaysNothing(headers: Headers) {
    !SaysMultipart(headers) && ("Content-Length" in headers ==> headers["Content-Length"] == "")
  }

  // A printed request that says nothing of its body is complete as soon as its header is there, in whatever pieces
  // it arrives.
  lemma CompleteAtOnce(f: Fields, order: seq<string>, body: string, start: nat, before: Fields)
    requires WellFormed(f) && IsOrder(order, f.headers.Keys) && SaysNothing(f.headers)
    requires before.headers == map[] && start <= |body|
    ensures var arrived := Row(f, order, body)[..|Row(f, order, body)| - |body| + start];
            && Parsed(before, arrived) == (RequestOk, f) && BodyOf(arrived) == body[..start]
            && BodyVerdict(Parsed(before, arrived).1.headers, BodyOf(arrived)) == Complete
  {
    PartComesBack(f, order, body[..start], before);
    RowCut(f, order, body, start);
  }

  // ----- by its length -----

  lemma LengthDecides(headers: Headers, body: string, n: nat)
    requires !SaysMultipart(headers) && n <= MAX_INT
    requires "Content-Length" in headers && headers["Content-Length"] == Decimal(n)
    ensures BodyVerdict(headers, body) == if |body| == n then Complete else Incomplete
  {
    AtoiDecimal(n);
  }

  lemma {:induction false} NotDigits(s: string, i: nat)
    requires i < |s| && !('0' <= s[i] <= '9')
    ensures Digits(s) == NoNumber
    decreases |s|
  {
    if i < |s| - 1 {
      NotDigits(s[..|s| - 1], i);
    }
  }

  // A length with a byte in it that is no digit, but for a sign in front, is the panic of Atoi's error.
  lemma NoLengthPanics(headers: Headers, body: string, i: nat)
    requires !SaysMultipart(headers) && "Content-Length" in headers
    requires var s := headers["Content-Length"];
             i < |s| && !('0' <= s[i] <= '9') && (i == 0 ==> s[0] != '+' && s[0] != '-')
    ensures BodyVerdict(headers, body) == BadLength
  {
    var s := headers["Content-Length"];
    if s[0] == '+' || s[0] == '-' {
      NotDigits(s[1..], i - 1);
    } else {
      NotDigits(s, i);
    }
  }

  // ----- by its boundary -----

  ghost predicate Holds(body: string, part: string) {
    exists j: nat :: At(body, part, j)
  }

  lemma HoldsIs(body: string, part: string)
    ensures Contains(body, part) <==> Holds(body, part)
  {
  }

  const FORM_DATA := "multipart/form-data"

  lemma FormDataAhead(rest: string)
    ensures Contains(FORM_DATA + rest, "multipart/form-data")
  {
    assert At(FORM_DATA + rest, "multipart/form-data", 0);
  }

  lemma NoLetterNoMatch(s: string, sep: string, j: nat)
    requires j < |s| && sep != "" && s[j] != sep[0]
    ensures !At(s, sep, j)
  {
  }

  lemma BoundaryIs(b: string)
    ensures Index(FORM_DATA + "; boundary=" + b, "boundary=") == 21
    ensures (FORM_DATA + "; boundary=" + b)[30..] == b
  {
    var s, ahead := FORM_DATA + "; boundary=" + b, FORM_DATA + "; ";
    assert s[21..30] == "boundary=";
    forall j: nat | j < 21
      ensures !At(s, "boundary=", j)
    {
      assert s[j] == ahead[j] && ahead[j] != 'b';
      NoLetterNoMatch(s, "boundary=", j);
    }
    IndexIs(s, "boundary=", 21);
  }

  // With a boundary in the content type, the body is complete exactly if the boundary with two hyphens behind it is
  // there, whatever the length says.
  lemma BoundaryDecides(headers: Headers, body: string, b: string)
    requires "Content-Type" in headers && headers["Content-Type"] == "multipart/form-data; boundary=" + b
    ensures BodyVerdict(headers, body) == if Holds(body, b + "--") then Complete else Incomplete
  {
    var s := FORM_DATA + "; boundary=" + b;
    assert headers["Content-Type"] == s;
    assert s == FORM_DATA + ("; boundary=" + b);
    FormDataAhead("; boundary=" + b);
    BoundaryIs(b);
    HoldsIs(body, b + "--");
  }

  lemma NoBoundaryIs()
    ensures Contains(FORM_DATA, "multipart/form-data") && Index(FORM_DATA, "boundary=") == -1
    ensures FORM_DATA[8..] == "t/form-data"
  {
    var s := FORM_DATA;
    assert At(s, "multipart/form-data", 0);
    forall j: nat
      ensures !At(s, "boundary=", j)
    {
      if j < |s| {
        assert s[j] != 'b';
        NoLetterNoMatch(s, "boundary=", j);
      }
    }
  }

  // Without one the source takes the end of the content type itself for the boundary.
  lemma NoBoundary(headers: Headers, body: string)
    requires "Content-Type" in headers && headers["Content-Type"] == "multipart/form-data"
    ensures BodyVerdict(headers, body) == if Holds(body, "t/form-data" + "--") then Complete else Incomplete
  {
    NoBoundaryIs();
    HoldsIs(body, "t/form-data" + "--");
  }
}
