// The request printer, the line-based header parser and the byte-scanning body splitter of
// moudles/server/lib/request/request.go.
module HttpRequest {
  import opened HttpText

  const METHODS := ["GET", "POST", "PUT", "DELETE", "HEAD", "OPTIONS", "TRACE", "CONNECT"]
  const PROTOCOLS := ["HTTP/0.9", "HTTP/1.0", "HTTP/1.1", "HTTP/2", "HTTP/3"]

  // The errors that ParseHeader returns, and a panic of the Go run time.
  datatype Code = RequestOk | None | UnknowInvalid | FirstLineInvalid | MethodInvalid | RequestNeedReadMore
                | InvalidHeaders | ProtocolInvalid | PathInvalid | Panic

  type Headers = map<string, string>

  // What ParseHeader fills in.
  datatype Fields = Fields(verb: string, path: string, protocol: string, headers: Headers)

  // strings.ToUpper on the first byte alone; a byte beyond ASCII is no character by itself and becomes U+FFFD.
  function UpperFirst(c: char): string {
    if 'a' <= c <= 'z' then [c - 'a' + 'A']
    else if c >= '\U{80}' then "\U{EF}\U{BF}\U{BD}"
    else [c]
  }

  function Canonical(key: string): string
    requires key != ""
  {
    UpperFirst(key[0]) + key[1..]
  }

  // The loop over the lines after the first.
  function ParsedLines(lines: seq<string>, headers: Headers): (Code, Headers) {
    if lines == [] then (RequestNeedReadMore, headers)
    else if lines[0] == "" && |lines| > 1 then (RequestOk, headers)
    else
      var colon := Index(lines[0], ":");
      if colon < 0 then (InvalidHeaders, headers)
      else
        var key := TrimSpace(lines[0][..colon]);
        if key == "" then (Panic, headers)
        else ParsedLines(lines[1..], headers[Canonical(key) := TrimSpace(lines[0][colon + 1..])])
  }

  // What ParseHeader returns, and what it has assigned by then.
  function Parsed(f: Fields, request: string): (Code, Fields) {
    if request == "" then (None, f)
    else ParsedSplit(f, Split(request, CRLF))
  }

  function ParsedSplit(f: Fields, requestLine: seq<string>): (Code, Fields)
    requires requestLine != []
  {
    if |requestLine| < 2 then (UnknowInvalid, f)
    else
      var parts := Split(requestLine[0], " ");
      if |parts| != 3 then (FirstLineInvalid, f)
      else if parts[0] !in METHODS then (MethodInvalid, f)
      else
        var f1 := f.(verb := parts[0]);
        if parts[1] == "" then (PathInvalid, f1)
        else
          var f2 := f1.(path := parts[1]);
          if parts[2] !in PROTOCOLS then (ProtocolInvalid, f2)
          else
            var f3 := f2.(protocol := parts[2]);
            if |requestLine| == 2 then (RequestNeedReadMore, f3)
            else
              var (code, headers) := ParsedLines(requestLine[1..], f3.headers);
              (code, f3.(headers := headers))
  }

  // What ParseBody leaves in the body, on at least 4 bytes.
  function BodyOf(row: string): string {
    var i := Index(row, BLANK);
    if i < 0 then "" else row[i + 4..]
  }

  // What RequestBodyValid says; it panics on a length that is no number.
  datatype Verdict = Complete | Incomplete | BadLength

  function HeaderOf(headers: Headers, key: string): string {
    if key in headers then headers[key] else ""
  }

  predicate Multipart(headers: Headers) {
    Contains(HeaderOf(headers, "Content-Type"), "multipart/form-data")
  }

  // What follows "boundary=" in the content type; without it, what follows the first 8 bytes.
  function Boundary(headers: Headers): string
    requires Multipart(headers)
  {
    var contentType := HeaderOf(headers, "Content-Type");
    contentType[Index(contentType, "boundary=") + 9..]
  }

  function BodyVerdict(headers: Headers, body: string): Verdict {
    if Multipart(headers) then
      if Contains(body, Boundary(headers) + "--") then Complete else Incomplete
    else
      var contentLength := HeaderOf(headers, "Content-Length");
      if contentLength == "" then Complete
      else
        match Atoi(contentLength)
        case NoNumber => BadLength
        case Number(n) => if |body| != n then Incomplete else Complete
  }

  // ----- printing -----

  function HeaderLine(key: string, value: string): string {
    key + ": " + value
  }

  function HeaderLines(headers: Headers, order: seq<string>): seq<string>
    requires forall k :: k in order ==> k in headers
  {
    seq(|order|, i requires 0 <= i < |order| => HeaderLine(order[i], headers[order[i]]))
  }

  // Every line with its end of line.
  function Ended(lines: seq<string>): string {
    if lines == [] then "" else lines[0] + CRLF + Ended(lines[1..])
  }

  function FirstLine(f: Fields): string {
    f.verb + " " + f.path + " " + f.protocol
  }

  function Row(f: Fields, order: seq<string>, body: string): string
    requires forall k :: k in order ==> k in f.headers
  {
    FirstLine(f) + CRLF + Ended(HeaderLines(f.headers, order)) + CRLF + body
  }

  // The order in which a loop over the map may come by its keys.
  ghost predicate IsOrder(order: seq<string>, keys: set<string>) {
    (forall k :: k in order <==> k in keys) && (forall i, j :: 0 <= i < j < |order| ==> order[i] != order[j])
  }

  class Req {
    var verb: string
    var path: string
    var protocol: string
    var headers: Headers
    var body: string

    ghost function Current(): Fields
      reads this
    {
      Fields(verb, path, protocol, headers)
    }

    constructor ()
      ensures Current() == Fields("", "", "", map[]) && body == ""
    {
      verb, path, protocol, headers, body := "", "", "", map[], "";
    }

    method ByteRow() returns (row: string)
      ensures exists order :: IsOrder(order, headers.Keys) && row == Row(Current(), order, body)
    {
      row := verb + " " + path + " " + protocol + "\r\n";
      ghost var order := [];
      var rest := headers.Keys;
      while rest != {}
        invariant rest <= headers.Keys && IsOrder(order, headers.Keys - rest)
        invariant row == FirstLine(Current()) + CRLF + Ended(HeaderLines(headers, order))
        decreases |rest|
      {
        var k :| k in rest;
        EndedAppend(headers, order, k);
        row := row + k + ": " + headers[k] + "\r\n";
        order := order + [k];
        rest := rest - {k};
      }
      row := row + "\r\n";
      row := row + body;
      assert headers.Keys - rest == headers.Keys;
      assert IsOrder(order, headers.Keys) && row == Row(Current(), order, body);
    }

    method ParseHeader(request: string) returns (code: Code)
      modifies this`verb, this`path, this`protocol, this`headers
      ensures (code, Current()) == Parsed(old(Current()), request)
    {
      if request == "" {
        return None;
      }
      var requestLine := Split(request, "\r\n");
      if |requestLine| < 2 {
        return UnknowInvalid;
      }
      var parts := Split(requestLine[0], " ");
      if |parts| != 3 {
        return FirstLineInvalid;
      }
      if parts[0] !in METHODS {
        return MethodInvalid;
      }
      verb := parts[0];
      if parts[1] == "" {
        return PathInvalid;
      }
      path := parts[1];
      if parts[2] !in PROTOCOLS {
        return ProtocolInvalid;
      }
      protocol := parts[2];
      var lines := requestLine[1..];
      if |lines| == 1 {
        return RequestNeedReadMore;
      }
      ghost var start := headers;
      for i := 0 to |lines|
        invariant ParsedLines(lines, start) == ParsedLines(lines[i..], headers)
        invariant verb == parts[0] && path == parts[1] && protocol == parts[2]
      {
        assert lines[i..][1..] == lines[i + 1..];
        if lines[i] == "" && |lines| > i + 1 {
          return RequestOk;
        }
        var colon := Index(lines[i], ":");
        if colon < 0 {
          return InvalidHeaders;
        }
        var key := TrimSpace(lines[i][..colon]);
        if key == "" {
          return Panic;
        }
        headers := headers[Canonical(key) := TrimSpace(lines[i][colon + 1..])];
      }
      return RequestNeedReadMore;
    }

    // On fewer than 4 bytes the slice expression panics.
    method ParseBody(row: string) returns (panicked: bool)
      modifies this`body
      ensures panicked <==> |row| < 4
      ensures body == if panicked then old(body) else BodyOf(row)
    {
      var total := |row|;
      var i := 0;
      while i < total - 4
        invariant 0 <= i && (total >= 4 ==> i <= total - 4)
        invariant forall j: nat :: j < i ==> !At(row, BLANK, j)
        decreases total - 4 - i
      {
        if row[i] == '\r' && row[i + 1] == '\n' && row[i + 2] == '\r' && row[i + 3] == '\n' {
          break;
        }
        assert !At(row, BLANK, i);
        i := i + 1;
      }
      if total < 4 {
        return true;
      }
      body := row[i + 4..];
      panicked := false;
      if At(row, BLANK, i) {
        IndexIs(row, BLANK, i);
      } else {
        assert i == total - 4;
      }
    }

    method RequestBodyValid() returns (verdict: Verdict)
      ensures verdict == BodyVerdict(headers, body)
    {
      var contentType := HeaderOf(headers, "Content-Type");
      if Index(contentType, "multipart/form-data") != -1 {
        var po := Index(contentType, "boundary=");
        var boundaryStr := contentType[po + |"boundary="|..];
        return if Contains(body, boundaryStr + "--") then Complete else Incomplete;
      }
      var contentLength := HeaderOf(headers, "Content-Length");
      if contentLength != "" {
        var n := Atoi(contentLength);
        if n.NoNumber? {
          return BadLength;
        }
        if |body| != n.value {
          return Incomplete;
        }
      }
      return Complete;
    }

    method TryFixBody(other: string) returns (verdict: Verdict)
      modifies this`body
      ensures body == old(body) + other && verdict == BodyVerdict(headers, body)
    {
      body := body + other;
      verdict := RequestBodyValid();
    }
  }

  lemma EndedAppend(headers: Headers, order: seq<string>, k: string)
    requires (forall j :: j in order ==> j in headers) && k in headers
    ensures Ended(HeaderLines(headers, order + [k])) ==
            Ended(HeaderLines(headers, order)) + HeaderLine(k, headers[k]) + CRLF
  {
    assert HeaderLines(headers, order + [k]) == HeaderLines(headers, order) + [HeaderLine(k, headers[k])];
    EndedConcat(HeaderLines(headers, order), [HeaderLine(k, headers[k])]);
    assert Ended([HeaderLine(k, headers[k])]) == HeaderLine(k, headers[k]) + CRLF + "";
  }

  lemma {:induction false} EndedConcat(a: seq<string>, b: seq<string>)
    ensures Ended(a + b) == Ended(a) + Ended(b)
  {
    if a == [] {
      assert a + b == b;
    } else {
      assert (a + b)[0] == a[0] && (a + b)[1..] == a[1..] + b;
      EndedConcat(a[1..], b);
    }
  }
}
