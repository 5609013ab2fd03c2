/**
 The request builder of C/http_client.c.  The client first adds up the size of the message
 from the lengths of format strings and arguments, allocates that many bytes, and then
 fills them with sprintf and strcat in a differently structured way.  The specification
 is a reader for requests in the form of RFC 1945: tokens (section 2.2), message headers
 (section 4.2), Full-Request (section 5), Request-Line (section 5.1), the length of an
 Entity-Body (section 7.2.2) and Content-Length (section 10.4).
 */
module HttpRequest {
  datatype Option<T> = None | Some(value: T)

  // argv[3], argv[4] and argv[5..]: the data, if there is any, and then the headers.
  datatype Args = Args(verb: string, path: string, rest: seq<string>) {
    predicate HasData() { rest != [] }

    function Data(): string { if rest == [] then "" else rest[0] }

    function Headers(): seq<string> { if rest == [] then [] else rest[1..] }
  }

  function Or(s: string, default: string): string { if |s| > 0 then s else default }

  // The decimal digits of %ld.
  function Dec(n: nat): (s: string) {
    if n < 10 then [Digit(n)] else Dec(n / 10) + [Digit(n % 10)]
  }

  function Digit(d: nat): char
    requires d < 10
  {
    '0' + d as char
  }

  function Value(s: string): int {
    if s == "" then 0 else 10 * Value(s[..|s| - 1]) + (s[|s| - 1] as int - '0' as int)
  }

  function Lines(hs: seq<string>): string {
    if hs == [] then "" else hs[0] + "\r\n" + Lines(hs[1..])
  }

  function ContentLength(n: nat): string { "Content-Length: " + Dec(n) }

  // The message the program builds.
  function RequestLine(a: Args): string {
    if a.verb == "GET" then
      "GET" + " " + Or(a.path, "/") + (if a.Data() != "" then "?" + a.Data() else "") + " HTTP/1.0"
    else Or(a.verb, "POST") + " " + Or(a.path, "/") + " HTTP/1.0"
  }

  function AllHeaders(a: Args): seq<string> {
    a.Headers() + if a.verb != "GET" && a.HasData() then [ContentLength(|a.Data()|)] else []
  }

  function Body(a: Args): string { if a.verb == "GET" then "" else a.Data() }

  function Text(a: Args): string {
    RequestLine(a) + "\r\n" + Lines(AllHeaders(a)) + "\r\n" + Body(a)
  }

  // ---- The size computation ----

  function HeaderSize(hs: seq<string>): nat {
    if hs == [] then 0 else HeaderSize(hs[..|hs| - 1]) + |hs[|hs| - 1]| + |"\r\n"|
  }

  function MessageSize(a: Args): nat {
    if a.verb == "GET" then
      |"%s %s%s%s HTTP/1.0\r\n"| + |a.verb| + |a.path| + |a.Data()| + HeaderSize(a.Headers()) + |"\r\n"|
    else
      |"%s %s HTTP/1.0\r\n"| + |a.verb| + |a.path| + HeaderSize(a.Headers())
      + (if a.HasData() then |"Content-Length: %d\r\n"| + 10 else 0) + |"\r\n"| + |a.Data()|
  }

  method ComputeSize(a: Args) returns (size: nat)
    ensures size == MessageSize(a)
  {
    size := 0;
    var headers := a.Headers();
    if a.verb == "GET" {
      size := size + |"%s %s%s%s HTTP/1.0\r\n"| + |a.verb| + |a.path|;
      if a.HasData() { size := size + |a.rest[0]|; }
      var base := size;
      for i := 0 to |headers|
        invariant size == base + HeaderSize(headers[..i])
      {
        assert headers[..i + 1][..i] == headers[..i];
        size := size + |headers[i]| + |"\r\n"|;
      }
      assert headers[..|headers|] == headers;
      size := size + |"\r\n"|;
    } else {
      size := size + |"%s %s HTTP/1.0\r\n"| + |a.verb| + |a.path|;
      var base := size;
      for i := 0 to |headers|
        invariant size == base + HeaderSize(headers[..i])
      {
        assert headers[..i + 1][..i] == headers[..i];
        size := size + |headers[i]| + |"\r\n"|;
      }
      assert headers[..|headers|] == headers;
      if a.HasData() { size := size + |"Content-Length: %d\r\n"| + 10; }
      size := size + |"\r\n"|;
      if a.HasData() { size := size + |a.rest[0]|; }
    }
  }

  lemma {:induction false} LinesConcat(a: seq<string>, b: seq<string>)
    ensures Lines(a + b) == Lines(a) + Lines(b)
  {
    if a == [] {
      assert a + b == b;
    } else {
      assert (a + b)[1..] == a[1..] + b;
      LinesConcat(a[1..], b);
    }
  }

  lemma {:induction false} LinesSize(hs: seq<string>)
    ensures |Lines(hs)| == HeaderSize(hs)
  {
    if hs != [] {
      var front, last := hs[..|hs| - 1], hs[|hs| - 1];
      LinesSize(front);
      assert hs == front + [last];
      LinesConcat(front, [last]);
      assert [last][1..] == [];
    }
  }

  /** The sizes: the message and its terminating NUL fit in the computed size exactly when
      the method is GET, or there is no data and the method is not empty, or there is data
      and its length has few enough digits for the space left by the defaults. */
  lemma SizeSuffices(a: Args)
    ensures |Text(a)| + 1 <= MessageSize(a) <==>
      || a.verb == "GET"
      || (!a.HasData() && a.verb != "")
      || (a.HasData()
          && |Dec(|a.Data()|)| + (if a.verb == "" then 4 else 0) + (if a.path == "" then 1 else 0) <= 15)
  {
    LinesSize(a.Headers());
    var extra := if a.verb != "GET" && a.HasData() then [ContentLength(|a.Data()|)] else [];
    LinesConcat(a.Headers(), extra);
    if extra != [] { assert extra[1..] == []; }
    assert |Lines(extra)| == if extra == [] then 0 else 18 + |Dec(|a.Data()|)|;
  }

  function Pow10(k: nat): nat { if k == 0 then 1 else 10 * Pow10(k - 1) }

  lemma {:induction false} DecLength(n: nat, k: nat)
    requires k > 0 && n < Pow10(k)
    ensures |Dec(n)| <= k
  {
    if n >= 10 {
      DecLength(n / 10, k - 1);
    }
  }

  /** For a body shorter than ten billion bytes, whatever the method, and for any number of
      headers, the message with data fits. */
  lemma DataAlwaysFits(a: Args)
    requires a.HasData() && |a.Data()| < 10_000_000_000
    ensures |Text(a)| + 1 <= MessageSize(a)
  {
    assert Pow10(5) == 100_000;
    assert Pow10(10) == 10_000_000_000;
    DecLength(|a.Data()|, 10);
    SizeSuffices(a);
  }

  // ---- Reading a request ----

  datatype Request = Request(verb: string, path: string, query: Option<string>, headers: seq<string>, body: string)

  // The first CRLF, or the length.
  function FindCrlf(s: string): (i: nat)
    ensures i <= |s| && (i == |s| || (i + 2 <= |s| && s[i] == '\r' && s[i + 1] == '\n'))
  {
    if |s| < 2 then |s| else if s[0] == '\r' && s[1] == '\n' then 0 else 1 + FindCrlf(s[1..])
  }

  predicate CrlfAt(s: string, i: int) { 0 <= i && i + 2 <= |s| && s[i] == '\r' && s[i + 1] == '\n' }

  predicate OneLine(s: string) { forall i | 0 <= i < |s| :: !CrlfAt(s, i) }

  // The first occurrence of a character, or the length.
  function Find(s: string, c: char): (i: nat)
    ensures i <= |s| && c !in s[..i] && (i < |s| ==> s[i] == c)
  {
    if s == "" || s[0] == c then 0
    else
      var i := 1 + Find(s[1..], c);
      assert s[..i] == [s[0]] + s[1..][..i - 1];
      i
  }

  // A line and what follows it.
  function Line(s: string): Option<(string, string)> {
    var i := FindCrlf(s);
    if i + 2 <= |s| then Some((s[..i], s[i + 2..])) else None
  }

  // A token: printable US-ASCII without blanks and the separators of section 2.2.
  predicate TokenChar(c: char) { '!' <= c <= '~' && c !in "()<>@,;:\\\"/[]?={}" }

  predicate Token(s: string) { s != "" && forall c | c in s :: TokenChar(c) }

  // Method SP Request-URI SP HTTP-Version; the query follows the first question mark.
  function ParseRequestLine(l: string): Option<(string, string, Option<string>)> {
    var i := Find(l, ' ');
    if i == |l| || !Token(l[..i]) then None
    else
      var l2 := l[i + 1..];
      var j := Find(l2, ' ');
      if j == |l2| || l2[j + 1..] != "HTTP/1.0" then None
      else
        match ParseUri(l2[..j])
        case None => None
        case Some((path, query)) => Some((l[..i], path, query))
  }

  function ParseUri(uri: string): Option<(string, Option<string>)> {
    var q := Find(uri, '?');
    if q == 0 then None else Some((uri[..q], if q == |uri| then None else Some(uri[q + 1..])))
  }

  // field-name ":" field-value, where the name is a token.
  predicate GoodHeader(h: string) {
    var i := Find(h, ':');
    i < |h| && Token(h[..i]) && OneLine(h)
  }

  // Header lines up to the empty line; the rest is the body.
  function ParseHeaders(s: string): Option<(seq<string>, string)>
    decreases |s|
  {
    match Line(s)
    case None => None
    case Some((l, after)) =>
      if l == "" then Some(([], after))
      else if !GoodHeader(l) then None
      else
        match ParseHeaders(after)
        case None => None
        case Some((hs, body)) => Some(([l] + hs, body))
  }

  function Parse(s: string): Option<Request> {
    match Line(s)
    case None => None
    case Some((l, after)) =>
      match ParseRequestLine(l)
      case None => None
      case Some((verb, path, query)) =>
        match ParseHeaders(after)
        case None => None
        case Some((hs, body)) => Some(Request(verb, path, query, hs, body))
  }

  // ---- The round trip ----

  // What the arguments ask for: argv[3] is the method and argv[4] the path, each with its
  // default; argv[5] is the query of a GET and otherwise the body; the rest are headers.
  function Wanted(a: Args): Request {
    var get, n := a.verb == "GET", |a.rest|;
    Request(if a.verb == "" then "POST" else a.verb,
            if a.path == "" then "/" else a.path,
            if get && n > 0 && a.rest[0] != "" then Some(a.rest[0]) else None,
            (if n > 1 then a.rest[1..] else [])
            + (if !get && n > 0 then ["Content-Length: " + Dec(|a.rest[0]|)] else []),
            if !get && n > 0 then a.rest[0] else "")
  }

  lemma WantedParts(a: Args)
    ensures var w := Wanted(a);
      && w.verb == Or(a.verb, "POST") && w.path == Or(a.path, "/") && w.headers == AllHeaders(a) && w.body == Body(a)
      && w.query == if a.verb == "GET" && a.Data() != "" then Some(a.Data()) else None
  {
    if |a.rest| == 1 { assert a.rest[1..] == []; }
  }

  // Arguments that can be told apart in a request: a method that is a token, no blank or
  // line break where a field must not contain one, and headers that are headers.
  predicate WellFormed(a: Args) {
    && (a.verb == "" || Token(a.verb))
    && ' ' !in a.path && '?' !in a.path && OneLine(a.path)
    && (a.verb == "GET" ==> ' ' !in a.Data() && OneLine(a.Data()))
    && (forall h | h in a.Headers() :: GoodHeader(h))
  }

  lemma OneLinePart(s: string, i: nat, j: nat)
    requires OneLine(s) && i <= j <= |s|
    ensures OneLine(s[i..j])
  {
    forall k | 0 <= k < j - i ensures !CrlfAt(s[i..j], k) {
      assert CrlfAt(s[i..j], k) ==> CrlfAt(s, i + k);
    }
  }

  lemma {:induction false} FindCrlfOneLine(s: string)
    ensures OneLine(s[..FindCrlf(s)])
  {
    var i := FindCrlf(s);
    if |s| >= 2 && !(s[0] == '\r' && s[1] == '\n') {
      FindCrlfOneLine(s[1..]);
      assert s[..i] == [s[0]] + s[1..][..i - 1];
      forall k | 0 <= k < i ensures !CrlfAt(s[..i], k) {
        assert k > 0 && CrlfAt(s[..i], k) ==> CrlfAt(s[1..][..i - 1], k - 1);
      }
    }
  }

  lemma {:induction false} FindCrlfAfter(l: string, after: string)
    requires OneLine(l)
    ensures FindCrlf(l + "\r\n" + after) == |l|
  {
    var s := l + "\r\n" + after;
    if l != "" {
      OneLinePart(l, 1, |l|);
      assert l[1..|l|] == l[1..];
      FindCrlfAfter(l[1..], after);
      assert s[1..] == l[1..] + "\r\n" + after;
      assert !CrlfAt(l, 0);
      if |l| > 1 { assert s[0] == l[0] && s[1] == l[1]; } else { assert s[1] == '\r'; }
    }
  }

  lemma LineAfter(l: string, after: string)
    requires OneLine(l)
    ensures Line(l + "\r\n" + after) == Some((l, after))
  {
    FindCrlfAfter(l, after);
    var s := l + "\r\n" + after;
    assert s[..|l|] == l && s[|l| + 2..] == after;
  }

  lemma {:induction false} FindAfter(l: string, c: char, after: string)
    requires c !in l
    ensures Find(l + [c] + after, c) == |l|
  {
    if l != "" {
      FindAfter(l[1..], c, after);
      assert (l + [c] + after)[1..] == l[1..] + [c] + after;
    }
  }

  lemma {:induction false} FindNone(l: string, c: char)
    requires c !in l
    ensures Find(l, c) == |l|
  {
  }

  lemma HeadersEnd(body: string)
    ensures ParseHeaders(Lines([]) + "\r\n" + body) == Some(([], body))
  {
    LineAfter("", body);
    assert Lines([]) + "\r\n" + body == "" + "\r\n" + body;
    hide Line, GoodHeader;
  }

  lemma HeadersStep(l: string, after: string)
    requires GoodHeader(l) && ParseHeaders(after).Some?
    ensures ParseHeaders(l + "\r\n" + after)
            == Some(([l] + ParseHeaders(after).value.0, ParseHeaders(after).value.1))
  {
    LineAfter(l, after);
    assert l != "" && OneLine(l);
    hide GoodHeader, Line, OneLine;
  }

  lemma LinesFirst(hs: seq<string>, body: string)
    requires hs != []
    ensures Lines(hs) + "\r\n" + body == hs[0] + "\r\n" + (Lines(hs[1..]) + "\r\n" + body)
  {
  }

  lemma {:induction false} HeadersRoundTrip(hs: seq<string>, body: string)
    requires forall h | h in hs :: GoodHeader(h)
    ensures ParseHeaders(Lines(hs) + "\r\n" + body) == Some((hs, body))
  {
    hide ParseHeaders, Lines, GoodHeader;
    if hs == [] {
      HeadersEnd(body);
    } else {
      HeadersRoundTrip(hs[1..], body);
      LinesFirst(hs, body);
      HeadersStep(hs[0], Lines(hs[1..]) + "\r\n" + body);
      assert hs == [hs[0]] + hs[1..];
    }
  }

  lemma {:induction false} DecDigits(n: nat)
    ensures Dec(n) != "" && forall c | c in Dec(n) :: '0' <= c <= '9'
    ensures Value(Dec(n)) == n
  {
    if n >= 10 {
      DecDigits(n / 10);
      assert Dec(n)[..|Dec(n)| - 1] == Dec(n / 10);
    } else {
      assert Dec(n)[..0] == "";
    }
  }

  // A character that is no part of a CRLF keeps two lines apart.
  lemma OneLineJoin(x: string, c: char, y: string)
    requires OneLine(x) && OneLine(y) && c != '\r' && c != '\n'
    ensures OneLine(x + [c] + y)
  {
    var s := x + [c] + y;
    forall k | 0 <= k < |s| ensures !CrlfAt(s, k) {
      assert k + 1 < |x| && CrlfAt(s, k) ==> CrlfAt(x, k);
      assert k > |x| && CrlfAt(s, k) ==> CrlfAt(y, k - |x| - 1);
    }
  }

  lemma TokenIsPlain(s: string)
    requires Token(s)
    ensures OneLine(s) && ' ' !in s
  {
    forall i | 0 <= i < |s| ensures !CrlfAt(s, i) { assert s[i] in s; }
  }

  lemma DefaultsArePlain(a: Args)
    requires WellFormed(a)
    ensures Token(Or(a.verb, "POST")) && OneLine(Or(a.path, "/")) && OneLine("HTTP/1.0")
  {
    assert Token("POST");
  }

  lemma LetterIsTokenChar(c: char)
    requires c == '-' || 'A' <= c <= 'Z' || 'a' <= c <= 'z'
    ensures TokenChar(c)
  {
  }

  lemma NameIsToken()
    ensures Token("Content-Length")
  {
    hide TokenChar;
    forall c | c in "Content-Length" ensures TokenChar(c) { LetterIsTokenChar(c); }
  }

  lemma ContentLengthSplits(n: nat)
    ensures var s := ContentLength(n);
      Find(s, ':') == 14 < |s| && s[..14] == "Content-Length" && s[15..] == " " + Dec(n)
  {
    var s := ContentLength(n);
    assert s == "Content-Length" + [':'] + (" " + Dec(n));
    FindAfter("Content-Length", ':', " " + Dec(n));
  }

  lemma DecIsOneLine(n: nat)
    ensures OneLine(" " + Dec(n))
  {
    DecDigits(n);
    var s := " " + Dec(n);
    hide Dec;
    forall k | 0 <= k < |s| ensures !CrlfAt(s, k) {
      if k > 0 { assert s[k] == Dec(n)[k - 1] && Dec(n)[k - 1] in Dec(n); }
    }
  }

  lemma ContentLengthIsGood(n: nat)
    ensures GoodHeader(ContentLength(n))
  {
    var s := ContentLength(n);
    ContentLengthSplits(n);
    NameIsToken();
    TokenIsPlain("Content-Length");
    DecIsOneLine(n);
    OneLineJoin("Content-Length", ':', " " + Dec(n));
    assert s == "Content-Length" + [':'] + (" " + Dec(n));
    hide Token, OneLine, Find, Dec, ContentLength;
  }

  lemma UriRoundTrip(w: Request)
    requires w.path != "" && '?' !in w.path
    ensures ParseUri(Uri(w)) == Some((w.path, w.query))
  {
    var uri := Uri(w);
    if w.query.Some? {
      assert uri == w.path + ['?'] + w.query.value;
      FindAfter(w.path, '?', w.query.value);
      assert uri[..|w.path|] == w.path && uri[|w.path| + 1..] == w.query.value;
    } else {
      assert uri == w.path;
      FindNone(w.path, '?');
      assert uri[..|w.path|] == w.path;
    }
  }

  lemma LineSplits(verb: string, uri: string)
    requires Token(verb) && ' ' !in uri
    ensures ParseRequestLine(verb + " " + uri + " HTTP/1.0")
            == match ParseUri(uri) case None => None case Some((path, query)) => Some((verb, path, query))
  {
    TokenIsPlain(verb);
    hide ParseUri, Token;
    var l2 := uri + " HTTP/1.0";
    var l := verb + " " + uri + " HTTP/1.0";
    assert l == verb + [' '] + l2;
    FindAfter(verb, ' ', l2);
    assert l[..|verb|] == verb && l[|verb| + 1..] == l2;
    assert l2 == uri + [' '] + "HTTP/1.0";
    FindAfter(uri, ' ', "HTTP/1.0");
    assert l2[..|uri|] == uri && l2[|uri| + 1..] == "HTTP/1.0";
    hide Find;
  }

  lemma RequestLineRoundTrip(w: Request)
    requires Token(w.verb) && w.path != "" && ' ' !in w.path && '?' !in w.path
    requires w.query.Some? ==> ' ' !in w.query.value
    ensures ParseRequestLine(w.verb + " " + Uri(w) + " HTTP/1.0") == Some((w.verb, w.path, w.query))
  {
    UriRoundTrip(w);
    LineSplits(w.verb, Uri(w));
    hide ParseRequestLine, ParseUri;
  }

  function Uri(w: Request): string { w.path + if w.query.Some? then "?" + w.query.value else "" }

  lemma RequestLineForm(a: Args)
    ensures RequestLine(a) == Wanted(a).verb + " " + Uri(Wanted(a)) + " HTTP/1.0"
  {
    WantedParts(a);
    hide Wanted;
  }

  lemma RequestLineIsOneLine(a: Args)
    requires WellFormed(a)
    ensures OneLine(RequestLine(a))
  {
    var w := Wanted(a);
    RequestLineForm(a);
    WantedParts(a);
    DefaultsArePlain(a);
    TokenIsPlain(w.verb);
    hide Wanted, Token, OneLine, RequestLine;
    if w.query.Some? {
      OneLineJoin(w.path, '?', w.query.value);
      assert Uri(w) == w.path + ['?'] + w.query.value;
    } else {
      assert Uri(w) == w.path;
    }
    OneLineJoin(Uri(w), ' ', "HTTP/1.0");
    OneLineJoin(w.verb, ' ', Uri(w) + [' '] + "HTTP/1.0");
    assert RequestLine(a) == w.verb + [' '] + (Uri(w) + [' '] + "HTTP/1.0");
  }

  // The three parts of a text that parses.
  lemma ParseParts(s: string, l: string, after: string, verb: string, path: string, query: Option<string>,
                   hs: seq<string>, body: string)
    requires Line(s) == Some((l, after)) && ParseRequestLine(l) == Some((verb, path, query))
    requires ParseHeaders(after) == Some((hs, body))
    ensures Parse(s) == Some(Request(verb, path, query, hs, body))
  {
  }

  lemma TextLine(a: Args)
    requires WellFormed(a)
    ensures var w := Wanted(a);
      && Line(Text(a)) == Some((RequestLine(a), Lines(AllHeaders(a)) + "\r\n" + Body(a)))
      && ParseRequestLine(RequestLine(a)) == Some((w.verb, w.path, w.query))
  {
    var after := Lines(AllHeaders(a)) + "\r\n" + Body(a);
    RequestLineIsOneLine(a);
    LineAfter(RequestLine(a), after);
    assert Text(a) == RequestLine(a) + "\r\n" + after;
    RequestLineForm(a);
    WantedParts(a);
    DefaultsArePlain(a);
    hide Wanted, Text, Token, OneLine, GoodHeader, RequestLine, ParseRequestLine, Line, Uri, Lines, AllHeaders, Body;
    RequestLineRoundTrip(Wanted(a));
  }

  lemma TextHeaders(a: Args)
    requires WellFormed(a)
    ensures ParseHeaders(Lines(AllHeaders(a)) + "\r\n" + Body(a)) == Some((AllHeaders(a), Body(a)))
  {
    if a.verb != "GET" && a.HasData() { ContentLengthIsGood(|a.Data()|); }
    hide GoodHeader, ParseHeaders, Lines;
    HeadersRoundTrip(AllHeaders(a), Body(a));
  }

  lemma WellFormedParses(a: Args)
    requires WellFormed(a)
    ensures Parse(Text(a)) == Some(Wanted(a))
  {
    var w := Wanted(a);
    var after := Lines(AllHeaders(a)) + "\r\n" + Body(a);
    TextLine(a);
    TextHeaders(a);
    WantedParts(a);
    hide *;
    ParseParts(Text(a), RequestLine(a), after, w.verb, w.path, w.query, w.headers, w.body);
  }

  lemma {:induction false} ParsedHeadersAreGood(s: string)
    ensures ParseHeaders(s).Some? ==> forall h | h in ParseHeaders(s).value.0 :: GoodHeader(h)
    decreases |s|
  {
    FindCrlfOneLine(s);
    if Line(s).Some? && Line(s).value.0 != "" {
      ParsedHeadersAreGood(Line(s).value.1);
    }
  }

  lemma ParsedUriIsGood(uri: string)
    requires OneLine(uri) && ' ' !in uri && ParseUri(uri).Some?
    ensures var (path, query) := ParseUri(uri).value;
      && ' ' !in path && '?' !in path && OneLine(path)
      && (query.Some? ==> ' ' !in query.value && OneLine(query.value))
  {
    var q := Find(uri, '?');
    OneLinePart(uri, 0, q);
    assert uri[0..q] == uri[..q];
    assert forall c | c in uri[..q] :: c in uri;
    if q < |uri| {
      OneLinePart(uri, q + 1, |uri|);
      assert uri[q + 1..|uri|] == uri[q + 1..];
      assert forall c | c in uri[q + 1..] :: c in uri;
    }
  }

  lemma ParsedLineIsGood(l: string)
    requires OneLine(l) && ParseRequestLine(l).Some?
    ensures var (verb, path, query) := ParseRequestLine(l).value;
      && Token(verb)
      && ' ' !in path && '?' !in path && OneLine(path)
      && (query.Some? ==> ' ' !in query.value && OneLine(query.value))
  {
    var i := Find(l, ' ');
    var l2 := l[i + 1..];
    var j := Find(l2, ' ');
    OneLinePart(l, 0, i);
    OneLinePart(l, i + 1, i + 1 + j);
    assert l[0..i] == l[..i] && l[i + 1..i + 1 + j] == l2[..j];
    hide OneLine;
    ParsedUriIsGood(l2[..j]);
  }

  // What the reader returns could have been written by a well-formed request.
  lemma ParsedIsGood(s: string)
    requires Parse(s).Some?
    ensures var p := Parse(s).value;
      && Token(p.verb)
      && ' ' !in p.path && '?' !in p.path && OneLine(p.path)
      && (p.query.Some? ==> ' ' !in p.query.value && OneLine(p.query.value))
      && (forall h | h in p.headers :: GoodHeader(h))
  {
    var (l, after) := Line(s).value;
    assert OneLine(l) by { FindCrlfOneLine(s); }
    hide OneLine, Line, ParseHeaders, ParseRequestLine;
    ParsedLineIsGood(l);
    ParsedHeadersAreGood(after);
  }

  lemma ParsesOnlyWellFormed(a: Args)
    requires Parse(Text(a)) == Some(Wanted(a))
    ensures WellFormed(a)
  {
    ParsedIsGood(Text(a));
    WantedParts(a);
    assert OneLine("");
    hide Wanted, OneLine, Parse, Text;
    assert forall h | h in a.Headers() :: h in AllHeaders(a);
  }

  /** Round trip: the text the program builds reads back as the request its arguments ask
      for, with the default method and path filled in and the Content-Length of the body,
      if and only if the arguments are well formed. */
  lemma RequestReadsBack(a: Args)
    ensures Parse(Text(a)) == Some(Wanted(a)) <==> WellFormed(a)
  {
    if WellFormed(a) { WellFormedParses(a); }
    if Parse(Text(a)) == Some(Wanted(a)) { ParsesOnlyWellFormed(a); }
  }

  // ---- The length of the body ----

  function Lower(s: string): string {
    seq(|s|, i requires 0 <= i < |s| => if 'A' <= s[i] <= 'Z' then (s[i] as int + 32) as char else s[i])
  }

  function SkipBlanks(s: string): string {
    if s != "" && (s[0] == ' ' || s[0] == '\t') then SkipBlanks(s[1..]) else s
  }

  // Field names are compared without regard to case; blanks before the value are no part
  // of it.
  predicate Named(h: string, name: string) { Lower(h[..Find(h, ':')]) == Lower(name) }

  function FieldValue(h: string): string {
    var i := Find(h, ':');
    if i < |h| then SkipBlanks(h[i + 1..]) else ""
  }

  // The values of all fields of a name, in order.
  function Lookup(hs: seq<string>, name: string): seq<string> {
    if hs == [] then []
    else
      var last := hs[|hs| - 1];
      Lookup(hs[..|hs| - 1], name) + if Named(last, name) then [FieldValue(last)] else []
  }

  predicate Number(s: string) { s != "" && forall c | c in s :: '0' <= c <= '9' }

  predicate AllSay(values: seq<string>, n: nat) { forall v | v in values :: Number(v) && Value(v) == n }

  // A reader that goes by Content-Length finds the same body: a body is announced, and
  // what is announced is its length.
  predicate Framed(p: Request) {
    var lengths := Lookup(p.headers, "Content-Length");
    (p.body != "" ==> lengths != []) && AllSay(lengths, |p.body|)
  }

  lemma GeneratedField(n: nat)
    ensures Named(ContentLength(n), "Content-Length") && FieldValue(ContentLength(n)) == Dec(n)
    ensures Number(Dec(n)) && Value(Dec(n)) == n
  {
    DecDigits(n);
    ContentLengthSplits(n);
    assert Dec(n)[0] in Dec(n);
    assert (" " + Dec(n))[1..] == Dec(n);
    assert SkipBlanks(" " + Dec(n)) == SkipBlanks(Dec(n)) == Dec(n);
    hide Dec, Find, ContentLength, SkipBlanks, Lower;
  }

  /** The Content-Length fields of the request are those among the headers given as
      arguments and then, exactly when a method other than GET carries data, one that the
      program adds with the length of the body. */
  lemma ContentLengthIsBodyLength(a: Args)
    requires WellFormed(a)
    ensures var p := Parse(Text(a)); var own := Lookup(a.Headers(), "Content-Length");
      && p.Some? && p.value.body == Body(a)
      && p.value.headers
         == a.Headers() + (if a.verb != "GET" && a.HasData() then [ContentLength(|p.value.body|)] else [])
      && Lookup(p.value.headers, "Content-Length")
         == own + (if a.verb != "GET" && a.HasData() then [Dec(|p.value.body|)] else [])
    ensures Number(Dec(|Body(a)|)) && Value(Dec(|Body(a)|)) == |Body(a)|
  {
    WellFormedParses(a);
    WantedParts(a);
    GeneratedField(|Body(a)|);
    hide Wanted, WellFormed, Parse, Text, Named, FieldValue, Number, Value, Dec, ContentLength;
    assert AllHeaders(a) == a.Headers()
                            + if a.verb != "GET" && a.HasData() then [ContentLength(|Body(a)|)] else [];
    if a.verb != "GET" && a.HasData() {
      assert AllHeaders(a)[..|AllHeaders(a)| - 1] == a.Headers();
    } else {
      assert AllHeaders(a) == a.Headers();
    }
  }

  lemma AllSayOneMore(values: seq<string>, v: string, n: nat)
    requires Number(v) && Value(v) == n
    ensures AllSay(values + [v], n) <==> AllSay(values, n)
  {
    hide Number, Value;
    assert forall x :: x in values + [v] <==> x in values || x == v;
  }

  /** So the body can be found by its length if and only if every Content-Length the caller
      passes as a header of its own is the length of the body. */
  lemma FramedExactly(a: Args)
    requires WellFormed(a)
    ensures Parse(Text(a)).Some?
    ensures Framed(Parse(Text(a)).value) <==> AllSay(Lookup(a.Headers(), "Content-Length"), |Body(a)|)
  {
    ContentLengthIsBodyLength(a);
    hide WellFormed, Parse, Text, Number, Value, Dec, Lookup, AllSay, ContentLength;
    var own := Lookup(a.Headers(), "Content-Length");
    if a.verb != "GET" && a.HasData() {
      AllSayOneMore(own, Dec(|Body(a)|), |Body(a)|);
    } else {
      assert own + [] == own;
    }
  }
}
