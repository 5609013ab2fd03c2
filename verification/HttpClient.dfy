/**
 The rest of C/http_client.c as it runs: the message filled in place with sprintf and
 strcat inside the allocated array, the loop that sends it, and the loop that receives
 the response into an array of 4096 bytes.
 */
module HttpClient {
  import opened HttpRequest

  const NUL: char := '\0'

  // `s` is the C string at the start of `buf`.
  ghost predicate Holds(buf: array<char>, s: string)
    reads buf
  {
    |s| < buf.Length && buf[..|s|] == s && buf[|s|] == NUL && NUL !in s
  }

  method StrLen(buf: array<char>, ghost s: string) returns (n: nat)
    requires Holds(buf, s)
    ensures n == |s|
  {
    n := 0;
    assert forall i | 0 <= i < |s| :: s[i] in s && buf[..|s|][i] == buf[i];
    while buf[n] != NUL
      invariant n <= |s|
      decreases |s| - n
    {
      n := n + 1;
    }
  }

  // sprintf(buf + at, ...) where `t` is the formatted text.
  method Print(buf: array<char>, at: nat, t: string)
    requires at + |t| < buf.Length && NUL !in t
    modifies buf
    ensures buf[..at] == old(buf[..at]) && buf[at..at + |t|] == t && buf[at + |t|] == NUL
  {
    forall i | 0 <= i < |t| { buf[at + i] := t[i]; }
    buf[at + |t|] := NUL;
  }

  method StrCat(buf: array<char>, ghost s: string, t: string)
    requires Holds(buf, s) && |s| + |t| < buf.Length && NUL !in t
    modifies buf
    ensures Holds(buf, s + t)
  {
    var n := StrLen(buf, s);
    Print(buf, n, t);
    assert buf[..|s + t|] == buf[..n] + buf[n..n + |t|];
  }

  lemma LinesStep(hs: seq<string>, i: nat)
    requires i < |hs|
    ensures Lines(hs[..i + 1]) == Lines(hs[..i]) + (hs[i] + "\r\n")
    ensures |Lines(hs[..i + 1])| <= |Lines(hs)|
  {
    LinesConcat(hs[..i], [hs[i]]);
    LinesConcat(hs[..i + 1], hs[i + 1..]);
    assert hs[..i + 1] == hs[..i] + [hs[i]] && hs == hs[..i + 1] + hs[i + 1..];
    assert [hs[i]][1..] == [] && Lines([hs[i]]) == hs[i] + "\r\n" + Lines([]);
  }

  method CatHeaders(buf: array<char>, ghost s: string, hs: seq<string>)
    requires Holds(buf, s) && |s| + |Lines(hs)| < buf.Length && forall h | h in hs :: NUL !in h
    modifies buf
    ensures Holds(buf, s + Lines(hs))
  {
    assert hs[..0] == [] && s + Lines([]) == s;
    for i := 0 to |hs|
      invariant Holds(buf, s + Lines(hs[..i]))
    {
      CatHeader(buf, s, hs, i);
    }
    assert hs[..|hs|] == hs;
  }

  method CatHeader(buf: array<char>, ghost s: string, hs: seq<string>, i: nat)
    requires i < |hs| && Holds(buf, s + Lines(hs[..i])) && |s| + |Lines(hs)| < buf.Length && NUL !in hs[i]
    modifies buf
    ensures Holds(buf, s + Lines(hs[..i + 1]))
  {
    LinesStep(hs, i);
    hide Lines;
    ghost var before := s + Lines(hs[..i]);
    StrCat(buf, before, hs[i]);
    StrCat(buf, before + hs[i], "\r\n");
    assert before + hs[i] + "\r\n" == s + Lines(hs[..i + 1]);
  }

  // Arguments are C strings.
  predicate CStrings(a: Args) {
    NUL !in a.verb && NUL !in a.path && forall x | x in a.rest :: NUL !in x
  }

  /** The builder, in an array of the computed size: if the message fits at all, what it
      leaves there is exactly the message. */
  method Build(a: Args) returns (message: array<char>)
    requires CStrings(a) && |Text(a)| + 1 <= MessageSize(a)
    ensures fresh(message) && message.Length == MessageSize(a) && Holds(message, Text(a))
  {
    var size := ComputeSize(a);
    message := new char[size];
    if a.verb == "GET" {
      BuildGet(a, message);
    } else {
      BuildOther(a, message);
    }
  }

  // The message, split where the program's calls split it.
  lemma GetText(a: Args, line: string)
    requires a.verb == "GET" && line == RequestLine(a) + "\r\n"
    ensures Text(a) == line + Lines(a.Headers()) + "\r\n"
  {
    assert AllHeaders(a) == a.Headers();
  }

  lemma OtherText(a: Args, line: string)
    requires a.verb != "GET" && line == RequestLine(a) + "\r\n"
    ensures Text(a) == line + Lines(a.Headers()) + (if a.HasData() then ContentLength(|a.Data()|) + "\r\n" else "")
                       + "\r\n" + a.Data()
  {
    var extra := if a.HasData() then [ContentLength(|a.Data()|)] else [];
    LinesConcat(a.Headers(), extra);
    if a.HasData() { assert extra[1..] == [] && Lines(extra) == ContentLength(|a.Data()|) + "\r\n"; }
  }

  lemma PartsHaveNoNul(a: Args)
    requires CStrings(a)
    ensures NUL !in Or(a.verb, "POST") && NUL !in Or(a.path, "/") && NUL !in a.Data() && NUL !in Dec(|a.Data()|)
  {
    DecDigits(|a.Data()|);
    hide Dec;
  }

  lemma LineHasNoNul(a: Args)
    requires CStrings(a)
    ensures NUL !in RequestLine(a)
    ensures NUL !in ContentLength(|a.Data()|)
  {
    PartsHaveNoNul(a);
    hide CStrings, Or, Dec;
  }

  method BuildGet(a: Args, message: array<char>)
    requires CStrings(a) && |Text(a)| < message.Length && a.verb == "GET"
    modifies message
    ensures Holds(message, Text(a))
  {
    var data := a.Data();
    var line := Or(a.verb, "GET") + " " + Or(a.path, "/")
      + (if a.HasData() then (if |data| > 0 then "?" else "") + (if |data| > 0 then data else "") else "")
      + " HTTP/1.0\r\n";
    assert line == RequestLine(a) + "\r\n";
    LineHasNoNul(a);
    GetText(a, line);
    hide RequestLine, Text, Lines, AllHeaders;
    Print(message, 0, line);
    assert message[0..|line|] == message[..|line|];
    CatHeaders(message, line, a.Headers());
    StrCat(message, line + Lines(a.Headers()), "\r\n");
  }

  method BuildOther(a: Args, message: array<char>)
    requires CStrings(a) && |Text(a)| < message.Length && a.verb != "GET"
    modifies message
    ensures Holds(message, Text(a))
  {
    var line := Or(a.verb, "POST") + " " + Or(a.path, "/") + " HTTP/1.0\r\n";
    assert line == RequestLine(a) + "\r\n";
    LineHasNoNul(a);
    OtherText(a, line);
    hide RequestLine, Text, Lines, AllHeaders, ContentLength;
    Print(message, 0, line);
    assert message[0..|line|] == message[..|line|];
    CatHeaders(message, line, a.Headers());
    ghost var s := line + Lines(a.Headers());
    if a.HasData() {
      // sprintf(message + strlen(message), ...) appends as strcat does
      StrCat(message, s, ContentLength(|a.rest[0]|) + "\r\n");
      s := s + (ContentLength(|a.rest[0]|) + "\r\n");
    }
    StrCat(message, s, "\r\n");
    if a.HasData() { StrCat(message, s + "\r\n", a.rest[0]); }
  }

  // ---- Sending ----

  // How a loop of calls was left: when all was done, by an answer of 0, by a negative
  // answer, or not at all when the answers ran out.
  datatype Ending = Done | Stopped | Error | Waiting

  // The bytes that calls answered with these numbers move; the loop leaves at the first
  // answer that is not positive.
  function Moved(answers: seq<int>): nat {
    if answers == [] || answers[0] <= 0 then 0 else answers[0] + Moved(answers[1..])
  }

  // The first answer that is not positive, or 1.
  function Break(answers: seq<int>): int {
    if answers == [] then 1 else if answers[0] <= 0 then answers[0] else Break(answers[1..])
  }

  // How many positive answers come first.
  function Positive(answers: seq<int>): (n: nat)
    ensures n <= |answers| && (forall j | 0 <= j < n :: answers[j] > 0) && (n < |answers| ==> answers[n] <= 0)
  {
    if answers == [] || answers[0] <= 0 then 0 else 1 + Positive(answers[1..])
  }

  function Min(x: int, y: int): int { if x < y then x else y }

  lemma {:induction false} MovedSplit(answers: seq<int>, i: nat)
    requires i <= |answers| && forall j | 0 <= j < i :: answers[j] > 0
    ensures Moved(answers) == Moved(answers[..i]) + Moved(answers[i..])
    ensures Break(answers) == Break(answers[i..])
    ensures i < |answers| && answers[i] > 0 ==> Moved(answers[..i + 1]) == Moved(answers[..i]) + answers[i]
  {
    if i == 0 {
      assert answers[..0] == [] && answers[0..] == answers;
      if answers != [] { assert answers[..1] == [answers[0]] && [answers[0]][1..] == []; }
    } else {
      MovedSplit(answers[1..], i - 1);
      assert answers[..i][1..] == answers[1..][..i - 1] && answers[1..][i - 1..] == answers[i..];
      if i < |answers| { assert answers[..i + 1][1..] == answers[1..][..i]; }
    }
  }

  lemma MovedGrows(answers: seq<int>, i: nat, n: nat)
    requires i <= n <= |answers| && forall j | 0 <= j < i :: answers[j] > 0
    ensures Moved(answers[..i]) <= Moved(answers[..n])
  {
    MovedSplit(answers[..n], i);
    assert answers[..n][..i] == answers[..i];
  }

  /** The send loop against a kernel whose calls of write answer as given, each taking as
      much as it says or all that is offered: what goes out is the message up to where the
      answers lead, it is the whole message exactly if the positive answers before the
      first other one add up to it, and otherwise that answer decides how the loop ends. */
  method Send(message: array<char>, ghost text: string, answers: seq<int>) returns (emitted: string, how: Ending)
    requires Holds(message, text) && text != ""
    ensures emitted == text[..Min(Moved(answers), |text|)]
    ensures how == if Moved(answers) >= |text| then Done
                   else if Break(answers) == 0 then Stopped else if Break(answers) < 0 then Error else Waiting
  {
    var total := StrLen(message, text);
    var sent, i := 0, 0;
    emitted := "";
    while i < |answers|
      invariant 0 <= i <= |answers| && 0 <= sent < total == |text|
      invariant forall j | 0 <= j < i :: answers[j] > 0
      invariant emitted == text[..sent] && sent == Moved(answers[..i])
    {
      MovedSplit(answers, i);
      var bytes := Min(answers[i], total - sent);
      i := i + 1;
      if bytes < 0 {
        return emitted, Error;
      } else if bytes == 0 {
        return emitted, Stopped;
      }
      emitted := emitted + message[sent..sent + bytes];
      assert message[..total][sent..sent + bytes] == message[sent..sent + bytes];
      sent := sent + bytes;
      assert emitted == text[..sent];
      if sent >= total { return emitted, Done; }
    }
    assert answers[..i] == answers && answers[i..] == [];
    MovedSplit(answers, i);
    how := Waiting;
  }

  // ---- Receiving ----

  const RESPONSE_SIZE: nat := 4096

  datatype Receiving = Complete | TooLong | ReadError | MoreToRead

  // A call is made, and does not fail, after the whole stream has been read.
  predicate FindsEnd(answers: seq<int>, stream: string) {
    var n := Positive(answers);
    n > 0 && Moved(answers[..n - 1]) >= |stream|
  }

  // After i positive answers `received` bytes have been read, and the end of the stream
  // has not been found.
  ghost predicate Reading(answers: seq<int>, stream: string, i: nat, received: int) {
    && i <= |answers| && (forall j | 0 <= j < i :: answers[j] > 0)
    && received == Min(Moved(answers[..i]), |stream|)
    && (i > 0 ==> Moved(answers[..i - 1]) < |stream|)
  }

  lemma ReadingBegins(answers: seq<int>, stream: string)
    ensures Reading(answers, stream, 0, 0)
  {
  }

  lemma ReadMore(answers: seq<int>, stream: string, i: nat, received: int, room: nat)
    requires Reading(answers, stream, i, received) && i < |answers| && answers[i] > 0 && received < |stream| && room > 0
    ensures var n := Min(answers[i], Min(room, |stream| - received));
      if n < room then Reading(answers, stream, i + 1, received + n) else Moved(answers) >= received + n
  {
    MovedSplit(answers, i);
    MovedSplit(answers, i + 1);
  }

  lemma PrefixGrows(answers: seq<int>, i: nat)
    requires i < |answers| && forall j | 0 <= j <= i :: answers[j] > 0
    ensures var n := Positive(answers);
      n > 0 && Moved(answers[..i]) <= Moved(answers[..n - 1]) && Moved(answers[..i]) <= Moved(answers)
  {
    var n := Positive(answers);
    assert i < n;
    hide Moved, Positive;
    MovedGrows(answers, i, n - 1);
    MovedGrows(answers, i, |answers|);
    assert answers[..|answers|] == answers;
  }

  lemma EndFound(answers: seq<int>, stream: string, i: nat, received: int)
    requires Reading(answers, stream, i, received) && i < |answers| && answers[i] > 0 && received == |stream|
    ensures FindsEnd(answers, stream) && Moved(answers) >= |stream|
  {
    PrefixGrows(answers, i);
    hide Moved, Positive;
  }

  lemma NoEndFound(answers: seq<int>, stream: string, i: nat, received: int)
    requires Reading(answers, stream, i, received) && (i < |answers| ==> answers[i] < 0)
    ensures !FindsEnd(answers, stream) && received == Min(Moved(answers), |stream|)
    ensures Break(answers) == if i < |answers| then answers[i] else 1
  {
    assert Positive(answers) == i;
    MovedSplit(answers, i);
    if i == |answers| { assert answers[i..] == []; }
  }

  // The bytes a call of read leaves behind those already there.
  method Store(response: array<char>, at: nat, bs: string)
    requires at + |bs| <= response.Length
    modifies response
    ensures response[..at + |bs|] == old(response[..at]) + bs
    ensures forall i | at + |bs| <= i < response.Length :: response[i] == old(response[i])
  {
    forall i | 0 <= i < |bs| { response[at + i] := bs[i]; }
  }

  /** The receive loop against a server that sends `stream` and closes: a call of read
      whose answer is negative fails, and any other stores as many of the next bytes as it
      says, as there is room for and as there are, and so reports the end of the stream
      when none are left.  The response is stored in order; it is rejected as too long
      exactly when 4095 bytes have been stored, even if that is all of it, and it is
      accepted exactly when it is shorter and a read finds its end before one fails. */
  method Receive(response: array<char>, stream: string, answers: seq<int>) returns (received: nat, how: Receiving)
    requires response.Length == RESPONSE_SIZE && forall i | 0 <= i < |answers| :: answers[i] != 0
    modifies response
    ensures received == Min(Moved(answers), Min(|stream|, RESPONSE_SIZE - 1))
    ensures response[..received] == stream[..received]
    ensures forall i | received <= i < RESPONSE_SIZE :: response[i] == NUL
    ensures how == if received == RESPONSE_SIZE - 1 then TooLong else if FindsEnd(answers, stream) then Complete
                   else if Break(answers) < 0 then ReadError else MoreToRead
  {
    forall i | 0 <= i < response.Length { response[i] := NUL; }
    var total := response.Length - 1;
    var i := 0;
    received := 0;
    ReadingBegins(answers, stream);
    hide Reading, Moved, Break, FindsEnd;
    while i < |answers|
      invariant 0 <= i <= |answers| && Reading(answers, stream, i, received)
      invariant 0 <= received < total && received <= |stream| && response[..received] == stream[..received]
      invariant forall i | received <= i < RESPONSE_SIZE :: response[i] == NUL
    {
      var bytes := Min(answers[i], Min(total - received, |stream| - received));
      if bytes < 0 {
        NoEndFound(answers, stream, i, received);
        return received, ReadError;
      } else if bytes == 0 {
        EndFound(answers, stream, i, received);
        return received, Complete;
      }
      ReadMore(answers, stream, i, received, total - received);
      Store(response, received, stream[received..received + bytes]);
      assert stream[..received] + stream[received..received + bytes] == stream[..received + bytes];
      received := received + bytes;
      i := i + 1;
      if received >= total { return received, TooLong; }
    }
    NoEndFound(answers, stream, i, received);
    how := MoreToRead;
  }
}
