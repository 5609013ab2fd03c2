/**
 The select server of Python/select_server.py: the lists `inputs` and `outputs`, and a
 queue of messages for every connection, echoed in upper case.  A round is one return of
 `select`; its three loops run over the lists select returned, while the server's own
 lists and queues change under them.  A round that raises leaves `crashed` set.
 */
module QueueServer {
  type Sock = int
  type Msg = seq<char>

  function UpperChar(c: char): char {
    if 'a' <= c <= 'z' then (c as int - 32) as char else c
  }

  function Upper(m: Msg): Msg { seq(|m|, i requires 0 <= i < |m| => UpperChar(m[i])) }

  function Uppers(ms: seq<Msg>): seq<Msg> { seq(|ms|, i requires 0 <= i < |ms| => Upper(ms[i])) }

  function LowerChar(c: char): char {
    if 'A' <= c <= 'Z' then (c as int + 32) as char else c
  }

  /** Upper-casing: no letter a to z is left, every letter is the same letter, and every
      other character is the same character. */
  lemma UpperIsUpper(m: Msg)
    ensures |Upper(m)| == |m|
    ensures forall i | 0 <= i < |m| :: !('a' <= Upper(m)[i] <= 'z') && LowerChar(Upper(m)[i]) == LowerChar(m[i])
  {
  }

  lemma UppersConcat(a: seq<Msg>, b: seq<Msg>)
    ensures Uppers(a + b) == Uppers(a) + Uppers(b)
  {
  }

  // list.remove: the first occurrence.
  function Remove(xs: seq<Sock>, x: Sock): seq<Sock> {
    if xs == [] then [] else if xs[0] == x then xs[1..] else [xs[0]] + Remove(xs[1..], x)
  }

  predicate NoDup(xs: seq<Sock>) { forall i, j | 0 <= i < j < |xs| :: xs[i] != xs[j] }

  lemma {:induction false} RemoveExact(xs: seq<Sock>, x: Sock)
    requires NoDup(xs)
    ensures NoDup(Remove(xs, x))
    ensures forall y :: y in Remove(xs, x) <==> y in xs && y != x
  {
    if xs != [] {
      RemoveExact(xs[1..], x);
      assert xs == [xs[0]] + xs[1..];
      var r := Remove(xs[1..], x);
      assert forall i | 0 <= i < |r| :: r[i] in r && r[i] in xs[1..];
      assert xs[0] !in xs[1..];
    }
  }

  // `got` and `sent` are the messages received from and sent to every connection there
  // has been.
  datatype State = State(master: Sock, inputs: seq<Sock>, outputs: seq<Sock>, queues: map<Sock, seq<Msg>>,
                         got: map<Sock, seq<Msg>>, sent: map<Sock, seq<Msg>>, crashed: bool)

  // What select, accept and recv answer in a round.  An empty `data` is end of file.
  datatype Input = Input(readable: seq<Sock>, writable: seq<Sock>, exceptional: seq<Sock>,
                         conn: Sock, data: map<Sock, Msg>)
  {
    function DataOf(s: Sock): Msg { if s in data then data[s] else [] }
  }

  function Start(master: Sock): State { State(master, [master], [], map[], map[], map[], false) }

  function Close(st: State, s: Sock): State {
    st.(outputs := if s in st.outputs then Remove(st.outputs, s) else st.outputs,
        inputs := Remove(st.inputs, s), queues := st.queues - {s})
  }

  function ReadOne(st: State, s: Sock, k: Input): State {
    if st.crashed then st
    else if s == st.master then
      st.(inputs := st.inputs + [k.conn], queues := st.queues[k.conn := []],
          got := st.got[k.conn := []], sent := st.sent[k.conn := []])
    else if k.DataOf(s) != [] then
      if s !in st.queues || s !in st.got then st.(crashed := true)
      else
        st.(queues := st.queues[s := st.queues[s] + [k.DataOf(s)]], got := st.got[s := st.got[s] + [k.DataOf(s)]],
            outputs := if s in st.outputs then st.outputs else st.outputs + [s])
    else if s !in st.inputs || s !in st.queues then st.(crashed := true)
    else Close(st, s)
  }

  // msg_queue[s] raises if the queue is gone; an empty queue takes s out of the outputs.
  function WriteOne(st: State, s: Sock): State {
    if st.crashed then st
    else if s !in st.queues || s !in st.sent then st.(crashed := true)
    else if st.queues[s] == [] then
      if s in st.outputs then st.(outputs := Remove(st.outputs, s)) else st.(crashed := true)
    else
      st.(queues := st.queues[s := st.queues[s][1..]], sent := st.sent[s := st.sent[s] + [Upper(st.queues[s][0])]])
  }

  // getpeername raises on the listening socket and on one that has been closed.
  function ExceptOne(st: State, s: Sock): State {
    if st.crashed then st
    else if s == st.master || s !in st.inputs || s !in st.queues then st.(crashed := true)
    else Close(st, s)
  }

  function ReadAll(st: State, ss: seq<Sock>, k: Input): State {
    if ss == [] then st else ReadOne(ReadAll(st, ss[..|ss| - 1], k), ss[|ss| - 1], k)
  }

  function WriteAll(st: State, ss: seq<Sock>): State {
    if ss == [] then st else WriteOne(WriteAll(st, ss[..|ss| - 1]), ss[|ss| - 1])
  }

  function ExceptAll(st: State, ss: seq<Sock>): State {
    if ss == [] then st else ExceptOne(ExceptAll(st, ss[..|ss| - 1]), ss[|ss| - 1])
  }

  function Round(st: State, k: Input): State {
    ExceptAll(WriteAll(ReadAll(st, k.readable, k), k.writable), k.exceptional)
  }

  // select returns parts of the lists it was given; accept returns a socket never seen.
  ghost predicate InputOk(st: State, k: Input) {
    && !st.crashed
    && NoDup(k.readable) && NoDup(k.writable) && NoDup(k.exceptional)
    && (forall s | s in k.readable :: s in st.inputs)
    && (forall s | s in k.writable :: s in st.outputs)
    && (forall s | s in k.exceptional :: s in st.inputs)
    && (st.master in k.readable ==> k.conn != st.master && k.conn !in st.got)
  }

  // ---- Coherence ----

  ghost predicate Lists(st: State) {
    && NoDup(st.inputs) && NoDup(st.outputs)
    && st.master in st.inputs && st.master !in st.got
    && (forall s :: s in st.queues <==> s in st.inputs && s != st.master)
    && (forall s | s in st.outputs :: s in st.queues)
    && (forall s | s in st.queues && st.queues[s] != [] :: s in st.outputs)
  }

  ghost predicate Fifo(st: State) {
    && st.got.Keys == st.sent.Keys
    && (forall s | s in st.queues :: s in st.got && st.sent[s] + Uppers(st.queues[s]) == Uppers(st.got[s]))
    && (forall s | s in st.got :: st.sent[s] <= Uppers(st.got[s]))
  }

  ghost predicate Inv(st: State) { st.crashed || (Lists(st) && Fifo(st)) }

  lemma CloseKeepsInv(st: State, s: Sock)
    requires Lists(st) && Fifo(st) && s in st.queues
    ensures Lists(Close(st, s)) && Fifo(Close(st, s))
  {
    RemoveExact(st.inputs, s);
    RemoveExact(st.outputs, s);
  }

  lemma AcceptKeepsInv(st: State, k: Input)
    requires Lists(st) && Fifo(st) && !st.crashed && k.conn !in st.got && k.conn != st.master
    ensures var t := ReadOne(st, st.master, k); !t.crashed && Lists(t) && Fifo(t)
  {
    assert st.sent.Keys + {k.conn} == st.got.Keys + {k.conn};
  }

  lemma DataKeepsInv(st: State, s: Sock, k: Input)
    requires Lists(st) && Fifo(st) && !st.crashed && s in st.queues && k.DataOf(s) != []
    ensures var t := ReadOne(st, s, k); !t.crashed && Lists(t) && Fifo(t)
  {
    var m := k.DataOf(s);
    UppersConcat(st.queues[s], [m]);
    UppersConcat(st.got[s], [m]);
  }

  lemma ReadKeepsInv(st: State, s: Sock, k: Input)
    requires Lists(st) && Fifo(st) && !st.crashed && s in st.inputs
    requires s == st.master ==> k.conn !in st.got && k.conn != st.master
    ensures !ReadOne(st, s, k).crashed && Lists(ReadOne(st, s, k)) && Fifo(ReadOne(st, s, k))
  {
    if s == st.master {
      AcceptKeepsInv(st, k);
    } else if k.DataOf(s) != [] {
      DataKeepsInv(st, s, k);
    } else {
      CloseKeepsInv(st, s);
    }
    hide Fifo, Close;
  }

  lemma WriteKeepsInv(st: State, s: Sock)
    requires Lists(st) && Fifo(st) && !st.crashed && s in st.outputs
    ensures !WriteOne(st, s).crashed && Lists(WriteOne(st, s)) && Fifo(WriteOne(st, s))
  {
    if st.queues[s] == [] {
      RemoveExact(st.outputs, s);
    } else {
      var q := st.queues[s];
      assert q == [q[0]] + q[1..];
      UppersConcat([q[0]], q[1..]);
      assert Uppers([q[0]]) == [Upper(q[0])];
      assert st.sent[s] + ([Upper(q[0])] + Uppers(q[1..])) == (st.sent[s] + [Upper(q[0])]) + Uppers(q[1..]);
    }
  }

  // ---- The three loops ----

  // The connections the readable loop closes.
  predicate ClosedIn(st: State, ss: seq<Sock>, k: Input, s: Sock) {
    s in ss && s != st.master && k.DataOf(s) == []
  }

  lemma ReadStep(st: State, s: Sock, k: Input, x: Sock)
    requires Lists(st) && Fifo(st) && !st.crashed && s in st.inputs
    requires s == st.master ==> k.conn !in st.got && k.conn != st.master
    ensures var t := ReadOne(st, s, k);
      && t.master == st.master
      && (x in t.queues <==>
            (x in st.queues && !(x == s && s != st.master && k.DataOf(s) == [])) || (s == st.master && x == k.conn))
      && (x in st.outputs && !(x == s && k.DataOf(s) == []) ==> x in t.outputs)
      && (x in t.got ==> x in st.got || (s == st.master && x == k.conn))
  {
    RemoveExact(st.outputs, s);
    if s in st.queues { CloseKeepsInv(st, s); }
  }

  lemma {:induction false} ReadPhase(st: State, k: Input, ss: seq<Sock>)
    requires Lists(st) && Fifo(st) && !st.crashed
    requires NoDup(ss) && (forall s | s in ss :: s in st.inputs)
    requires st.master in ss ==> k.conn != st.master && k.conn !in st.got
    ensures var t := ReadAll(st, ss, k);
      && !t.crashed && Lists(t) && Fifo(t) && t.master == st.master
      && (forall x :: x in t.queues <==>
            (x in st.queues && !ClosedIn(st, ss, k, x)) || (st.master in ss && x == k.conn))
      && (forall x :: x in st.outputs && !ClosedIn(st, ss, k, x) ==> x in t.outputs)
      && (forall x :: x in t.got ==> x in st.got || (st.master in ss && x == k.conn))
  {
    if ss != [] {
      var front, s := ss[..|ss| - 1], ss[|ss| - 1];
      assert ss == front + [s];
      ReadPhase(st, k, front);
      var u := ReadAll(st, front, k);
      assert s !in front;
      assert s in u.inputs by {
        if s != st.master { assert s in st.queues && !ClosedIn(st, front, k, s); }
      }
      ReadKeepsInv(u, s, k);
      forall x
        ensures x in ReadOne(u, s, k).queues <==>
                (x in st.queues && !ClosedIn(st, ss, k, x)) || (st.master in ss && x == k.conn)
        ensures x in st.outputs && !ClosedIn(st, ss, k, x) ==> x in ReadOne(u, s, k).outputs
        ensures x in ReadOne(u, s, k).got ==> x in st.got || (st.master in ss && x == k.conn)
      {
        ReadStep(u, s, k, x);
      }
    }
  }

  // One turn of the writable loop and of the exceptional loop.
  lemma WriteStep(t: State, s: Sock)
    requires Lists(t) && Fifo(t) && !t.crashed && (s in t.queues ==> s in t.outputs)
    ensures var v := WriteOne(t, s);
      && (v.crashed <==> s !in t.queues)
      && (!v.crashed ==>
            && Lists(v) && Fifo(v) && v.master == t.master && v.inputs == t.inputs && v.queues.Keys == t.queues.Keys
            && forall x | x in t.outputs && x != s :: x in v.outputs)
  {
    if s in t.queues {
      WriteKeepsInv(t, s);
      RemoveExact(t.outputs, s);
      hide Lists, Fifo, Remove;
    }
  }

  lemma ExceptStep(t: State, s: Sock)
    requires Lists(t) && Fifo(t) && !t.crashed
    ensures var v := ExceptOne(t, s);
      && (v.crashed <==> s !in t.queues)
      && (!v.crashed ==>
            Lists(v) && Fifo(v) && v.master == t.master && forall x :: x in v.queues <==> x in t.queues && x != s)
  {
    if s in t.queues { CloseKeepsInv(t, s); }
  }

  // Nothing runs after an exception.
  lemma WriteStays(t: State, s: Sock)
    ensures t.crashed ==> WriteOne(t, s) == t && ExceptOne(t, s) == t
  {
  }

  lemma {:induction false} CrashedStays(v: State, ss: seq<Sock>)
    requires v.crashed
    ensures ExceptAll(v, ss) == v && WriteAll(v, ss) == v
  {
    if ss != [] { CrashedStays(v, ss[..|ss| - 1]); }
  }

  lemma {:induction false} WritePhase(u: State, ss: seq<Sock>)
    requires Lists(u) && Fifo(u) && !u.crashed && NoDup(ss)
    requires forall s | s in ss && s in u.queues :: s in u.outputs
    ensures var t := WriteAll(u, ss);
      && (t.crashed <==> exists s :: s in ss && s !in u.queues)
      && (!t.crashed ==>
            && Lists(t) && Fifo(t) && t.master == u.master && t.inputs == u.inputs && t.queues.Keys == u.queues.Keys
            && (forall s | s in u.outputs && s !in ss :: s in t.outputs))
  {
    if ss != [] {
      var front, s := ss[..|ss| - 1], ss[|ss| - 1];
      assert ss == front + [s];
      assert s !in front;
      WritePhase(u, front);
      var t := WriteAll(u, front);
      hide Lists, Fifo, NoDup, WriteOne;
      if t.crashed {
        WriteStays(t, s);
      } else {
        WriteStep(t, s);
      }
    }
  }

  lemma {:induction false} ExceptPhase(u: State, ss: seq<Sock>)
    requires Lists(u) && Fifo(u) && !u.crashed && NoDup(ss)
    ensures var t := ExceptAll(u, ss);
      && (t.crashed <==> exists s :: s in ss && s !in u.queues)
      && (!t.crashed ==>
            && Lists(t) && Fifo(t) && t.master == u.master
            && (forall s :: s in t.queues <==> s in u.queues && s !in ss))
  {
    if ss != [] {
      var front, s := ss[..|ss| - 1], ss[|ss| - 1];
      assert ss == front + [s];
      assert s !in front;
      ExceptPhase(u, front);
      var t := ExceptAll(u, front);
      hide Lists, Fifo, NoDup, ExceptOne;
      if t.crashed {
        WriteStays(t, s);
      } else {
        ExceptStep(t, s);
      }
    }
  }

  // No socket is closed in one loop and listed in a later one, and the listening socket
  // is not exceptional.
  ghost predicate Orderly(st: State, k: Input) {
    && (forall s | s in k.writable :: !ClosedIn(st, k.readable, k, s))
    && (forall s | s in k.exceptional :: s != st.master && !ClosedIn(st, k.readable, k, s))
  }

  // What the readable loop leaves for the other two.
  lemma AfterReading(st: State, k: Input) returns (u: State)
    requires Lists(st) && Fifo(st) && InputOk(st, k)
    ensures u == ReadAll(st, k.readable, k) && !u.crashed && Lists(u) && Fifo(u) && u.master == st.master
    ensures forall s | s in k.writable ::
              (s in u.queues <==> !ClosedIn(st, k.readable, k, s)) && (s in u.queues ==> s in u.outputs)
    ensures forall s | s in k.exceptional ::
              s in u.queues <==> s != st.master && !ClosedIn(st, k.readable, k, s)
  {
    ReadPhase(st, k, k.readable);
    u := ReadAll(st, k.readable, k);
    assert forall s | s in k.writable :: s in st.queues && s in st.got;
    assert forall s | s in k.exceptional :: (s in st.queues && s in st.got) || s == st.master;
    hide Fifo, ReadAll, ClosedIn, NoDup;
  }

  /** Which rounds raise: exactly those in which select lists a connection as writable or
      exceptional that the readable loop closes, or the listening socket as exceptional.
      Every other round keeps the lists, the queues and the order of messages coherent. */
  lemma {:induction false} RoundRaisesExactly(st: State, k: Input)
    requires Lists(st) && Fifo(st) && InputOk(st, k)
    ensures Round(st, k).crashed <==> !Orderly(st, k)
    ensures !Round(st, k).crashed ==> Lists(Round(st, k)) && Fifo(Round(st, k)) && Round(st, k).master == st.master
  {
    var u := AfterReading(st, k);
    WritePhase(u, k.writable);
    var v := WriteAll(u, k.writable);
    hide Lists, Fifo, NoDup, ReadAll, WriteAll, ExceptAll, ClosedIn;
    if v.crashed {
      CrashedStays(v, k.exceptional);
    } else {
      ExceptPhase(v, k.exceptional);
    }
  }

  lemma {:induction false} RaisedInside(st: State, k: Input, ss: seq<Sock>, n: nat)
    requires n <= |ss|
    ensures ReadAll(st, ss[..n], k).crashed ==> ReadAll(st, ss, k) == ReadAll(st, ss[..n], k)
    ensures WriteAll(st, ss[..n]).crashed ==> WriteAll(st, ss) == WriteAll(st, ss[..n])
    ensures ExceptAll(st, ss[..n]).crashed ==> ExceptAll(st, ss) == ExceptAll(st, ss[..n])
  {
    if n < |ss| {
      var front := ss[..|ss| - 1];
      assert front[..n] == ss[..n];
      RaisedInside(st, k, front, n);
    } else {
      assert ss[..n] == ss;
    }
  }

  // ---- What a round does to one connection ----

  // The message a round brings on x, and the message it sends to x from the queue q.
  function Brought(k: Input, x: Sock): seq<Msg> {
    if x in k.readable && k.DataOf(x) != [] then [k.DataOf(x)] else []
  }

  function Taken(ss: seq<Sock>, x: Sock, q: seq<Msg>): seq<Msg> { if x in ss && q != [] then [q[0]] else [] }

  lemma ReadOneDoes(st: State, s: Sock, k: Input, x: Sock)
    requires Lists(st) && Fifo(st) && !st.crashed && s in st.inputs && x in st.queues
    requires s == st.master ==> k.conn !in st.got && k.conn != st.master
    ensures var t := ReadOne(st, s, k);
      && x in t.got && x in t.sent && t.sent[x] == st.sent[x]
      && (if x != s then
            && x in t.queues && t.queues[x] == st.queues[x] && t.got[x] == st.got[x]
            && (x in t.outputs <==> x in st.outputs)
          else if k.DataOf(x) == [] then x !in t.queues && t.got[x] == st.got[x]
          else
            && x in t.queues && t.queues[x] == st.queues[x] + [k.DataOf(x)]
            && t.got[x] == st.got[x] + [k.DataOf(x)] && x in t.outputs)
  {
    RemoveExact(st.outputs, s);
    RemoveExact(st.inputs, s);
  }

  lemma ReadOneOpens(st: State, k: Input)
    requires !st.crashed
    ensures var t := ReadOne(st, st.master, k); k.conn in t.queues && t.queues[k.conn] == []
  {
  }

  // What has been received from and sent to a closed connection is history.
  lemma ReadOneForgets(st: State, s: Sock, k: Input, x: Sock)
    requires Lists(st) && Fifo(st) && !st.crashed && s in st.inputs && x in st.got && x !in st.queues
    requires s == st.master ==> k.conn !in st.got
    ensures var t := ReadOne(st, s, k);
      x in t.got && x in t.sent && t.got[x] == st.got[x] && t.sent[x] == st.sent[x]
  {
  }

  // The part of a round's effect on x that the readable loop over ss has had.
  ghost predicate ReadSoFar(st: State, k: Input, ss: seq<Sock>, x: Sock, t: State) {
    var more := if x in ss && k.DataOf(x) != [] then [k.DataOf(x)] else [];
    && x in st.got && x in st.sent && x in st.queues
    && x in t.got && t.got[x] == st.got[x] + more && x in t.sent && t.sent[x] == st.sent[x]
    && (!ClosedIn(st, ss, k, x) ==>
          x in t.queues && t.queues[x] == st.queues[x] + more && (x in t.outputs <==> x in st.outputs || more != []))
  }

  // The readable loop comes to s with the server coherent and s still watched.
  lemma ReadComesTo(st: State, k: Input, front: seq<Sock>, s: Sock)
    requires Lists(st) && Fifo(st) && !st.crashed && NoDup(front) && s !in front
    requires s in st.inputs && (forall x | x in front :: x in st.inputs)
    requires st.master in front + [s] ==> k.conn != st.master && k.conn !in st.got
    ensures var u := ReadAll(st, front, k);
      && Lists(u) && Fifo(u) && !u.crashed && s in u.inputs && u.master == st.master
      && (s == u.master ==> k.conn !in u.got && k.conn != u.master)
  {
    assert forall x | x in front :: x in front + [s];
    assert s in front + [s];
    ReadPhase(st, k, front);
    if s != st.master { assert s in st.queues && !ClosedIn(st, front, k, s); }
    hide Fifo, NoDup;
  }

  lemma ReadSoFarStep(st: State, k: Input, front: seq<Sock>, s: Sock, x: Sock, u: State)
    requires ReadSoFar(st, k, front, x, u) && s !in front && x != st.master
    requires Lists(u) && Fifo(u) && !u.crashed && s in u.inputs && u.master == st.master
    requires s == u.master ==> k.conn !in u.got && k.conn != u.master
    ensures ReadSoFar(st, k, front + [s], x, ReadOne(u, s, k))
  {
    assert s in front + [s] && forall y :: y in front + [s] <==> y in front || y == s;
    if x in u.queues {
      ReadOneDoes(u, s, k, x);
    } else {
      ReadOneForgets(u, s, k, x);
    }
    hide Lists, Fifo, ReadOne;
    if x == s { assert st.got[x] + [] == st.got[x] && st.queues[x] + [] == st.queues[x]; }
  }

  lemma {:induction false} ReadAllDoes(st: State, k: Input, ss: seq<Sock>, x: Sock)
    requires Lists(st) && Fifo(st) && !st.crashed && x in st.queues
    requires NoDup(ss) && (forall s | s in ss :: s in st.inputs)
    requires st.master in ss ==> k.conn != st.master && k.conn !in st.got
    ensures ReadSoFar(st, k, ss, x, ReadAll(st, ss, k))
  {
    if ss == [] {
      assert st.got[x] + [] == st.got[x] && st.queues[x] + [] == st.queues[x];
    } else {
      var front, s := ss[..|ss| - 1], ss[|ss| - 1];
      assert ss == front + [s];
      assert s !in front;
      assert x != st.master;
      ReadAllDoes(st, k, front, x);
      ReadComesTo(st, k, front, s);
      hide ReadSoFar, Lists, Fifo, ReadOne, NoDup;
      ReadSoFarStep(st, k, front, s, x, ReadAll(st, front, k));
    }
  }

  // A new connection has an empty queue after the readable loop.
  lemma {:induction false} ReadAllOpens(st: State, k: Input, ss: seq<Sock>)
    requires Lists(st) && Fifo(st) && !st.crashed && st.master in ss && k.conn !in ss
    requires NoDup(ss) && (forall s | s in ss :: s in st.inputs) && k.conn != st.master && k.conn !in st.got
    ensures var t := ReadAll(st, ss, k);
      && k.conn in t.queues && t.queues[k.conn] == [] && k.conn in t.got && t.got[k.conn] == []
      && k.conn in t.sent && t.sent[k.conn] == []
  {
    var front, s := ss[..|ss| - 1], ss[|ss| - 1];
    assert ss == front + [s];
    assert s !in front;
    ReadComesTo(st, k, front, s);
    if s != st.master {
      ReadAllOpens(st, k, front);
      ReadOneDoes(ReadAll(st, front, k), s, k, k.conn);
    }
    hide Lists, Fifo, NoDup;
  }

  // What the writable loop over ss does to x.
  ghost predicate Wrote(u: State, ss: seq<Sock>, x: Sock, t: State) {
    && x in u.queues && x in u.sent && x in t.queues && x in t.sent && t.got == u.got
    && t.sent[x] == u.sent[x] + Uppers(Taken(ss, x, u.queues[x]))
    && t.queues[x] == u.queues[x][|Taken(ss, x, u.queues[x])|..]
    && (x in t.outputs <==> x in u.outputs && !(x in ss && u.queues[x] == []))
  }

  lemma WroteStep(u: State, front: seq<Sock>, s: Sock, x: Sock, t: State)
    requires Wrote(u, front, x, t) && s !in front && Lists(t) && Fifo(t) && !t.crashed
    requires s in t.queues && s in t.outputs
    ensures Wrote(u, front + [s], x, WriteOne(t, s))
  {
    assert s in front + [s] && forall y :: y in front + [s] <==> y in front || y == s;
    RemoveExact(t.outputs, s);
    hide Remove, NoDup;
    if x == s {
      assert u.sent[x] + Uppers([]) == u.sent[x] && u.queues[x][0..] == u.queues[x];
      if u.queues[x] != [] { assert Uppers([u.queues[x][0]]) == [Upper(u.queues[x][0])]; }
    }
  }

  lemma {:induction false} WriteAllDoes(u: State, ss: seq<Sock>, x: Sock)
    requires Lists(u) && Fifo(u) && !u.crashed && NoDup(ss) && x in u.queues
    requires forall s | s in ss && s in u.queues :: s in u.outputs
    requires !WriteAll(u, ss).crashed
    ensures Wrote(u, ss, x, WriteAll(u, ss))
  {
    if ss == [] {
      assert Fifo(u);
      assert u.sent[x] + Uppers([]) == u.sent[x];
    } else {
      var front, s := ss[..|ss| - 1], ss[|ss| - 1];
      assert ss == front + [s];
      assert s !in front;
      var t := WriteAll(u, front);
      WriteStays(t, s);
      WriteAllDoes(u, front, x);
      WritePhase(u, front);
      WriteStep(t, s);
      hide Lists, Fifo, NoDup, WriteOne, Wrote;
      WroteStep(u, front, s, x, t);
    }
  }

  // A closed connection is sent nothing.
  lemma {:induction false} WriteAllForgets(u: State, ss: seq<Sock>, x: Sock)
    requires Fifo(u) && x in u.sent && x !in ss
    ensures WriteAll(u, ss).got == u.got && x in WriteAll(u, ss).sent && WriteAll(u, ss).sent[x] == u.sent[x]
  {
    if ss != [] { WriteAllForgets(u, ss[..|ss| - 1], x); }
  }

  lemma ExceptOneDoes(t: State, s: Sock, x: Sock)
    requires Lists(t) && x in t.queues && x != s
    ensures var v := ExceptOne(t, s);
      && v.got == t.got && v.sent == t.sent
      && x in v.queues && v.queues[x] == t.queues[x] && (x in v.outputs <==> x in t.outputs)
  {
    RemoveExact(t.outputs, s);
  }

  lemma {:induction false} ExceptAllDoes(u: State, ss: seq<Sock>, x: Sock)
    requires Lists(u) && Fifo(u) && !u.crashed && NoDup(ss) && !ExceptAll(u, ss).crashed
    ensures ExceptAll(u, ss).got == u.got && ExceptAll(u, ss).sent == u.sent
    ensures x in u.queues && x !in ss ==>
      var t := ExceptAll(u, ss);
      x in t.queues && t.queues[x] == u.queues[x] && (x in t.outputs <==> x in u.outputs)
  {
    if ss != [] {
      var front, s := ss[..|ss| - 1], ss[|ss| - 1];
      assert ss == front + [s];
      var t := ExceptAll(u, front);
      WriteStays(t, s);
      ExceptAllDoes(u, front, x);
      ExceptPhase(u, front);
      if x in t.queues && x != s { ExceptOneDoes(t, s, x); }
      hide Lists, Fifo, NoDup;
    }
  }

  // The effect on x of the readable and the writable loop.
  ghost predicate Served(st: State, k: Input, x: Sock, v: State) {
    x in st.got && x in st.sent && x in st.queues &&
    var queued := st.queues[x] + Brought(k, x);
    var sent := Taken(k.writable, x, queued);
    && x in v.got && v.got[x] == st.got[x] + Brought(k, x)
    && x in v.sent && v.sent[x] == st.sent[x] + Uppers(sent)
    && (x in v.queues <==> !(x in k.readable && k.DataOf(x) == []))
    && (x in v.queues ==>
          && v.queues[x] == queued[|sent|..]
          && (x in v.outputs <==> (x in st.outputs || Brought(k, x) != []) && !(x in k.writable && queued == [])))
  }

  lemma ServedOpen(st: State, k: Input, x: Sock, u: State, v: State)
    requires ReadSoFar(st, k, k.readable, x, u) && Wrote(u, k.writable, x, v) && x != st.master
    requires !(x in k.readable && k.DataOf(x) == [])
    ensures Served(st, k, x, v)
  {
    hide Uppers;
  }

  lemma ServedClosed(st: State, k: Input, x: Sock, u: State, v: State)
    requires ReadSoFar(st, k, k.readable, x, u) && x in k.readable && k.DataOf(x) == [] && x !in k.writable
    requires v.got == u.got && x in v.sent && v.sent[x] == u.sent[x] && x !in v.queues
    ensures Served(st, k, x, v)
  {
    assert st.sent[x] + Uppers([]) == st.sent[x];
  }

  lemma AfterWriting(st: State, k: Input) returns (v: State)
    requires Lists(st) && Fifo(st) && InputOk(st, k) && Orderly(st, k)
    ensures v == WriteAll(ReadAll(st, k.readable, k), k.writable) && !v.crashed && Lists(v) && Fifo(v)
    ensures !ExceptAll(v, k.exceptional).crashed
  {
    var u := AfterReading(st, k);
    WritePhase(u, k.writable);
    v := WriteAll(u, k.writable);
    RoundRaisesExactly(st, k);
    hide Lists, Fifo, NoDup, ReadAll, WriteAll, ExceptAll;
  }

  // Which watched connections the readable loop leaves watched.
  lemma LeftOpen(st: State, k: Input, x: Sock)
    requires Lists(st) && Fifo(st) && InputOk(st, k) && Orderly(st, k) && x in st.queues
    ensures var u := ReadAll(st, k.readable, k);
      && x != st.master && (x in u.queues <==> !ClosedIn(st, k.readable, k, x))
      && (ClosedIn(st, k.readable, k, x) <==> x in k.readable && k.DataOf(x) == [])
      && (ClosedIn(st, k.readable, k, x) ==> x !in k.writable)
  {
    ReadPhase(st, k, k.readable);
    assert x in st.got;
    hide ReadAll, NoDup;
  }

  lemma LoopsServe(st: State, k: Input, x: Sock)
    requires Lists(st) && Fifo(st) && InputOk(st, k) && Orderly(st, k) && x in st.queues
    ensures Served(st, k, x, WriteAll(ReadAll(st, k.readable, k), k.writable))
  {
    hide Lists, Fifo, NoDup, ReadAll, WriteAll, Served, Wrote, Orderly, ClosedIn;
    var u := AfterReading(st, k);
    var v := AfterWriting(st, k);
    ReadAllDoes(st, k, k.readable, x);
    LeftOpen(st, k, x);
    WritePhase(u, k.writable);
    if x in u.queues {
      WriteAllDoes(u, k.writable, x);
      hide ReadSoFar;
      ServedOpen(st, k, x, u, v);
    } else {
      WriteAllForgets(u, k.writable, x);
      hide ReadSoFar;
      ServedClosed(st, k, x, u, v);
    }
  }

  /** What a round that does not raise does to a connection watched before it: a message
      that has come joins the history and the queue; if the connection is writable the
      oldest message queued, and no other, is sent in upper case; it is closed exactly on
      end of file or an exceptional condition; and it waits to write as long as the last
      attempt did not find its queue empty. */
  lemma RoundDoes(st: State, k: Input, x: Sock)
    requires Lists(st) && Fifo(st) && InputOk(st, k) && Orderly(st, k) && x in st.queues
    ensures var t := Round(st, k); var queued := st.queues[x] + Brought(k, x);
      var sent := Taken(k.writable, x, queued);
      && x in st.got && x in t.got && t.got[x] == st.got[x] + Brought(k, x)
      && x in st.sent && x in t.sent && t.sent[x] == st.sent[x] + Uppers(sent)
      && (x in t.queues <==> !(x in k.readable && k.DataOf(x) == []) && x !in k.exceptional)
      && (x in t.queues ==>
            && t.queues[x] == queued[|sent|..]
            && (x in t.outputs <==> (x in st.outputs || Brought(k, x) != []) && !(x in k.writable && queued == [])))
  {
    var v := AfterWriting(st, k);
    LoopsServe(st, k, x);
    ExceptPhase(v, k.exceptional);
    ExceptAllDoes(v, k.exceptional, x);
    hide Lists, Fifo, NoDup, ReadAll, WriteAll, ExceptAll, Uppers, Brought, Taken;
  }

  /** A new connection is watched from its round on, with nothing received, queued or sent. */
  lemma RoundOpens(st: State, k: Input)
    requires Lists(st) && Fifo(st) && InputOk(st, k) && Orderly(st, k) && st.master in k.readable
    ensures var t := Round(st, k);
      && k.conn in t.inputs && k.conn in t.queues && t.queues[k.conn] == []
      && k.conn in t.got && t.got[k.conn] == [] && k.conn in t.sent && t.sent[k.conn] == []
  {
    var u := AfterReading(st, k);
    var v := AfterWriting(st, k);
    assert k.conn !in st.queues && k.conn !in st.inputs && k.conn !in st.outputs;
    ReadAllOpens(st, k, k.readable);
    assert k.conn !in k.writable && k.conn !in k.exceptional;
    WriteAllDoes(u, k.writable, k.conn);
    ExceptAllDoes(v, k.exceptional, k.conn);
    RoundRaisesExactly(st, k);
    assert u.sent[k.conn] + Uppers([]) == [];
    hide ReadAll, WriteAll, ExceptAll, NoDup;
  }

  lemma {:induction false} ReadAllForgets(st: State, k: Input, ss: seq<Sock>, x: Sock)
    requires Lists(st) && Fifo(st) && !st.crashed && x !in st.queues
    requires NoDup(ss) && (forall s | s in ss :: s in st.inputs)
    requires st.master in ss ==> k.conn != st.master && k.conn !in st.got && x != k.conn
    ensures var t := ReadAll(st, ss, k);
      && x !in t.queues && (x in t.got <==> x in st.got)
      && (x in st.got ==> x in st.sent && x in t.sent && t.got[x] == st.got[x] && t.sent[x] == st.sent[x])
  {
    if ss != [] {
      var front, s := ss[..|ss| - 1], ss[|ss| - 1];
      assert ss == front + [s];
      assert s !in front;
      ReadAllForgets(st, k, front, x);
      ReadComesTo(st, k, front, s);
      var u := ReadAll(st, front, k);
      hide Lists, Fifo, NoDup;
      if x in st.got { ReadOneForgets(u, s, k, x); }
      ReadStep(u, s, k, x);
    }
  }

  /** A round adds nothing to the history of a connection that is closed or has not come. */
  lemma RoundForgets(st: State, k: Input, x: Sock)
    requires Lists(st) && Fifo(st) && InputOk(st, k) && Orderly(st, k) && x !in st.queues
    requires st.master in k.readable ==> x != k.conn
    ensures var t := Round(st, k);
      && (x in t.got <==> x in st.got)
      && (x in st.got ==> x in st.sent && x in t.sent && t.got[x] == st.got[x] && t.sent[x] == st.sent[x])
  {
    var u := AfterReading(st, k);
    var v := AfterWriting(st, k);
    ReadAllForgets(st, k, k.readable, x);
    assert x !in k.writable;
    WriteGot(u, k.writable);
    if x in st.got { WriteAllForgets(u, k.writable, x); }
    ExceptAllDoes(v, k.exceptional, x);
    hide Lists, Fifo, NoDup, ReadAll, WriteAll, ExceptAll;
  }

  lemma {:induction false} WriteGot(u: State, ss: seq<Sock>)
    ensures WriteAll(u, ss).got == u.got
  {
    if ss != [] { WriteGot(u, ss[..|ss| - 1]); }
  }

  // A crashed server does nothing more.
  ghost function Exec(st: State, ks: seq<Input>): State {
    if ks == [] then st
    else var u := Exec(st, ks[..|ks| - 1]); if InputOk(u, ks[|ks| - 1]) then Round(u, ks[|ks| - 1]) else u
  }

  lemma {:induction false} RunKeepsInv(master: Sock, ks: seq<Input>)
    ensures Inv(Exec(Start(master), ks))
  {
    if ks != [] {
      RunKeepsInv(master, ks[..|ks| - 1]);
      var u := Exec(Start(master), ks[..|ks| - 1]);
      if InputOk(u, ks[|ks| - 1]) { RoundRaisesExactly(u, ks[|ks| - 1]); }
    }
  }

  // A run that raises: a connection is accepted and sends a message; in the next round the
  // reply can be written, and end of file has come.
  function RaisingRun(master: Sock, c: Sock, m: Msg): seq<Input> {
    [Input([master], [], [], c, map[]), Input([c], [], [], master, map[c := m]), Input([c], [c], [], master, map[])]
  }

  lemma OneReadable(st: State, s: Sock, k: Input)
    requires k.readable == [s] && k.writable == [] && k.exceptional == []
    ensures Round(st, k) == ReadOne(st, s, k)
  {
    assert [s][..0] == [];
    assert ReadAll(st, [], k) == st;
  }

  ghost function Quiet(master: Sock, c: Sock, m: Msg, n: nat): State {
    var st := Start(master).(inputs := [master, c], queues := map[c := []], got := map[c := []], sent := map[c := []]);
    match n
    case 0 => Start(master)
    case 1 => st
    case _ => st.(outputs := [c], queues := map[c := [m]], got := map[c := [m]])
  }

  lemma AcceptRound(master: Sock, c: Sock, m: Msg)
    requires c != master
    ensures var st, k := Start(master), RaisingRun(master, c, m)[0];
      InputOk(st, k) && Round(st, k) == Quiet(master, c, m, 1)
  {
    OneReadable(Start(master), master, RaisingRun(master, c, m)[0]);
    hide Round, ReadAll, WriteAll, ExceptAll;
  }

  lemma MessageRound(master: Sock, c: Sock, m: Msg)
    requires c != master && m != []
    ensures var st, k := Quiet(master, c, m, 1), RaisingRun(master, c, m)[1];
      InputOk(st, k) && Round(st, k) == Quiet(master, c, m, 2)
  {
    OneReadable(Quiet(master, c, m, 1), c, RaisingRun(master, c, m)[1]);
    assert [] + [m] == [m] && map[c := []][c := [m]] == map[c := [m]];
    hide Round, ReadAll, WriteAll, ExceptAll;
  }

  lemma LastRound(master: Sock, c: Sock, m: Msg)
    requires c != master && m != []
    ensures var st, k := Quiet(master, c, m, 2), RaisingRun(master, c, m)[2];
      InputOk(st, k) && Round(st, k).crashed
  {
    var st, k := Quiet(master, c, m, 2), RaisingRun(master, c, m)[2];
    assert ReadAll(st, [], k) == st && [c][..0] == [];
    var u := ReadAll(st, [c], k);
    assert u == ReadOne(st, c, k) == Close(st, c);
    assert c !in u.queues;
    assert WriteAll(u, []) == u;
    assert WriteAll(u, [c]).crashed;
  }

  /** Such a round comes up: in a run of three rounds select may well report, the first two
      raise nothing and the third does. */
  lemma RaiseIsReachable(master: Sock, c: Sock, m: Msg)
    requires c != master && m != []
    ensures var ks := RaisingRun(master, c, m);
      !Exec(Start(master), ks[..2]).crashed && Exec(Start(master), ks).crashed
  {
    var ks := RaisingRun(master, c, m);
    assert ks[..2][..1] == ks[..1] && ks[..1][..0] == [];
    AcceptRound(master, c, m);
    MessageRound(master, c, m);
    LastRound(master, c, m);
    hide InputOk, Round;
    assert Exec(Start(master), ks[..1]) == Quiet(master, c, m, 1);
    assert Exec(Start(master), ks[..2]) == Quiet(master, c, m, 2);
  }

  /** Coherence and order over all runs: as long as no round has raised, the queues belong
      to exactly the watched connections, `outputs` holds no socket twice and every
      connection with a message queued, and for each connection the messages sent,
      followed by the upper-cased ones still queued, are the upper-cased messages
      received, in order; for a closed connection those sent are a prefix of them. */
  lemma {:induction false} QueuesAreCoherent(master: Sock, ks: seq<Input>, s: Sock)
    requires !Exec(Start(master), ks).crashed
    ensures var st := Exec(Start(master), ks);
      && NoDup(st.inputs) && NoDup(st.outputs)
      && (s in st.queues <==> s in st.inputs && s != st.master)
      && (s in st.outputs ==> s in st.queues)
      && (s in st.queues && st.queues[s] != [] ==> s in st.outputs)
      && (s in st.queues ==> s in st.got && s in st.sent && st.sent[s] + Uppers(st.queues[s]) == Uppers(st.got[s]))
      && (s in st.got ==> s in st.sent && st.sent[s] <= Uppers(st.got[s]))
  {
    RunKeepsInv(master, ks);
  }

  // The messages that the rounds of a run have brought on x while it was watched.
  ghost function Received(master: Sock, ks: seq<Input>, x: Sock): seq<Msg> {
    if ks == [] then []
    else
      var front, k := ks[..|ks| - 1], ks[|ks| - 1];
      var u := Exec(Start(master), front);
      Received(master, front, x) + if InputOk(u, k) && x in u.queues then Brought(k, x) else []
  }

  lemma RunStep(st: State, ks: seq<Input>)
    requires ks != [] && !Exec(st, ks).crashed
    ensures var u, k := Exec(st, ks[..|ks| - 1]), ks[|ks| - 1];
      !u.crashed && Exec(st, ks) == if InputOk(u, k) then Round(u, k) else u
  {
  }

  lemma {:induction false} GotIsReceived(master: Sock, ks: seq<Input>, x: Sock)
    requires !Exec(Start(master), ks).crashed
    ensures var got := Exec(Start(master), ks).got;
      Received(master, ks, x) == if x in got then got[x] else []
  {
    if ks != [] {
      var front, k := ks[..|ks| - 1], ks[|ks| - 1];
      var u := Exec(Start(master), front);
      RunStep(Start(master), ks);
      GotIsReceived(master, front, x);
      RunKeepsInv(master, front);
      if InputOk(u, k) {
        RoundRaisesExactly(u, k);
        if x in u.queues {
          RoundDoes(u, k, x);
        } else if u.master in k.readable && x == k.conn {
          RoundOpens(u, k);
        } else {
          RoundForgets(u, k, x);
        }
      }
      hide Round, Exec, Lists, Fifo, Orderly, Brought, Taken;
    }
  }

  /** The echo, against the run itself: until a round raises, what has been sent to a
      connection and what is still queued for it are, in order and in upper case, the
      messages the run brought on it; to a closed one a prefix of them has been sent. */
  lemma {:induction false} EchoesWhatCame(master: Sock, ks: seq<Input>, x: Sock)
    requires !Exec(Start(master), ks).crashed
    ensures var st := Exec(Start(master), ks);
      && (x in st.queues ==>
            x in st.sent && st.sent[x] + Uppers(st.queues[x]) == Uppers(Received(master, ks, x)))
      && (x in st.sent ==> st.sent[x] <= Uppers(Received(master, ks, x)))
  {
    GotIsReceived(master, ks, x);
    QueuesAreCoherent(master, ks, x);
    RunKeepsInv(master, ks);
    hide Exec, Received, Lists, Uppers;
  }

  // Rounds that bring nothing on x but the chance to write to it.
  ghost predicate Flushes(st: State, ks: seq<Input>, x: Sock) {
    ks == [] ||
    var front, k := ks[..|ks| - 1], ks[|ks| - 1];
    var u := Exec(st, front);
    && Flushes(st, front, x)
    && InputOk(u, k) && Orderly(u, k) && x in k.writable && x !in k.readable && x !in k.exceptional
  }

  lemma TakeNext(q: seq<Msg>, n: nat)
    requires n < |q|
    ensures q[n..][0] == q[n] && q[n..][1..] == q[n + 1..]
    ensures Uppers(q[..n]) + Uppers([q[n]]) == Uppers(q[..n + 1])
  {
    assert q[..n] + [q[n]] == q[..n + 1];
    UppersConcat(q[..n], [q[n]]);
  }

  // What has been done after n of the messages in q have been sent to x.
  ghost predicate SentSome(st: State, t: State, x: Sock, n: nat) {
    && x in st.queues && x in st.sent && n <= |st.queues[x]|
    && x in t.queues && t.queues[x] == st.queues[x][n..]
    && x in t.sent && t.sent[x] == st.sent[x] + Uppers(st.queues[x][..n])
  }

  lemma SendsNext(st: State, u: State, k: Input, x: Sock, n: nat)
    requires SentSome(st, u, x, n) && Lists(u) && Fifo(u) && InputOk(u, k) && Orderly(u, k)
    requires x in k.writable && x !in k.readable && x !in k.exceptional
    ensures SentSome(st, Round(u, k), x, if n < |st.queues[x]| then n + 1 else n)
  {
    RoundDoes(u, k, x);
    hide Round, Lists, Fifo, Orderly, InputOk, Uppers;
    assert u.queues[x] + [] == u.queues[x];
    if n < |st.queues[x]| {
      TakeNext(st.queues[x], n);
    } else {
      NothingSent(u.sent[x]);
    }
  }

  lemma NothingSent(ms: seq<Msg>)
    ensures ms + Uppers([]) == ms
  {
  }

  /** Progress: each round in which a connection is writable sends one message, oldest
      first, until its queue is empty, so as many such rounds as there are messages queued
      send them all. */
  lemma {:induction false} QueueDrains(st: State, ks: seq<Input>, x: Sock)
    requires Lists(st) && Fifo(st) && !st.crashed && x in st.queues && Flushes(st, ks, x)
    ensures var t, q := Exec(st, ks), st.queues[x];
      var n := if |ks| < |q| then |ks| else |q|;
      && !t.crashed && Lists(t) && Fifo(t)
      && x in t.queues && t.queues[x] == q[n..]
      && x in st.sent && x in t.sent && t.sent[x] == st.sent[x] + Uppers(q[..n])
  {
    var q := st.queues[x];
    if ks == [] {
      assert q[..0] == [] && q[0..] == q;
      assert x in st.sent;
      NothingSent(st.sent[x]);
    } else {
      var front, k := ks[..|ks| - 1], ks[|ks| - 1];
      var u := Exec(st, front);
      QueueDrains(st, front, x);
      RoundRaisesExactly(u, k);
      hide Round, Lists, Fifo, Orderly, InputOk, Uppers;
      SendsNext(st, u, k, x, if |front| < |q| then |front| else |q|);
    }
  }

  // ---- The program ----

  method RemoveFrom(xs: seq<Sock>, x: Sock) returns (r: seq<Sock>)
    ensures r == Remove(xs, x)
  {
    var i := 0;
    while i < |xs| && xs[i] != x
      invariant 0 <= i <= |xs|
      invariant Remove(xs, x) == xs[..i] + Remove(xs[i..], x)
    {
      assert xs[i..][1..] == xs[i + 1..];
      i := i + 1;
    }
    r := if i < |xs| then xs[..i] + xs[i + 1..] else xs;
    if i < |xs| { assert xs[i..][1..] == xs[i + 1..]; } else { assert xs[..i] + Remove([], x) == xs; }
  }

  class Server {
    const master: Sock
    var inputs: seq<Sock>
    var outputs: seq<Sock>
    var msgQueue: map<Sock, seq<Msg>>
    var raised: bool
    ghost var got: map<Sock, seq<Msg>>
    ghost var sent: map<Sock, seq<Msg>>

    ghost function Abs(): State
      reads this
    {
      State(master, inputs, outputs, msgQueue, got, sent, raised)
    }

    ghost predicate Valid()
      reads this
    {
      msgQueue.Keys <= got.Keys && msgQueue.Keys <= sent.Keys
    }

    constructor (masterSocket: Sock)
      ensures Valid() && Abs() == Start(masterSocket)
    {
      master, inputs, outputs, msgQueue, raised := masterSocket, [masterSocket], [], map[], false;
      got, sent := map[], map[];
    }

    method CloseSocket(s: Sock)
      requires Valid()
      modifies this`inputs, this`outputs, this`msgQueue
      ensures Valid() && Abs() == Close(old(Abs()), s)
    {
      if s in outputs { outputs := RemoveFrom(outputs, s); }
      inputs := RemoveFrom(inputs, s);
      msgQueue := msgQueue - {s};
    }

    method Readable(s: Sock, k: Input)
      requires Valid() && !raised
      modifies this
      ensures Valid() && Abs() == ReadOne(old(Abs()), s, k)
    {
      if s == master {
        inputs := inputs + [k.conn];
        msgQueue := msgQueue[k.conn := []];
        got, sent := got[k.conn := []], sent[k.conn := []];
      } else {
        var data := k.DataOf(s);
        if data != [] {
          if s !in msgQueue {
            raised := true;
            return;
          }
          msgQueue := msgQueue[s := msgQueue[s] + [data]];
          got := got[s := got[s] + [data]];
          if s !in outputs { outputs := outputs + [s]; }
        } else if s !in inputs || s !in msgQueue {
          raised := true;
        } else {
          CloseSocket(s);
        }
      }
    }

    method Writable(s: Sock)
      requires Valid() && !raised
      modifies this
      ensures Valid() && Abs() == WriteOne(old(Abs()), s)
    {
      if s !in msgQueue {
        raised := true;
      } else if msgQueue[s] == [] {
        if s !in outputs {
          raised := true;
        } else {
          outputs := RemoveFrom(outputs, s);
        }
      } else {
        var msg := msgQueue[s][0];
        msgQueue := msgQueue[s := msgQueue[s][1..]];
        sent := sent[s := sent[s] + [Upper(msg)]];
      }
    }

    method Exceptional(s: Sock)
      requires Valid() && !raised
      modifies this
      ensures Valid() && Abs() == ExceptOne(old(Abs()), s)
    {
      if s == master || s !in inputs || s !in msgQueue {
        raised := true;
      } else {
        CloseSocket(s);
      }
    }

    /** One pass of the main loop after select. */
    method HandleRound(k: Input)
      requires Valid() && !raised
      modifies this
      ensures Valid() && Abs() == Round(old(Abs()), k)
    {
      ReadLoop(k);
      if raised {
        CrashedStays(Abs(), k.writable);
        CrashedStays(Abs(), k.exceptional);
        return;
      }
      WriteLoop(k);
      if raised {
        CrashedStays(Abs(), k.exceptional);
        return;
      }
      ExceptLoop(k);
    }

    method ReadLoop(k: Input)
      requires Valid() && !raised
      modifies this
      ensures Valid() && Abs() == ReadAll(old(Abs()), k.readable, k)
    {
      var i := 0;
      while i < |k.readable| && !raised
        invariant 0 <= i <= |k.readable| && Valid()
        invariant Abs() == ReadAll(old(Abs()), k.readable[..i], k)
      {
        assert k.readable[..i + 1][..i] == k.readable[..i];
        Readable(k.readable[i], k);
        i := i + 1;
      }
      RaisedInside(old(Abs()), k, k.readable, i);
      assert k.readable[..|k.readable|] == k.readable;
    }

    method WriteLoop(k: Input)
      requires Valid() && !raised
      modifies this
      ensures Valid() && Abs() == WriteAll(old(Abs()), k.writable)
    {
      var i := 0;
      while i < |k.writable| && !raised
        invariant 0 <= i <= |k.writable| && Valid()
        invariant Abs() == WriteAll(old(Abs()), k.writable[..i])
      {
        assert k.writable[..i + 1][..i] == k.writable[..i];
        Writable(k.writable[i]);
        i := i + 1;
      }
      RaisedInside(old(Abs()), k, k.writable, i);
      assert k.writable[..|k.writable|] == k.writable;
    }

    method ExceptLoop(k: Input)
      requires Valid() && !raised
      modifies this
      ensures Valid() && Abs() == ExceptAll(old(Abs()), k.exceptional)
    {
      var i := 0;
      while i < |k.exceptional| && !raised
        invariant 0 <= i <= |k.exceptional| && Valid()
        invariant Abs() == ExceptAll(old(Abs()), k.exceptional[..i])
      {
        assert k.exceptional[..i + 1][..i] == k.exceptional[..i];
        Exceptional(k.exceptional[i]);
        i := i + 1;
      }
      RaisedInside(old(Abs()), k, k.exceptional, i);
      assert k.exceptional[..|k.exceptional|] == k.exceptional;
    }
  }
}
