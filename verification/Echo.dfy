/**
 The echo peer `str_echo` of C/basic_tcp_server.c: read at most BUF_LEN - 1 bytes, write
 them back, until the read reports end of file.
 */
module Echo {
  import opened Bytes

  const BUF_LEN: nat := 256

  // `pend` is the part of the last read that has not been written back yet; `rcv` and
  // `wrt` are all the bytes read and written so far.
  datatype Server = Server(pend: seq<Byte>, closed: bool, rcv: seq<Byte>, wrt: seq<Byte>)

  const FRESH := Server([], false, [], [])

  function Take(s: Server, bs: seq<Byte>): Server { s.(pend := bs, rcv := s.rcv + bs) }

  function Put(s: Server, n: nat): Server
    requires n <= |s.pend|
  {
    s.(pend := s.pend[n..], wrt := s.wrt + s.pend[..n])
  }

  function Close(s: Server): Server { s.(closed := true) }

  // EINTR, end of file, or some bytes.
  datatype Answer = Interrupted | Eof | Data(bytes: seq<Byte>)

  predicate AnswerOk(ans: Answer) { ans.Data? ==> 0 < |ans.bytes| <= BUF_LEN - 1 }

  function Turn(s: Server, ans: Answer): Server {
    if s.closed then s
    else match ans
      case Interrupted => s
      case Eof => Close(s)
      case Data(bs) => Put(Take(s, bs), |bs|)
  }

  function Serve(s: Server, script: seq<Answer>): Server {
    if script == [] then s else Turn(Serve(s, script[..|script| - 1]), script[|script| - 1])
  }

  // What the client sent before it closed its side.
  function Incoming(script: seq<Answer>): seq<Byte> {
    if script == [] then []
    else match script[0]
      case Interrupted => Incoming(script[1..])
      case Eof => []
      case Data(bs) => bs + Incoming(script[1..])
  }

  lemma {:induction false} IncomingSnoc(script: seq<Answer>, ans: Answer)
    ensures Incoming(script + [ans]) ==
            if Eof in script || !ans.Data? then Incoming(script) else Incoming(script) + ans.bytes
  {
    if script == [] {
      assert [ans][1..] == [];
    } else {
      assert (script + [ans])[1..] == script[1..] + [ans];
      IncomingSnoc(script[1..], ans);
      assert script == [script[0]] + script[1..];
    }
  }

  /** The peer writes back exactly the bytes the client sent before its end of file, in
      order, and closes exactly when it has seen that end of file. */
  lemma {:induction false} ServeEchoes(script: seq<Answer>)
    ensures Serve(FRESH, script).wrt == Serve(FRESH, script).rcv == Incoming(script)
    ensures Serve(FRESH, script).pend == []
    ensures Serve(FRESH, script).closed <==> Eof in script
  {
    if script != [] {
      var front, last := script[..|script| - 1], script[|script| - 1];
      ServeEchoes(front);
      IncomingSnoc(front, last);
      assert script == front + [last];
    }
  }

  lemma {:induction false} ClosedStays(s: Server, script: seq<Answer>, i: nat)
    requires i <= |script| && Serve(s, script[..i]).closed
    ensures Serve(s, script) == Serve(s, script[..i])
  {
    if i < |script| {
      var front := script[..|script| - 1];
      assert front[..i] == script[..i];
      ClosedStays(s, front, i);
    } else {
      assert script[..i] == script;
    }
  }

  class EchoServer {
    const buf: array<Byte>
    var closed: bool
    ghost var rcv: seq<Byte>
    ghost var wrt: seq<Byte>

    ghost function Abs(): Server
      reads this
    {
      Server([], closed, rcv, wrt)
    }

    constructor ()
      ensures Abs() == FRESH && buf.Length == BUF_LEN && fresh(buf)
    {
      buf := new Byte[BUF_LEN];
      closed, rcv, wrt := false, [], [];
    }

    /** The loop, for as long as the script of read answers lasts.  A blocking write
        takes all it is given. */
    method StrEcho(script: seq<Answer>)
      requires !closed && buf.Length == BUF_LEN
      requires forall i | 0 <= i < |script| :: AnswerOk(script[i])
      modifies this, buf
      ensures Abs() == Serve(old(Abs()), script)
    {
      var i := 0;
      while i < |script| && !closed
        invariant 0 <= i <= |script|
        invariant Abs() == Serve(old(Abs()), script[..i])
      {
        assert script[..i + 1][..i] == script[..i];
        match script[i] {
          case Interrupted =>
          case Eof => closed := true;
          case Data(bs) =>
            forall j | 0 <= j < |bs| { buf[j] := bs[j]; }
            var nread := |bs|;
            rcv := rcv + bs;
            assert buf[..nread] == bs;
            wrt := wrt + buf[..nread];
        }
        i := i + 1;
      }
      if closed { ClosedStays(old(Abs()), script, i); }
      assert script[..|script|] == script;
    }
  }
}
