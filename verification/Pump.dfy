/**
 The non-blocking duplex pump of C/nonblock_stream_client.c.

 `str_cli` copies standard input through the buffer `to` to a socket, and the
 socket through the buffer `fr` to standard output.  Each pass of its loop asks
 `select` for a set of ready descriptors and then makes at most four system calls
 in a fixed order.  The kernel is not trusted: `select` may return any part of the
 sets it was given, a read may return any non-empty amount, a write may take any
 part of what it was offered, and every call may answer EWOULDBLOCK or fail.
 */
module Pump {
  import opened Bytes

  const MAX_SIZE: nat := 1024

  datatype Fd = Stdin | Stdout | Sock

  // The point a pass of the loop has reached; the last three are the ways out of it.
  datatype Pc = Head | AtStdin | AtSock | AtStdout | AtSend | Returned | Premature | Failed

  datatype ReadAnswer = ReadBlock | ReadFail | Eof | Data(bytes: seq<Byte>)
  datatype WriteAnswer = WriteBlock | WriteFail | Wrote(n: nat)

  // `to` and `fr` are the live windows, from the out cursor up to the in cursor, and
  // `toOut` and `frOut` are the out cursors.  The last five fields are the history of
  // the system calls: calls of shutdown, bytes read from and written to each side.
  datatype Client = Client(
    pc: Pc, rset: set<Fd>, wset: set<Fd>,
    toOut: nat, to: seq<Byte>, frOut: nat, fr: seq<Byte>, stdineof: bool,
    shut: nat, got: seq<Byte>, sent: seq<Byte>, recvd: seq<Byte>, out: seq<Byte>)
  {
    function ToRoom(): int { MAX_SIZE - toOut - |to| }

    function FrRoom(): int { MAX_SIZE - frOut - |fr| }

    function WantsRead(): set<Fd> {
      (if !stdineof && ToRoom() > 0 then {Stdin} else {}) + (if FrRoom() > 0 then {Sock} else {})
    }

    function WantsWrite(): set<Fd> {
      (if to != [] then {Sock} else {}) + (if fr != [] then {Stdout} else {})
    }

    predicate Finished() { pc == Returned || pc == Premature || pc == Failed }
  }

  const INITIAL := Client(Head, {}, {}, 0, [], 0, [], false, 0, [], [], [], [])

  // What read may answer when given `room` bytes.  With no room it returns 0, which the
  // caller cannot tell from end of file.
  predicate ReadOk(room: int, ans: ReadAnswer) {
    if room <= 0 then ans == Eof else ans.Data? ==> 0 < |ans.bytes| <= room
  }

  predicate WriteOk(offered: nat, ans: WriteAnswer) {
    ans.Wrote? ==> ans.n <= offered
  }

  datatype Action =
    | Select(rs: set<Fd>, ws: set<Fd>)
    | ReadStdin(rans: ReadAnswer)
    | ReadSock(rans: ReadAnswer)
    | WriteStdout(wans: WriteAnswer)
    | WriteSock(wans: WriteAnswer)

  predicate Enabled(c: Client, a: Action) {
    match a
    case Select(rs, ws) => c.pc == Head && rs <= c.WantsRead() && ws <= c.WantsWrite()
    case ReadStdin(ans) => c.pc == AtStdin && (Stdin in c.rset ==> ReadOk(c.ToRoom(), ans))
    case ReadSock(ans) => c.pc == AtSock && (Sock in c.rset ==> ReadOk(c.FrRoom(), ans))
    case WriteStdout(ans) => c.pc == AtStdout && WriteOk(|c.fr|, ans)
    case WriteSock(ans) => c.pc == AtSend && WriteOk(|c.to|, ans)
  }

  function AfterStdin(c: Client, ans: ReadAnswer): Client {
    if Stdin !in c.rset then c.(pc := AtSock)
    else match ans
      case ReadBlock => c.(pc := AtSock)
      case ReadFail => c.(pc := Failed)
      case Eof => c.(pc := AtSock, stdineof := true, shut := if c.to == [] then c.shut + 1 else c.shut)
      case Data(bs) => c.(pc := AtSock, to := c.to + bs, got := c.got + bs, wset := c.wset + {Sock})
  }

  function AfterSock(c: Client, ans: ReadAnswer): Client {
    if Sock !in c.rset then c.(pc := AtStdout)
    else match ans
      case ReadBlock => c.(pc := AtStdout)
      case ReadFail => c.(pc := Failed)
      case Eof => c.(pc := if c.stdineof then Returned else Premature)
      case Data(bs) => c.(pc := AtStdout, fr := c.fr + bs, recvd := c.recvd + bs, wset := c.wset + {Stdout})
  }

  function AfterStdout(c: Client, ans: WriteAnswer): Client
    requires WriteOk(|c.fr|, ans)
  {
    if Stdout !in c.wset || c.fr == [] then c.(pc := AtSend)
    else match ans
      case WriteBlock => c.(pc := AtSend)
      case WriteFail => c.(pc := Failed)
      case Wrote(n) =>
        c.(pc := AtSend, out := c.out + c.fr[..n], fr := c.fr[n..],
           frOut := if n == |c.fr| then 0 else c.frOut + n)
  }

  function AfterSend(c: Client, ans: WriteAnswer): Client
    requires WriteOk(|c.to|, ans)
  {
    if Sock !in c.wset || c.to == [] then c.(pc := Head)
    else match ans
      case WriteBlock => c.(pc := Head)
      case WriteFail => c.(pc := Failed)
      case Wrote(n) =>
        c.(pc := Head, sent := c.sent + c.to[..n], to := c.to[n..],
           toOut := if n == |c.to| then 0 else c.toOut + n,
           shut := if n == |c.to| && c.stdineof then c.shut + 1 else c.shut)
  }

  function Next(c: Client, a: Action): Client
    requires Enabled(c, a)
  {
    match a
    case Select(rs, ws) => c.(pc := AtStdin, rset := rs, wset := ws)
    case ReadStdin(ans) => AfterStdin(c, ans)
    case ReadSock(ans) => AfterSock(c, ans)
    case WriteStdout(ans) => AfterStdout(c, ans)
    case WriteSock(ans) => AfterSend(c, ans)
  }

  // An action that is not enabled leaves the state alone, so every sequence of actions
  // is a run and the states it reaches are exactly the reachable ones.
  function Step(c: Client, a: Action): Client {
    if Enabled(c, a) then Next(c, a) else c
  }

  function Exec(c: Client, acts: seq<Action>): Client {
    if acts == [] then c else Step(Exec(c, acts[..|acts| - 1]), acts[|acts| - 1])
  }

  // ---- What holds at every point of every run, whatever the peer and the kernel do ----

  ghost predicate Inv(c: Client) {
    && c.ToRoom() >= 0 && c.FrRoom() >= 0
    && (c.to == [] ==> c.toOut == 0)
    && (c.fr == [] ==> c.frOut == 0)
    && (c.pc == AtStdin && Stdin in c.rset ==> c.ToRoom() > 0 && !c.stdineof)
    && (c.pc in {AtStdin, AtSock} && Sock in c.rset ==> c.FrRoom() > 0)
    && c.got == c.sent + c.to
    && c.recvd == c.out + c.fr
    && c.shut == (if c.stdineof && c.to == [] then 1 else 0)
    && (c.pc == Returned ==> c.stdineof)
  }

  lemma StdoutKeepsInv(c: Client, ans: WriteAnswer)
    requires Inv(c) && c.pc == AtStdout && WriteOk(|c.fr|, ans)
    ensures Inv(AfterStdout(c, ans))
  {
  }

  lemma SendKeepsInv(c: Client, ans: WriteAnswer)
    requires Inv(c) && c.pc == AtSend && WriteOk(|c.to|, ans)
    ensures Inv(AfterSend(c, ans))
  {
  }

  lemma ReadsKeepInv(c: Client, ans: ReadAnswer)
    requires Inv(c)
    ensures c.pc == AtStdin && (Stdin in c.rset ==> ReadOk(c.ToRoom(), ans)) ==> Inv(AfterStdin(c, ans))
    ensures c.pc == AtSock && (Sock in c.rset ==> ReadOk(c.FrRoom(), ans)) ==> Inv(AfterSock(c, ans))
  {
  }

  lemma StepKeepsInv(c: Client, a: Action)
    requires Inv(c)
    ensures Inv(Step(c, a))
  {
    if Enabled(c, a) {
      match a
      case Select(rs, ws) =>
      case ReadStdin(ans) => ReadsKeepInv(c, ans);
      case ReadSock(ans) => ReadsKeepInv(c, ans);
      case WriteStdout(ans) => StdoutKeepsInv(c, ans);
      case WriteSock(ans) => SendKeepsInv(c, ans);
    }
  }

  lemma {:induction false} RunKeepsInv(c: Client, acts: seq<Action>)
    requires Inv(c)
    ensures Inv(Exec(c, acts))
  {
    if acts != [] {
      RunKeepsInv(c, acts[..|acts| - 1]);
      StepKeepsInv(Exec(c, acts[..|acts| - 1]), acts[|acts| - 1]);
    }
  }

  /** Both windows stay inside their buffers, an empty window sits at the start of its
      buffer, and in every pass there is a descriptor to wait for: an input as long as it
      has not ended and bytes fit behind its window, an output as long as its window holds
      something. */
  lemma {:induction false} CursorsAndInterest(acts: seq<Action>)
    ensures var c := Exec(INITIAL, acts);
      && c.toOut + |c.to| <= MAX_SIZE && (c.to == [] ==> c.toOut == 0)
      && c.frOut + |c.fr| <= MAX_SIZE && (c.fr == [] ==> c.frOut == 0)
      && (c.WantsRead() + c.WantsWrite() != {})
      && (Stdin in c.WantsRead() <==> !c.stdineof && c.toOut + |c.to| < MAX_SIZE)
      && (Sock in c.WantsRead() <==> c.frOut + |c.fr| < MAX_SIZE)
      && (Sock in c.WantsWrite() <==> c.to != []) && (Stdout in c.WantsWrite() <==> c.fr != [])
  {
    RunKeepsInv(INITIAL, acts);
    var c := Exec(INITIAL, acts);
    if c.fr == [] { assert Sock in c.WantsRead(); } else { assert Stdout in c.WantsWrite(); }
  }

  /** No read is ever given an empty buffer, so an answer of 0 always means end of file. */
  lemma {:induction false} NoReadWithoutRoom(acts: seq<Action>)
    ensures var c := Exec(INITIAL, acts);
      && (c.pc == AtStdin && Stdin in c.rset ==> c.ToRoom() > 0)
      && (c.pc == AtSock && Sock in c.rset ==> c.FrRoom() > 0)
  {
    RunKeepsInv(INITIAL, acts);
  }

  // What one step may do to the history: bytes are only appended, and after the shutdown
  // nothing more is read from standard input or written to the socket.
  ghost predicate Extends(c: Client, d: Client) {
    && c.got <= d.got && c.sent <= d.sent && c.recvd <= d.recvd && c.out <= d.out
    && c.shut <= d.shut
    && (c.stdineof ==> d.stdineof && d.got == c.got)
    && (c.shut > 0 ==> d.sent == c.sent && d.got == c.got)
  }

  lemma StepExtends(c: Client, a: Action)
    requires Inv(c)
    ensures Extends(c, Step(c, a))
  {
  }

  lemma {:induction false} RunExtends(c: Client, acts: seq<Action>)
    requires Inv(c)
    ensures Inv(Exec(c, acts)) && Extends(c, Exec(c, acts))
  {
    if acts != [] {
      RunExtends(c, acts[..|acts| - 1]);
      StepKeepsInv(Exec(c, acts[..|acts| - 1]), acts[|acts| - 1]);
      StepExtends(Exec(c, acts[..|acts| - 1]), acts[|acts| - 1]);
    }
  }

  lemma {:induction false} ExecConcat(c: Client, before: seq<Action>, after: seq<Action>)
    ensures Exec(c, before + after) == Exec(Exec(c, before), after)
  {
    if after == [] {
      assert before + after == before;
    } else {
      ExecConcat(c, before, after[..|after| - 1]);
      assert (before + after)[..|before + after| - 1] == before + after[..|after| - 1];
    }
  }

  /** Half-close against any peer: at every point of every run shutdown has been called
      exactly once if standard input has ended and everything read from it has been
      written, and not at all otherwise; and once called, no continuation of the run
      calls it again or writes another byte to the socket. */
  lemma {:induction false} HalfClose(before: seq<Action>, after: seq<Action>)
    ensures var c := Exec(INITIAL, before);
      && c.shut == (if c.stdineof && c.sent == c.got then 1 else 0)
      && (c.shut == 1 ==>
            var d := Exec(INITIAL, before + after); d.shut == 1 && d.sent == c.got == d.got)
  {
    RunKeepsInv(INITIAL, before);
    var c := Exec(INITIAL, before);
    assert c.sent == c.got <==> c.to == [];
    ExecConcat(INITIAL, before, after);
    RunExtends(c, after);
  }

  // ---- How a run ends ----

  // Call i of the run is a read of `fd` that select let through and the kernel answered
  // with `ans`; and the same for a write of a window that is not empty.
  predicate ReadAt(acts: seq<Action>, i: int, fd: Fd, ans: ReadAnswer) {
    && 0 <= i < |acts|
    && var c := Exec(INITIAL, acts[..i]);
       && Enabled(c, acts[i]) && fd in c.rset
       && ((fd == Stdin && acts[i] == ReadStdin(ans)) || (fd == Sock && acts[i] == ReadSock(ans)))
  }

  predicate WriteAt(acts: seq<Action>, i: int, fd: Fd, ans: WriteAnswer) {
    && 0 <= i < |acts|
    && var c := Exec(INITIAL, acts[..i]);
       && Enabled(c, acts[i]) && fd in c.wset
       && ((fd == Stdout && c.fr != [] && acts[i] == WriteStdout(ans))
           || (fd == Sock && c.to != [] && acts[i] == WriteSock(ans)))
  }

  predicate FailAt(acts: seq<Action>, i: int) {
    || ReadAt(acts, i, Stdin, ReadFail) || ReadAt(acts, i, Sock, ReadFail)
    || WriteAt(acts, i, Stdout, WriteFail) || WriteAt(acts, i, Sock, WriteFail)
  }

  // End of file was read on standard input, on the socket after that, or on the socket
  // before.
  ghost predicate InputEnded(acts: seq<Action>) { exists i :: ReadAt(acts, i, Stdin, Eof) }

  ghost predicate PeerClosed(acts: seq<Action>, after: bool) {
    exists i :: ReadAt(acts, i, Sock, Eof) && InputEnded(acts[..i]) == after
  }

  ghost predicate CallFailed(acts: seq<Action>) { exists i :: FailAt(acts, i) }

  lemma SameCalls(acts: seq<Action>, a: Action, i: int)
    requires i < |acts|
    ensures forall fd, ans :: ReadAt(acts + [a], i, fd, ans) == ReadAt(acts, i, fd, ans)
    ensures forall fd, ans :: WriteAt(acts + [a], i, fd, ans) == WriteAt(acts, i, fd, ans)
    ensures i >= 0 ==> (acts + [a])[..i] == acts[..i]
  {
    if i >= 0 { assert (acts + [a])[..i] == acts[..i] && (acts + [a])[i] == acts[i]; }
  }

  predicate Fails(c: Client, a: Action) {
    match a
    case Select(rs, ws) => false
    case ReadStdin(ans) => Stdin in c.rset && ans == ReadFail
    case ReadSock(ans) => Sock in c.rset && ans == ReadFail
    case WriteStdout(ans) => Stdout in c.wset && c.fr != [] && ans == WriteFail
    case WriteSock(ans) => Sock in c.wset && c.to != [] && ans == WriteFail
  }

  lemma LastRead(acts: seq<Action>, a: Action, fd: Fd, ans: ReadAnswer)
    ensures var c := Exec(INITIAL, acts);
      ReadAt(acts + [a], |acts|, fd, ans) <==>
        Enabled(c, a) && fd in c.rset
        && ((fd == Stdin && a == ReadStdin(ans)) || (fd == Sock && a == ReadSock(ans)))
  {
    assert (acts + [a])[..|acts|] == acts;
    hide Enabled, Exec;
  }

  lemma LastWrite(acts: seq<Action>, a: Action, fd: Fd, ans: WriteAnswer)
    ensures var c := Exec(INITIAL, acts);
      WriteAt(acts + [a], |acts|, fd, ans) <==>
        Enabled(c, a) && fd in c.wset
        && ((fd == Stdout && c.fr != [] && a == WriteStdout(ans)) || (fd == Sock && c.to != [] && a == WriteSock(ans)))
  {
    assert (acts + [a])[..|acts|] == acts;
    hide Enabled, Exec;
  }

  lemma LastCall(acts: seq<Action>, a: Action)
    ensures var c := Exec(INITIAL, acts); var n := |acts|;
      && (ReadAt(acts + [a], n, Stdin, Eof) <==> Enabled(c, a) && Stdin in c.rset && a == ReadStdin(Eof))
      && (ReadAt(acts + [a], n, Sock, Eof) <==> Enabled(c, a) && Sock in c.rset && a == ReadSock(Eof))
      && (FailAt(acts + [a], n) <==> Enabled(c, a) && Fails(c, a))
    ensures Exec(INITIAL, acts + [a]) == Step(Exec(INITIAL, acts), a)
  {
    assert (acts + [a])[..|acts|] == acts;
    LastRead(acts, a, Stdin, Eof);
    LastRead(acts, a, Sock, Eof);
    LastRead(acts, a, Stdin, ReadFail);
    LastRead(acts, a, Sock, ReadFail);
    LastWrite(acts, a, Stdout, WriteFail);
    LastWrite(acts, a, Sock, WriteFail);
    hide Enabled, Step, ReadAt, WriteAt;
  }

  lemma StepEnds(c: Client, a: Action)
    ensures var d := Step(c, a);
      && (d.stdineof <==> c.stdineof || (Enabled(c, a) && Stdin in c.rset && a == ReadStdin(Eof)))
      && (d.pc == Returned <==>
            c.pc == Returned || (c.stdineof && Enabled(c, a) && Sock in c.rset && a == ReadSock(Eof)))
      && (d.pc == Premature <==>
            c.pc == Premature || (!c.stdineof && Enabled(c, a) && Sock in c.rset && a == ReadSock(Eof)))
      && (d.pc == Failed <==> c.pc == Failed || (Enabled(c, a) && Fails(c, a)))
  {
  }

  lemma HistorySnoc(acts: seq<Action>, a: Action)
    ensures var more, n := acts + [a], |acts|;
      && (InputEnded(more) <==> InputEnded(acts) || ReadAt(more, n, Stdin, Eof))
      && (forall b :: PeerClosed(more, b) <==>
            PeerClosed(acts, b) || (ReadAt(more, n, Sock, Eof) && InputEnded(acts) == b))
      && (CallFailed(more) <==> CallFailed(acts) || FailAt(more, n))
  {
    var more, n := acts + [a], |acts|;
    assert more[..n] == acts;
    forall i: int | i < n
      ensures ReadAt(more, i, Stdin, Eof) == ReadAt(acts, i, Stdin, Eof)
      ensures ReadAt(more, i, Sock, Eof) == ReadAt(acts, i, Sock, Eof) && FailAt(more, i) == FailAt(acts, i)
      ensures i >= 0 ==> more[..i] == acts[..i]
    {
      SameCalls(acts, a, i);
    }
    hide InputEnded;
  }

  /** How `str_cli` ends, against any peer and any kernel, in terms of the answers of the
      run alone: it returns exactly when end of file is read on the socket after end of
      file on standard input, it exits with "server terminated prematurely" exactly when
      the socket's end of file comes first, and it exits on an error exactly when a call it
      makes fails. */
  lemma {:induction false} EndsExactly(acts: seq<Action>)
    ensures var c := Exec(INITIAL, acts);
      && (c.stdineof <==> InputEnded(acts))
      && (c.pc == Returned <==> PeerClosed(acts, true))
      && (c.pc == Premature <==> PeerClosed(acts, false))
      && (c.pc == Failed <==> CallFailed(acts))
  {
    if acts != [] {
      var front, a := acts[..|acts| - 1], acts[|acts| - 1];
      assert acts == front + [a];
      EndsExactly(front);
      LastCall(front, a);
      HistorySnoc(front, a);
      StepEnds(Exec(INITIAL, front), a);
      hide Step, Exec, Enabled, Fails, FailAt, ReadAt, InputEnded, PeerClosed, CallFailed;
    }
  }

  // In the run every write to standard output that is made takes all it is offered.
  predicate FullWrites(c: Client, acts: seq<Action>) {
    acts == [] ||
    var front, a := acts[..|acts| - 1], acts[|acts| - 1];
    FullWrites(c, front) && FullWrite(Exec(c, front), a)
  }

  predicate FullWrite(c: Client, a: Action) {
    a.WriteStdout? && Stdout in c.wset && c.fr != [] ==> a.wans == Wrote(|c.fr|)
  }

  // Between the read that fills the window and the write that follows it.
  predicate AboutToDrain(c: Client) { c.pc == AtStdout && Stdout in c.wset }

  lemma StepDrains(c: Client, a: Action)
    requires (c.fr != [] ==> AboutToDrain(c)) && FullWrite(c, a)
    ensures var d := Step(c, a); d.fr != [] ==> AboutToDrain(d)
  {
  }

  /** With such writes the window of bytes for standard output is empty at every point but
      the one before the write, so nothing is in it at the return. */
  lemma {:induction false} WindowDrains(acts: seq<Action>)
    requires FullWrites(INITIAL, acts)
    ensures var c := Exec(INITIAL, acts); c.fr != [] ==> AboutToDrain(c)
  {
    if acts != [] {
      var front := acts[..|acts| - 1];
      WindowDrains(front);
      StepDrains(Exec(INITIAL, front), acts[|acts| - 1]);
    }
  }

  // ---- One whole pass, and the loop of passes ----

  // The answers the kernel gives during one pass; those of calls the pass does not make
  // are ignored.
  datatype Answers = Answers(rs: set<Fd>, ws: set<Fd>,
                             stdin: ReadAnswer, sock: ReadAnswer, stdout: WriteAnswer, send: WriteAnswer)

  function PassActions(k: Answers): seq<Action> {
    [Select(k.rs, k.ws), ReadStdin(k.stdin), ReadSock(k.sock), WriteStdout(k.stdout), WriteSock(k.send)]
  }

  function Pass(c: Client, k: Answers): Client {
    Step(Step(Step(Step(Step(c, Select(k.rs, k.ws)), ReadStdin(k.stdin)), ReadSock(k.sock)),
              WriteStdout(k.stdout)), WriteSock(k.send))
  }

  lemma PassIsRun(c: Client, k: Answers)
    ensures Pass(c, k) == Exec(c, PassActions(k))
  {
    var acts := PassActions(k);
    assert acts[..4][..3] == acts[..3] && acts[..3][..2] == acts[..2];
    assert acts[..2][..1] == acts[..1] && acts[..1][..0] == [];
    assert Exec(c, acts[..1]) == Step(c, acts[0]);
    assert Exec(c, acts[..2]) == Step(Exec(c, acts[..1]), acts[1]);
    assert Exec(c, acts[..3]) == Step(Exec(c, acts[..2]), acts[2]);
    assert Exec(c, acts[..4]) == Step(Exec(c, acts[..3]), acts[3]);
  }

  function WasRead(ready: bool, ans: ReadAnswer): seq<Byte> { if ready && ans.Data? then ans.bytes else [] }

  function Written(tried: bool, window: seq<Byte>, ans: WriteAnswer): seq<Byte>
    requires WriteOk(|window|, ans)
  {
    if tried && ans.Wrote? then window[..ans.n] else []
  }

  /** What a pass does: what is read in it joins its window, and a window is offered to its
      descriptor in the same pass if select listed that descriptor or if something has just
      been read into the window. */
  lemma PassDoes(c: Client, k: Answers)
    requires Inv(c) && AnswersOk(c, k) && !Pass(c, k).Finished()
    ensures var d := Pass(c, k);
      var line, reply := WasRead(Stdin in k.rs, k.stdin), WasRead(Sock in k.rs, k.sock);
      && WriteOk(|c.fr + reply|, k.stdout) && WriteOk(|c.to + line|, k.send)
      && d.got == c.got + line && d.recvd == c.recvd + reply
      && d.out == c.out + Written(Stdout in k.ws || reply != [], c.fr + reply, k.stdout)
      && d.sent == c.sent + Written(Sock in k.ws || line != [], c.to + line, k.send)
      && (d.stdineof <==> c.stdineof || (Stdin in k.rs && k.stdin.Eof?))
  {
    ReadsDo(c, k);
    var c3 := Step(Step(Step(c, Select(k.rs, k.ws)), ReadStdin(k.stdin)), ReadSock(k.sock));
    WritesDo(c3, k);
    hide Step, Enabled, AnswersOk, Inv;
  }

  lemma WritesDo(c: Client, k: Answers)
    requires Enabled(c, WriteStdout(k.stdout)) && Enabled(Step(c, WriteStdout(k.stdout)), WriteSock(k.send))
    ensures WriteOk(|c.fr|, k.stdout) && WriteOk(|c.to|, k.send)
    ensures var d := Step(Step(c, WriteStdout(k.stdout)), WriteSock(k.send));
      && d.got == c.got && d.recvd == c.recvd && d.stdineof == c.stdineof
      && d.out == c.out + Written(Stdout in c.wset, c.fr, k.stdout)
      && d.sent == c.sent + Written(Sock in c.wset, c.to, k.send)
  {
    if c.fr == [] { assert c.out + [] == c.out; }
    if c.to == [] { assert c.sent + [] == c.sent; }
  }

  lemma StdinDoes(c: Client, ans: ReadAnswer)
    requires Inv(c) && Enabled(c, ReadStdin(ans)) && !Step(c, ReadStdin(ans)).Finished()
    ensures var d := Step(c, ReadStdin(ans)); var line := WasRead(Stdin in c.rset, ans);
      && d == c.(pc := AtSock, got := c.got + line, to := c.to + line,
                 wset := c.wset + (if line != [] then {Sock} else {}), stdineof := d.stdineof, shut := d.shut)
      && (d.stdineof <==> c.stdineof || (Stdin in c.rset && ans.Eof?))
  {
    if WasRead(Stdin in c.rset, ans) == [] { assert c.got + [] == c.got && c.to + [] == c.to && c.wset + {} == c.wset; }
  }

  lemma SockDoes(c: Client, ans: ReadAnswer)
    requires Inv(c) && Enabled(c, ReadSock(ans)) && !Step(c, ReadSock(ans)).Finished()
    ensures var reply := WasRead(Sock in c.rset, ans);
      Step(c, ReadSock(ans)) == c.(pc := AtStdout, recvd := c.recvd + reply, fr := c.fr + reply,
                                   wset := c.wset + (if reply != [] then {Stdout} else {}))
  {
    if WasRead(Sock in c.rset, ans) == [] {
      assert c.recvd + [] == c.recvd && c.fr + [] == c.fr && c.wset + {} == c.wset;
    }
  }

  lemma ReadsDo(c: Client, k: Answers)
    requires Inv(c) && AnswersOk(c, k) && !Pass(c, k).Finished()
    ensures var c3 := Step(Step(Step(c, Select(k.rs, k.ws)), ReadStdin(k.stdin)), ReadSock(k.sock));
      var line, reply := WasRead(Stdin in k.rs, k.stdin), WasRead(Sock in k.rs, k.sock);
      && c3.got == c.got + line && c3.recvd == c.recvd + reply && c3.to == c.to + line && c3.fr == c.fr + reply
      && c3.sent == c.sent && c3.out == c.out
      && (Stdout in c3.wset <==> Stdout in k.ws || reply != []) && (Sock in c3.wset <==> Sock in k.ws || line != [])
      && (c3.stdineof <==> c.stdineof || (Stdin in k.rs && k.stdin.Eof?))
      && Enabled(c3, WriteStdout(k.stdout)) && Enabled(Step(c3, WriteStdout(k.stdout)), WriteSock(k.send))
  {
    var c1 := Step(c, Select(k.rs, k.ws));
    var c2 := Step(c1, ReadStdin(k.stdin));
    PassStages(c, k);
    assert c1 == c.(pc := AtStdin, rset := k.rs, wset := k.ws);
    StepKeepsInv(c, Select(k.rs, k.ws));
    StepKeepsInv(c1, ReadStdin(k.stdin));
    hide Step, Enabled, Pass, AnswersOk, Inv, WasRead;
    StdinDoes(c1, k.stdin);
    SockDoes(c2, k.sock);
  }

  function Passes(c: Client, script: seq<Answers>): Client {
    if script == [] then c else Pass(Passes(c, script[..|script| - 1]), script[|script| - 1])
  }

  function PassesActions(script: seq<Answers>): seq<Action> {
    if script == [] then [] else PassesActions(script[..|script| - 1]) + PassActions(script[|script| - 1])
  }

  /** Whole passes of the loop are runs of single system calls. */
  lemma {:induction false} PassesAreRuns(c: Client, script: seq<Answers>)
    ensures Passes(c, script) == Exec(c, PassesActions(script))
  {
    if script != [] {
      var front, last := script[..|script| - 1], script[|script| - 1];
      PassesAreRuns(c, front);
      PassIsRun(Passes(c, front), last);
      ExecConcat(c, PassesActions(front), PassActions(last));
    }
  }

  // What the kernel promises about the answers of one pass begun in `c`.
  predicate AnswersOk(c: Client, k: Answers) {
    && Enabled(c, Select(k.rs, k.ws))
    && var c1 := Step(c, Select(k.rs, k.ws));
       && Enabled(c1, ReadStdin(k.stdin))
       && var c2 := Step(c1, ReadStdin(k.stdin));
          && (c2.pc == AtSock ==> Enabled(c2, ReadSock(k.sock)))
          && var c3 := Step(c2, ReadSock(k.sock));
             && (c3.pc == AtStdout ==> Enabled(c3, WriteStdout(k.stdout)))
             && var c4 := Step(c3, WriteStdout(k.stdout));
                (c4.pc == AtSend ==> Enabled(c4, WriteSock(k.send)))
  }

  // The calls of a pass are enabled one after another until one of them leaves the loop.
  lemma PassStages(c: Client, k: Answers)
    requires AnswersOk(c, k)
    ensures var c1 := Step(c, Select(k.rs, k.ws));
      var c2 := Step(c1, ReadStdin(k.stdin));
      var c3 := Step(c2, ReadSock(k.sock));
      var c4 := Step(c3, WriteStdout(k.stdout));
      var c5 := Step(c4, WriteSock(k.send));
      && Enabled(c, Select(k.rs, k.ws))
      && Enabled(c1, ReadStdin(k.stdin))
      && (c2.Finished() || Enabled(c2, ReadSock(k.sock)))
      && (c3.Finished() || Enabled(c3, WriteStdout(k.stdout)))
      && (c4.Finished() || Enabled(c4, WriteSock(k.send)))
      && (c5.Finished() || c5.pc == Head)
      && c5 == Pass(c, k)
      && (c4.Finished() ==> c4 == c5)
      && (c3.Finished() ==> c3 == c5)
      && (c2.Finished() ==> c2 == c5)
  {
  }

  predicate ScriptOk(c: Client, script: seq<Answers>) {
    forall i | 0 <= i < |script| ::
      var d := Passes(c, script[..i]); d.pc == Head ==> AnswersOk(d, script[i])
  }

  lemma {:induction false} FinishedStays(c: Client, script: seq<Answers>, i: nat)
    requires i <= |script| && Passes(c, script[..i]).Finished()
    ensures Passes(c, script) == Passes(c, script[..i])
  {
    if i < |script| {
      var front := script[..|script| - 1];
      assert front[..i] == script[..i];
      FinishedStays(c, front, i);
    } else {
      assert script[..i] == script;
    }
  }

  /** `str_cli` with its two arrays and four cursors. */
  class StrCli {
    const to: array<Byte>
    const fr: array<Byte>
    var toi: nat
    var too: nat
    var fri: nat
    var fro: nat
    var stdineof: bool
    var rset: set<Fd>
    var wset: set<Fd>
    ghost var pc: Pc
    ghost var shut: nat
    ghost var got: seq<Byte>
    ghost var sent: seq<Byte>
    ghost var recvd: seq<Byte>
    ghost var out: seq<Byte>

    ghost predicate Valid()
      reads this
    {
      to != fr && to.Length == MAX_SIZE && fr.Length == MAX_SIZE && too <= toi <= MAX_SIZE && fro <= fri <= MAX_SIZE
    }

    ghost function Abs(): Client
      requires Valid()
      reads this, to, fr
    {
      Client(pc, rset, wset, too, to[too..toi], fro, fr[fro..fri], stdineof, shut, got, sent, recvd, out)
    }

    constructor ()
      ensures Valid() && fresh(to) && fresh(fr) && Abs() == INITIAL
    {
      to, fr := new Byte[MAX_SIZE], new Byte[MAX_SIZE];
      toi, too, fri, fro := 0, 0, 0, 0;
      stdineof, rset, wset := false, {}, {};
      pc, shut, got, sent, recvd, out := Head, 0, [], [], [], [];
    }

    method FillSets(rs: set<Fd>, ws: set<Fd>)
      requires Valid() && Enabled(Abs(), Select(rs, ws))
      modifies this
      ensures Valid() && Abs() == Step(old(Abs()), Select(rs, ws))
    {
      var r: set<Fd>, w: set<Fd> := {}, {};
      if !stdineof && toi < to.Length { r := r + {Stdin}; }
      if fri < fr.Length { r := r + {Sock}; }
      if too != toi { w := w + {Sock}; }
      if fro != fri { w := w + {Stdout}; }
      assert r == Abs().WantsRead() && w == Abs().WantsWrite();
      // select leaves a part of each set
      rset, wset := r * rs, w * ws;
      assert rset == rs && wset == ws;
      pc := AtStdin;
    }

    // A read into the free end of a buffer, and a write from the window of one; a window
    // that becomes empty goes back to the start of its buffer.
    method FillTo(bs: seq<Byte>)
      requires Valid() && toi + |bs| <= to.Length
      modifies this`toi, this`got, to
      ensures Valid() && to[too..toi] == old(to[too..toi]) + bs && fr[..] == old(fr[..]) && got == old(got) + bs
    {
      forall i | 0 <= i < |bs| { to[toi + i] := bs[i]; }
      toi, got := toi + |bs|, got + bs;
      assert to[too..toi] == old(to[too..toi]) + bs;
    }

    method FillFr(bs: seq<Byte>)
      requires Valid() && fri + |bs| <= fr.Length
      modifies this`fri, this`recvd, fr
      ensures Valid() && fr[fro..fri] == old(fr[fro..fri]) + bs && to[..] == old(to[..]) && recvd == old(recvd) + bs
    {
      forall i | 0 <= i < |bs| { fr[fri + i] := bs[i]; }
      fri, recvd := fri + |bs|, recvd + bs;
      assert fr[fro..fri] == old(fr[fro..fri]) + bs;
    }

    method DrainTo(n: nat)
      requires Valid() && n <= toi - too
      modifies this`too, this`toi, this`sent
      ensures Valid() && sent == old(sent) + old(to[too..toi])[..n] && to[too..toi] == old(to[too..toi])[n..]
      ensures too == if n == old(toi - too) then 0 else old(too) + n
    {
      sent := sent + to[too..toi][..n];
      too := too + n;
      if too == toi { too, toi := 0, 0; }
    }

    method DrainFr(n: nat)
      requires Valid() && n <= fri - fro
      modifies this`fro, this`fri, this`out
      ensures Valid() && out == old(out) + old(fr[fro..fri])[..n] && fr[fro..fri] == old(fr[fro..fri])[n..]
      ensures fro == if n == old(fri - fro) then 0 else old(fro) + n
    {
      out := out + fr[fro..fri][..n];
      fro := fro + n;
      if fro == fri { fro, fri := 0, 0; }
    }

    method StdinPhase(ans: ReadAnswer) returns (stop: bool)
      requires Valid() && Enabled(Abs(), ReadStdin(ans))
      modifies this, to
      ensures Valid() && Abs() == Step(old(Abs()), ReadStdin(ans)) && stop == Abs().Finished()
    {
      stop := false;
      if Stdin in rset {
        match ans
        case ReadBlock => pc := AtSock;
        case ReadFail => pc, stop := Failed, true;
        case Eof =>
          stdineof := true;
          if too == toi { shut := shut + 1; }
          pc := AtSock;
        case Data(bs) =>
          FillTo(bs);
          wset := wset + {Sock};
          pc := AtSock;
      } else {
        pc := AtSock;
      }
    }

    method SockPhase(ans: ReadAnswer) returns (stop: bool)
      requires Valid() && Enabled(Abs(), ReadSock(ans))
      modifies this, fr
      ensures Valid() && Abs() == Step(old(Abs()), ReadSock(ans)) && stop == Abs().Finished()
    {
      stop := false;
      if Sock in rset {
        match ans
        case ReadBlock => pc := AtStdout;
        case ReadFail => pc, stop := Failed, true;
        case Eof => pc, stop := if stdineof then Returned else Premature, true;
        case Data(bs) =>
          FillFr(bs);
          wset := wset + {Stdout};
          pc := AtStdout;
      } else {
        pc := AtStdout;
      }
    }

    method StdoutPhase(ans: WriteAnswer) returns (stop: bool)
      requires Valid() && Enabled(Abs(), WriteStdout(ans))
      modifies this
      ensures Valid() && Abs() == Step(old(Abs()), WriteStdout(ans)) && stop == Abs().Finished()
    {
      stop := false;
      var n := fri - fro;
      pc := AtSend;
      if Stdout in wset && n > 0 {
        match ans
        case WriteBlock =>
        case WriteFail => pc, stop := Failed, true;
        case Wrote(nwritten) =>
          DrainFr(nwritten);
      }
    }

    method SendPhase(ans: WriteAnswer) returns (stop: bool)
      requires Valid() && Enabled(Abs(), WriteSock(ans))
      modifies this
      ensures Valid() && Abs() == Step(old(Abs()), WriteSock(ans)) && stop == Abs().Finished()
    {
      stop := false;
      var n := toi - too;
      pc := Head;
      if Sock in wset && n > 0 {
        match ans
        case WriteBlock =>
        case WriteFail => pc, stop := Failed, true;
        case Wrote(nwritten) =>
          DrainTo(nwritten);
          if too == toi && stdineof { shut := shut + 1; }
      }
    }

    // One pass of the loop; `stop` is a return or an exit.
    method OnePass(k: Answers) returns (stop: bool)
      requires Valid() && AnswersOk(Abs(), k)
      modifies this, to, fr
      ensures Valid() && Abs() == Pass(old(Abs()), k) && stop == Abs().Finished() && (stop || Abs().pc == Head)
    {
      PassStages(Abs(), k);
      hide Step, Enabled, AnswersOk, Inv;
      FillSets(k.rs, k.ws);
      stop := StdinPhase(k.stdin);
      if stop { return; }
      stop := SockPhase(k.sock);
      if stop { return; }
      stop := StdoutPhase(k.stdout);
      if stop { return; }
      stop := SendPhase(k.send);
    }

    /** The loop, against a kernel that answers as `script` says, for as long as the
        script lasts or until the loop is left. */
    method Loop(script: seq<Answers>) returns (stop: bool)
      requires Valid() && Abs().pc == Head && ScriptOk(Abs(), script)
      modifies this, to, fr
      ensures Valid() && Abs() == Passes(old(Abs()), script) && stop == Abs().Finished()
    {
      hide AnswersOk, Pass, Enabled;
      stop := false;
      var i := 0;
      while i < |script| && !stop
        invariant 0 <= i <= |script|
        invariant Valid() && Abs() == Passes(old(Abs()), script[..i])
        invariant stop == Abs().Finished() && (stop || Abs().pc == Head)
      {
        assert script[..i + 1][..i] == script[..i];
        stop := OnePass(script[i]);
        i := i + 1;
      }
      if stop { FinishedStays(old(Abs()), script, i); }
      assert script[..|script|] == script;
    }
  }
}
