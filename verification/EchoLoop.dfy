/**
 `str_cli` against the echo peer: a closed system of two processes, a finite standard
 input, and two bounded first-in first-out channels.  Steps are single system calls of
 either process, in any interleaving.
 */
module EchoLoop {
  import opened Bytes
  import P = Pump
  import E = Echo

  // `up` and `down` are the bytes in flight to and from the peer.
  datatype Sys = Sys(cli: P.Client, srv: E.Server, stdin: seq<Byte>,
                     up: seq<Byte>, down: seq<Byte>, upCap: nat, downCap: nat)
  {
    // Nobody is left to run: the client has returned or exited.
    predicate Over() { cli.Finished() }

    // The peer has seen all there is to see from the client.
    predicate UpEnded() { up == [] && cli.shut > 0 }

    // Bytes of standard input not yet read.
    function Rest(): nat { if |cli.got| <= |stdin| then |stdin| - |cli.got| else 0 }
  }

  function Start(stdin: seq<Byte>, upCap: nat, downCap: nat): Sys {
    Sys(P.INITIAL, E.FRESH, stdin, [], [], upCap, downCap)
  }

  datatype Action =
    | Client(a: P.Action)
    | PeerRead(n: nat)
    | PeerWrite(n: nat)
    | PeerClose

  // The kernel's side of a client call: what is read is what comes next, end of file is
  // reported only when there is nothing left and never will be, a write fits in the
  // channel, and nothing fails.
  predicate KernelOk(s: Sys, a: P.Action) {
    match a
    case Select(rs, ws) => true
    case ReadStdin(ans) =>
      P.Stdin in s.cli.rset ==>
        && !ans.ReadFail?
        && (ans.Eof? ==> s.Rest() == 0)
        && (ans.Data? ==> |s.cli.got| <= |s.stdin| && ans.bytes <= s.stdin[|s.cli.got|..])
    case ReadSock(ans) =>
      P.Sock in s.cli.rset ==>
        && !ans.ReadFail?
        && (ans.Eof? ==> s.down == [] && s.srv.closed)
        && (ans.Data? ==> ans.bytes <= s.down)
    case WriteStdout(ans) => !ans.WriteFail?
    case WriteSock(ans) => !ans.WriteFail? && (ans.Wrote? ==> |s.up| + ans.n <= s.upCap)
  }

  predicate Enabled(s: Sys, a: Action) {
    match a
    case Client(ca) => P.Enabled(s.cli, ca) && KernelOk(s, ca)
    case PeerRead(n) => !s.srv.closed && s.srv.pend == [] && 0 < n <= |s.up| && n <= E.BUF_LEN - 1
    case PeerWrite(n) => !s.srv.closed && 0 < n <= |s.srv.pend| && |s.down| + n <= s.downCap
    case PeerClose => !s.srv.closed && s.srv.pend == [] && s.UpEnded()
  }

  function Next(s: Sys, a: Action): Sys
    requires Enabled(s, a)
  {
    match a
    case Client(ca) =>
      var c := P.Next(s.cli, ca);
      (match ca
       case ReadSock(ans) =>
         s.(cli := c, down := if P.Sock in s.cli.rset && ans.Data? then s.down[|ans.bytes|..] else s.down)
       case WriteSock(ans) =>
         s.(cli := c, up := if P.Sock in s.cli.wset && ans.Wrote? then s.up + s.cli.to[..ans.n] else s.up)
       case _ => s.(cli := c))
    case PeerRead(n) => s.(srv := E.Take(s.srv, s.up[..n]), up := s.up[n..])
    case PeerWrite(n) => s.(srv := E.Put(s.srv, n), down := s.down + s.srv.pend[..n])
    case PeerClose => s.(srv := E.Close(s.srv))
  }

  function Step(s: Sys, a: Action): Sys {
    if Enabled(s, a) then Next(s, a) else s
  }

  function Exec(s: Sys, acts: seq<Action>): Sys {
    if acts == [] then s else Step(Exec(s, acts[..|acts| - 1]), acts[|acts| - 1])
  }

  // The calls of the client in a run of the system.
  function ClientCalls(s: Sys, acts: seq<Action>): seq<P.Action> {
    if acts == [] then []
    else
      var front, a := acts[..|acts| - 1], acts[|acts| - 1];
      ClientCalls(s, front) + if a.Client? && Enabled(Exec(s, front), a) then [a.a] else []
  }

  lemma StepMovesClient(s: Sys, a: Action)
    ensures Step(s, a).cli == if a.Client? && Enabled(s, a) then P.Step(s.cli, a.a) else s.cli
  {
  }

  /** In the closed system the client makes a run of its own, so all that holds of it
      against any peer holds here. */
  lemma {:induction false} ClientRunsInside(s: Sys, acts: seq<Action>)
    ensures Exec(s, acts).cli == P.Exec(s.cli, ClientCalls(s, acts))
  {
    if acts != [] {
      var front, a := acts[..|acts| - 1], acts[|acts| - 1];
      ClientRunsInside(s, front);
      StepMovesClient(Exec(s, front), a);
      hide Step, Enabled, P.Step;
      var calls := ClientCalls(s, front);
      if a.Client? && Enabled(Exec(s, front), a) {
        assert (calls + [a.a])[..|calls + [a.a]| - 1] == calls;
      } else {
        assert calls + [] == calls;
      }
    }
  }

  // ---- The invariant of the closed system ----

  ghost predicate Flow(s: Sys) {
    && s.cli.got <= s.stdin
    && s.cli.sent == s.srv.rcv + s.up
    && s.srv.rcv == s.srv.wrt + s.srv.pend
    && s.srv.wrt == s.cli.recvd + s.down
  }

  ghost predicate Order(s: Sys) {
    && |s.up| <= s.upCap && |s.down| <= s.downCap
    && (s.cli.stdineof ==> s.cli.got == s.stdin)
    && (s.srv.closed ==> s.cli.shut > 0 && s.up == [] && s.srv.pend == [])
    && s.cli.pc != P.Premature && s.cli.pc != P.Failed
    && (s.cli.pc == P.Returned ==> s.srv.closed && s.down == [])
  }

  ghost predicate Inv(s: Sys) {
    P.Inv(s.cli) && Flow(s) && Order(s)
  }

  lemma StdinKeepsFlow(s: Sys, ans: P.ReadAnswer)
    requires Inv(s) && Enabled(s, Client(P.ReadStdin(ans)))
    ensures Flow(Step(s, Client(P.ReadStdin(ans))))
  {
  }

  lemma SockKeepsFlow(s: Sys, ans: P.ReadAnswer)
    requires Inv(s) && Enabled(s, Client(P.ReadSock(ans)))
    ensures Flow(Step(s, Client(P.ReadSock(ans))))
  {
  }

  lemma WriteKeepsFlow(s: Sys, ans: P.WriteAnswer)
    requires Inv(s) && Enabled(s, Client(P.WriteSock(ans)))
    ensures Flow(Step(s, Client(P.WriteSock(ans))))
  {
  }

  lemma PeerKeepsFlow(s: Sys, n: nat)
    requires Inv(s)
    ensures Enabled(s, PeerRead(n)) ==> Flow(Step(s, PeerRead(n)))
    ensures Enabled(s, PeerWrite(n)) ==> Flow(Step(s, PeerWrite(n)))
  {
  }

  lemma StepKeepsFlow(s: Sys, a: Action)
    requires Inv(s)
    ensures Flow(Step(s, a))
  {
    match a
    case Client(ca) =>
      match ca {
        case ReadStdin(ans) => if Enabled(s, a) { StdinKeepsFlow(s, ans); }
        case ReadSock(ans) => if Enabled(s, a) { SockKeepsFlow(s, ans); }
        case WriteSock(ans) => if Enabled(s, a) { WriteKeepsFlow(s, ans); }
        case _ =>
      }
    case PeerRead(n) => PeerKeepsFlow(s, n);
    case PeerWrite(n) => PeerKeepsFlow(s, n);
    case PeerClose =>
  }

  lemma ClientKeepsOrder(s: Sys, a: P.Action)
    requires Inv(s) && Enabled(s, Client(a)) && P.Inv(P.Step(s.cli, a))
    ensures Order(Next(s, Client(a)))
  {
  }

  lemma StepKeepsInv(s: Sys, a: Action)
    requires Inv(s)
    ensures Inv(Step(s, a))
  {
    StepKeepsFlow(s, a);
    if a.Client? {
      P.StepKeepsInv(s.cli, a.a);
      if Enabled(s, a) { ClientKeepsOrder(s, a.a); }
    }
  }

  lemma {:induction false} RunKeepsInv(s: Sys, acts: seq<Action>)
    requires Inv(s)
    ensures Inv(Exec(s, acts))
  {
    if acts != [] {
      RunKeepsInv(s, acts[..|acts| - 1]);
      StepKeepsInv(Exec(s, acts[..|acts| - 1]), acts[|acts| - 1]);
    }
  }

  /** End-to-end conservation: whatever the interleaving and however the transfers were
      cut up, the bytes taken from standard input are, in order, those on standard output
      followed by those still in `fr`, in flight to the client, held by the peer, in
      flight to the peer, and in `to`.  None is lost, duplicated or reordered. */
  lemma {:induction false} Conservation(stdin: seq<Byte>, upCap: nat, downCap: nat, acts: seq<Action>)
    ensures var s := Exec(Start(stdin, upCap, downCap), acts);
      s.cli.got <= stdin
      && s.cli.got == s.cli.out + s.cli.fr + s.down + s.srv.pend + s.up + s.cli.to
  {
    RunKeepsInv(Start(stdin, upCap, downCap), acts);
    StdinIsFixed(Start(stdin, upCap, downCap), acts);
  }

  lemma {:induction false} StdinIsFixed(s: Sys, acts: seq<Action>)
    ensures Exec(s, acts).stdin == s.stdin && Exec(s, acts).upCap == s.upCap && Exec(s, acts).downCap == s.downCap
  {
    if acts != [] { StdinIsFixed(s, acts[..|acts| - 1]); }
  }

  /** Ordered close: against the echo peer the "server terminated prematurely" exit is
      never taken, and when the client returns the peer has closed after echoing all of
      standard input; the bytes not yet on standard output are those of the `fr` window. */
  lemma {:induction false} OrderedClose(stdin: seq<Byte>, upCap: nat, downCap: nat, acts: seq<Action>)
    ensures var s := Exec(Start(stdin, upCap, downCap), acts);
      && s.cli.pc != P.Premature && s.cli.pc != P.Failed
      && (s.cli.pc == P.Returned ==>
            && s.srv.closed && s.srv.wrt == stdin
            && stdin == s.cli.out + s.cli.fr && |s.cli.fr| <= P.MAX_SIZE
            && (s.cli.out == stdin <==> s.cli.fr == []))
  {
    RunKeepsInv(Start(stdin, upCap, downCap), acts);
    StdinIsFixed(Start(stdin, upCap, downCap), acts);
  }

  /** Complete delivery: if every write to standard output takes all it is offered, then
      whatever else the kernel and the peer do, `str_cli` returns only when all of standard
      input is on standard output. */
  lemma {:induction false} FullWritesDeliver(stdin: seq<Byte>, upCap: nat, downCap: nat, acts: seq<Action>)
    requires P.FullWrites(P.INITIAL, ClientCalls(Start(stdin, upCap, downCap), acts))
    ensures var c := Exec(Start(stdin, upCap, downCap), acts).cli; c.pc == P.Returned ==> c.out == stdin
  {
    var s0 := Start(stdin, upCap, downCap);
    ClientRunsInside(s0, acts);
    P.WindowDrains(ClientCalls(s0, acts));
    OrderedClose(stdin, upCap, downCap, acts);
    hide Exec, P.Exec, ClientCalls, P.FullWrites;
  }

  // ---- Progress ----

  // How far the bytes are from standard output, and what is left to close.
  function Weight(s: Sys): nat {
    6 * s.Rest() + 5 * |s.cli.to| + 4 * |s.up| + 3 * |s.srv.pend| + 2 * |s.down| + |s.cli.fr|
    + (if s.cli.stdineof then 0 else 1) + (if s.srv.closed then 0 else 1) + (if s.Over() then 0 else 1)
  }

  // The calls that move a byte, report an end of file or close.
  predicate Moves(s: Sys, a: Action) {
    && Enabled(s, a)
    && match a
       case Client(ca) =>
         (match ca
          case Select(rs, ws) => false
          case ReadStdin(ans) => P.Stdin in s.cli.rset && !ans.ReadBlock?
          case ReadSock(ans) => P.Sock in s.cli.rset && !ans.ReadBlock?
          case WriteStdout(ans) => P.Stdout in s.cli.wset && ans.Wrote? && ans.n > 0
          case WriteSock(ans) => P.Sock in s.cli.wset && ans.Wrote? && ans.n > 0)
       case _ => true
  }

  lemma StdinMovesWeight(s: Sys, ans: P.ReadAnswer)
    requires Inv(s)
    ensures Weight(Step(s, Client(P.ReadStdin(ans)))) <= Weight(s)
    ensures Moves(s, Client(P.ReadStdin(ans))) ==> Weight(Step(s, Client(P.ReadStdin(ans)))) < Weight(s)
  {
  }

  lemma SockMovesWeight(s: Sys, ans: P.ReadAnswer)
    requires Inv(s)
    ensures Weight(Step(s, Client(P.ReadSock(ans)))) <= Weight(s)
    ensures Moves(s, Client(P.ReadSock(ans))) ==> Weight(Step(s, Client(P.ReadSock(ans)))) < Weight(s)
  {
  }

  lemma OutMovesWeight(s: Sys, ans: P.WriteAnswer)
    requires Inv(s)
    ensures Weight(Step(s, Client(P.WriteStdout(ans)))) <= Weight(s)
    ensures Moves(s, Client(P.WriteStdout(ans))) ==> Weight(Step(s, Client(P.WriteStdout(ans)))) < Weight(s)
  {
  }

  lemma SendMovesWeight(s: Sys, ans: P.WriteAnswer)
    requires Inv(s)
    ensures Weight(Step(s, Client(P.WriteSock(ans)))) <= Weight(s)
    ensures Moves(s, Client(P.WriteSock(ans))) ==> Weight(Step(s, Client(P.WriteSock(ans)))) < Weight(s)
  {
  }

  lemma WeightFalls(s: Sys, a: Action)
    requires Inv(s)
    ensures Weight(Step(s, a)) <= Weight(s)
    ensures Moves(s, a) ==> Weight(Step(s, a)) < Weight(s)
  {
    match a
    case Client(ca) =>
      match ca {
        case ReadStdin(ans) => StdinMovesWeight(s, ans);
        case ReadSock(ans) => SockMovesWeight(s, ans);
        case WriteStdout(ans) => OutMovesWeight(s, ans);
        case WriteSock(ans) => SendMovesWeight(s, ans);
        case _ =>
      }
    case _ =>
  }

  function CountMoves(s: Sys, acts: seq<Action>): nat {
    if acts == [] then 0
    else
      var front := acts[..|acts| - 1];
      CountMoves(s, front) + if Moves(Exec(s, front), acts[|acts| - 1]) then 1 else 0
  }

  /** However many times calls answer EWOULDBLOCK or `select` wakes up for nothing, a run
      contains at most six useful calls per byte of standard input and three more. */
  lemma {:induction false} UsefulCallsAreBounded(stdin: seq<Byte>, upCap: nat, downCap: nat, acts: seq<Action>)
    ensures var s := Start(stdin, upCap, downCap);
      CountMoves(s, acts) + Weight(Exec(s, acts)) <= 6 * |stdin| + 3
  {
    var s := Start(stdin, upCap, downCap);
    if acts != [] {
      var front := acts[..|acts| - 1];
      UsefulCallsAreBounded(stdin, upCap, downCap, front);
      RunKeepsInv(s, front);
      WeightFalls(Exec(s, front), acts[|acts| - 1]);
    }
  }

  // ---- Deadlock freedom and termination ----

  // The descriptors `select` would find ready now.  Standard input is a file, standard
  // output is always writable.
  predicate SockReadable(s: Sys) { s.down != [] || s.srv.closed }

  predicate SockWritable(s: Sys) { |s.up| < s.upCap }

  function ReadyRead(s: Sys): set<P.Fd> {
    set f | f in s.cli.WantsRead() && (f == P.Sock ==> SockReadable(s))
  }

  function ReadyWrite(s: Sys): set<P.Fd> {
    set f | f in s.cli.WantsWrite() && (f == P.Sock ==> SockWritable(s))
  }

  // An honest kernel wakes `select` for a ready descriptor only, answers EWOULDBLOCK only
  // when the call would block, and a write that can take something takes something.
  predicate Honest(s: Sys, a: Action) {
    match a
    case Client(ca) =>
      (match ca
       case Select(rs, ws) => rs <= ReadyRead(s) && ws <= ReadyWrite(s) && (rs != {} || ws != {})
       case ReadStdin(ans) => P.Stdin in s.cli.rset ==> !ans.ReadBlock?
       case ReadSock(ans) => P.Sock in s.cli.rset && SockReadable(s) ==> !ans.ReadBlock?
       case WriteStdout(ans) => P.Stdout in s.cli.wset && s.cli.fr != [] ==> ans.Wrote? && ans.n > 0
       case WriteSock(ans) =>
         P.Sock in s.cli.wset && s.cli.to != [] && SockWritable(s) ==> ans.Wrote? && ans.n > 0)
    case _ => true
  }

  // The rest of this pass is certain to move something.
  predicate Owed(s: Sys) {
    var c := s.cli;
    var send := P.Sock in c.wset && c.to != [] && SockWritable(s);
    var stdout := P.Stdout in c.wset && c.fr != [];
    var sock := P.Sock in c.rset && SockReadable(s);
    match c.pc
    case AtStdin => P.Stdin in c.rset || sock || stdout || send
    case AtSock => sock || stdout || send
    case AtStdout => stdout || send
    case AtSend => send
    case _ => false
  }

  function PhaseRank(s: Sys): nat {
    var late := if Owed(s) then 0 else 5;
    match s.cli.pc
    case Head => 5
    case AtStdin => 4 + late
    case AtSock => 3 + late
    case AtStdout => 2 + late
    case AtSend => 1 + late
    case _ => 0
  }

  function Variant(s: Sys): nat { 10 * Weight(s) + PhaseRank(s) }

  lemma SelectFalls(s: Sys, a: Action)
    requires Inv(s) && Enabled(s, a) && Honest(s, a) && a.Client? && a.a.Select?
    ensures PhaseRank(Step(s, a)) < PhaseRank(s)
  {
  }

  lemma ReadFalls(s: Sys, a: Action)
    requires Enabled(s, a) && Honest(s, a) && !Moves(s, a) && a.Client? && (a.a.ReadStdin? || a.a.ReadSock?)
    ensures PhaseRank(Step(s, a)) < PhaseRank(s)
  {
  }

  lemma WriteFalls(s: Sys, a: Action)
    requires Enabled(s, a) && Honest(s, a) && !Moves(s, a) && a.Client? && (a.a.WriteStdout? || a.a.WriteSock?)
    ensures PhaseRank(Step(s, a)) < PhaseRank(s)
  {
  }

  lemma RankIsSmall(s: Sys)
    ensures PhaseRank(s) < 10
  {
  }

  lemma HonestStepDecreases(s: Sys, a: Action)
    requires Inv(s) && Enabled(s, a) && Honest(s, a)
    ensures Variant(Step(s, a)) < Variant(s)
  {
    WeightFalls(s, a);
    RankIsSmall(s);
    RankIsSmall(Step(s, a));
    if !Moves(s, a) {
      assert a.Client?;
      match a.a {
        case Select(rs, ws) => SelectFalls(s, a);
        case ReadStdin(ans) => ReadFalls(s, a);
        case ReadSock(ans) => ReadFalls(s, a);
        case WriteStdout(ans) => WriteFalls(s, a);
        case WriteSock(ans) => WriteFalls(s, a);
      }
    }
    hide Step, Enabled, Honest, Moves, Inv, Weight, PhaseRank;
  }

  // The next call of an eager kernel: the peer first, then whatever the client waits for.
  function Eager(s: Sys): Action
    requires Inv(s) && !s.Over()
  {
    if s.cli.pc == P.AtStdin then
      Client(P.ReadStdin(if P.Stdin !in s.cli.rset then P.ReadBlock
                         else if s.Rest() == 0 then P.Eof
                         else P.Data([s.stdin[|s.cli.got|]])))
    else if s.cli.pc == P.AtSock then
      Client(P.ReadSock(if P.Sock !in s.cli.rset then P.ReadBlock
                        else if s.down != [] then P.Data([s.down[0]])
                        else if s.srv.closed then P.Eof else P.ReadBlock))
    else if s.cli.pc == P.AtStdout then
      Client(P.WriteStdout(P.Wrote(|s.cli.fr|)))
    else if s.cli.pc == P.AtSend then
      Client(P.WriteSock(if s.cli.to != [] && SockWritable(s) then P.Wrote(1) else P.WriteBlock))
    else if s.srv.closed then Client(P.Select(ReadyRead(s), ReadyWrite(s)))
    else if s.srv.pend != [] && |s.down| < s.downCap then PeerWrite(1)
    else if s.srv.pend == [] && s.up != [] then PeerRead(1)
    else if s.srv.pend == [] && s.UpEnded() then PeerClose
    else Client(P.Select(ReadyRead(s), ReadyWrite(s)))
  }

  lemma EagerIsHonest(s: Sys)
    requires Inv(s) && !s.Over() && s.upCap > 0 && s.downCap > 0
    ensures Enabled(s, Eager(s)) && Honest(s, Eager(s))
  {
    if s.cli.pc == P.Head && Eager(s).Client? {
      if s.cli.fr != [] {
        assert P.Stdout in ReadyWrite(s);
      } else if SockReadable(s) {
        assert P.Sock in ReadyRead(s);
      } else {
        assert s.down == [] && s.srv.pend == [] && s.up == [] && s.cli.shut == 0;
        if s.cli.to != [] { assert P.Sock in ReadyWrite(s); } else { assert P.Stdin in ReadyRead(s); }
      }
    }
  }

  /** Deadlock freedom: with room for one byte in each channel, whatever the kernel has done
      so far, in every state short of the client's return some process has a call that an
      honest kernel completes; in particular the client is never asleep in `select` with
      nothing ready while the peer is stuck too. */
  lemma {:induction false} NeverStuck(stdin: seq<Byte>, upCap: nat, downCap: nat, acts: seq<Action>)
    requires upCap > 0 && downCap > 0
    ensures var s := Exec(Start(stdin, upCap, downCap), acts);
      && (!s.Over() ==> exists a :: Enabled(s, a) && Honest(s, a))
      && (s.cli.pc == P.Head ==>
            ReadyRead(s) != {} || ReadyWrite(s) != {} || exists a: Action :: !a.Client? && Enabled(s, a))
  {
    var s0 := Start(stdin, upCap, downCap);
    RunKeepsInv(s0, acts);
    StdinIsFixed(s0, acts);
    var s := Exec(s0, acts);
    if !s.Over() { EagerIsHonest(s); }
  }

  predicate HonestRun(s: Sys, acts: seq<Action>) {
    acts == [] ||
    var front := acts[..|acts| - 1];
    HonestRun(s, front) && Enabled(Exec(s, front), acts[|acts| - 1]) && Honest(Exec(s, front), acts[|acts| - 1])
  }

  lemma {:induction false} HonestRunDecreases(s: Sys, acts: seq<Action>)
    requires Inv(s) && HonestRun(s, acts)
    ensures |acts| + Variant(Exec(s, acts)) <= Variant(s)
  {
    if acts != [] {
      var front := acts[..|acts| - 1];
      HonestRunDecreases(s, front);
      RunKeepsInv(s, front);
      HonestStepDecreases(Exec(s, front), acts[|acts| - 1]);
    }
  }

  /** Termination under an honest kernel, with no fairness assumption: a run has at most
      60 calls per byte of standard input and 35 more, and one that cannot be continued
      has reached the client's normal return. */
  lemma {:induction false} HonestRunsTerminate(stdin: seq<Byte>, upCap: nat, downCap: nat, acts: seq<Action>)
    requires upCap > 0 && downCap > 0 && HonestRun(Start(stdin, upCap, downCap), acts)
    ensures |acts| <= 60 * |stdin| + 35
    ensures var s := Exec(Start(stdin, upCap, downCap), acts);
      (forall a :: Enabled(s, a) ==> !Honest(s, a)) ==> s.cli.pc == P.Returned
  {
    var s0 := Start(stdin, upCap, downCap);
    HonestRunDecreases(s0, acts);
    RunKeepsInv(s0, acts);
    StdinIsFixed(s0, acts);
    var s := Exec(s0, acts);
    if !s.Over() { EagerIsHonest(s); }
  }

  lemma {:induction false} ExecConcat(s: Sys, before: seq<Action>, after: seq<Action>)
    ensures Exec(s, before + after) == Exec(Exec(s, before), after)
  {
    if after == [] {
      assert before + after == before;
    } else {
      ExecConcat(s, before, after[..|after| - 1]);
      assert (before + after)[..|before + after| - 1] == before + after[..|after| - 1];
    }
  }

  lemma {:induction false} EagerReturns(s: Sys) returns (more: seq<Action>)
    requires Inv(s) && s.upCap > 0 && s.downCap > 0
    ensures Exec(s, more).cli.pc == P.Returned
    decreases Variant(s)
  {
    if s.Over() {
      more := [];
    } else {
      var a := Eager(s);
      EagerIsHonest(s);
      HonestStepDecreases(s, a);
      StepKeepsInv(s, a);
      assert [a][..0] == [] && Exec(s, [a]) == Step(s, a);
      StdinIsFixed(s, [a]);
      var rest := EagerReturns(Step(s, a));
      more := [a] + rest;
      ExecConcat(s, [a], rest);
    }
  }

  /** Every reachable state, however unhelpful the kernel has been so far, can still reach
      the client's normal return. */
  lemma {:induction false} CanAlwaysReturn(stdin: seq<Byte>, upCap: nat, downCap: nat, acts: seq<Action>)
    requires upCap > 0 && downCap > 0
    ensures exists more :: Exec(Start(stdin, upCap, downCap), acts + more).cli.pc == P.Returned
  {
    var s0 := Start(stdin, upCap, downCap);
    RunKeepsInv(s0, acts);
    StdinIsFixed(s0, acts);
    var more := EagerReturns(Exec(s0, acts));
    ExecConcat(s0, acts, more);
  }

  // A run on two bytes of input: the client sends both and the peer echoes them; then
  // end of file on standard input, shutdown, and the peer's close; then the echo is read,
  // half of it is written out, and in the next pass the socket reports end of file.
  function ShortRun(a: Byte, b: Byte): seq<Action> {
    [Client(P.Select({P.Stdin}, {})), Client(P.ReadStdin(P.Data([a, b]))), Client(P.ReadSock(P.ReadBlock)),
     Client(P.WriteStdout(P.WriteBlock)), Client(P.WriteSock(P.Wrote(2))), PeerRead(2), PeerWrite(2),
     Client(P.Select({P.Stdin, P.Sock}, {})), Client(P.ReadStdin(P.Eof)), PeerClose,
     Client(P.ReadSock(P.Data([a, b]))), Client(P.WriteStdout(P.Wrote(1))), Client(P.WriteSock(P.WriteBlock)),
     Client(P.Select({P.Sock}, {P.Stdout})), Client(P.ReadStdin(P.ReadBlock)), Client(P.ReadSock(P.Eof))]
  }

  // The first `k` calls of `acts` are an honest run from `s` to `t`.
  ghost predicate Leads(s: Sys, acts: seq<Action>, k: nat, t: Sys) {
    k <= |acts| && HonestRun(s, acts[..k]) && Exec(s, acts[..k]) == t
  }

  lemma LeadsOn(s: Sys, acts: seq<Action>, k: nat, t: Sys, u: Sys)
    requires Leads(s, acts, k, t) && k < |acts| && Follows(t, acts[k], u)
    ensures Leads(s, acts, k + 1, u)
  {
    assert acts[..k + 1][..k] == acts[..k];
  }

  ghost predicate Follows(t: Sys, a: Action, u: Sys) {
    Enabled(t, a) && Honest(t, a) && Step(t, a) == u
  }

  // The states between the calls of the short run.
  function Stage(a: Byte, b: Byte, i: nat): Sys {
    var s := Start([a, b], 2, 2);
    var c := s.cli;
    var sending := c.(rset := {P.Stdin}, wset := {P.Sock}, to := [a, b], got := [a, b]);
    var closing := c.(rset := {P.Stdin, P.Sock}, wset := {}, got := [a, b], sent := [a, b]);
    var ended := closing.(stdineof := true, shut := 1);
    var draining := ended.(wset := {P.Stdout}, recvd := [a, b], fr := [a, b]);
    var cut := draining.(fr := [b], frOut := 1, out := [a]);
    var echoed := E.Server([], false, [a, b], [a, b]);
    match i
    case 0 => s
    case 1 => s.(cli := c.(pc := P.AtStdin, rset := {P.Stdin}, wset := {}))
    case 2 => s.(cli := sending.(pc := P.AtSock))
    case 3 => s.(cli := sending.(pc := P.AtStdout))
    case 4 => s.(cli := sending.(pc := P.AtSend))
    case 5 => s.(cli := sending.(to := [], sent := [a, b]), up := [a, b])
    case 6 => s.(cli := sending.(to := [], sent := [a, b]), srv := E.Server([a, b], false, [a, b], []))
    case 7 => s.(cli := sending.(to := [], sent := [a, b]), srv := echoed, down := [a, b])
    case 8 => s.(cli := closing.(pc := P.AtStdin), srv := echoed, down := [a, b])
    case 9 => s.(cli := ended.(pc := P.AtSock), srv := echoed, down := [a, b])
    case 10 => s.(cli := ended.(pc := P.AtSock), srv := E.Close(echoed), down := [a, b])
    case 11 => s.(cli := draining.(pc := P.AtStdout), srv := E.Close(echoed))
    case 12 => s.(cli := cut.(pc := P.AtSend), srv := E.Close(echoed))
    case 13 => s.(cli := cut, srv := E.Close(echoed))
    case 14 => s.(cli := cut.(pc := P.AtStdin, rset := {P.Sock}), srv := E.Close(echoed))
    case 15 => s.(cli := cut.(pc := P.AtSock, rset := {P.Sock}), srv := E.Close(echoed))
    case _ => s.(cli := cut.(pc := P.Returned, rset := {P.Sock}), srv := E.Close(echoed))
  }

  lemma ReadBoth(a: Byte, b: Byte, i: nat)
    requires 0 <= i < 3
    ensures Follows(Stage(a, b, i), ShortRun(a, b)[i], Stage(a, b, i + 1))
  {
    if i == 0 { assert P.Stdin in Stage(a, b, 0).cli.WantsRead(); }
  }

  lemma SendBoth(a: Byte, b: Byte, i: nat)
    requires 3 <= i < 5
    ensures Follows(Stage(a, b, i), ShortRun(a, b)[i], Stage(a, b, i + 1))
  {
  }

  lemma EchoBoth(a: Byte, b: Byte, i: nat)
    requires 5 <= i < 7
    ensures Follows(Stage(a, b, i), ShortRun(a, b)[i], Stage(a, b, i + 1))
  {
  }

  lemma ShutDown(a: Byte, b: Byte, i: nat)
    requires 7 <= i < 10
    ensures Follows(Stage(a, b, i), ShortRun(a, b)[i], Stage(a, b, i + 1))
  {
    if i == 7 { assert P.Stdin in Stage(a, b, 7).cli.WantsRead() && P.Sock in Stage(a, b, 7).cli.WantsRead(); }
  }

  lemma DrainHalf(a: Byte, b: Byte, i: nat)
    requires 10 <= i < 13
    ensures Follows(Stage(a, b, i), ShortRun(a, b)[i], Stage(a, b, i + 1))
  {
  }

  lemma ReturnEarly(a: Byte, b: Byte, i: nat)
    requires 13 <= i < 16
    ensures Follows(Stage(a, b, i), ShortRun(a, b)[i], Stage(a, b, i + 1))
  {
    if i == 13 { assert P.Sock in Stage(a, b, 13).cli.WantsRead() && P.Stdout in Stage(a, b, 13).cli.WantsWrite(); }
  }

  lemma ShortRunStep(a: Byte, b: Byte, i: nat)
    requires i < |ShortRun(a, b)|
    ensures Follows(Stage(a, b, i), ShortRun(a, b)[i], Stage(a, b, i + 1))
  {
    assert |ShortRun(a, b)| == 16;
    hide Follows, Stage, ShortRun;
    if i < 3 { ReadBoth(a, b, i); }
    else if i < 5 { SendBoth(a, b, i); }
    else if i < 7 { EchoBoth(a, b, i); }
    else if i < 10 { ShutDown(a, b, i); }
    else if i < 13 { DrainHalf(a, b, i); }
    else { ReturnEarly(a, b, i); }
  }

  lemma ShortRunBegins(a: Byte, b: Byte)
    ensures Leads(Start([a, b], 2, 2), ShortRun(a, b), 0, Stage(a, b, 0))
  {
    hide ShortRun;
  }

  lemma {:induction false} ShortRunLeads(a: Byte, b: Byte, i: nat)
    requires i <= |ShortRun(a, b)|
    ensures Leads(Start([a, b], 2, 2), ShortRun(a, b), i, Stage(a, b, i))
  {
    hide Follows, Stage, Leads, Start, ShortRun;
    if i == 0 {
      ShortRunBegins(a, b);
    } else {
      ShortRunLeads(a, b, i - 1);
      ShortRunStep(a, b, i - 1);
      LeadsOn(Start([a, b], 2, 2), ShortRun(a, b), i - 1, Stage(a, b, i - 1), Stage(a, b, i));
    }
  }

  lemma LeadsWhole(s: Sys, acts: seq<Action>, t: Sys)
    requires Leads(s, acts, |acts|, t)
    ensures HonestRun(s, acts) && Exec(s, acts) == t
  {
    assert acts[..|acts|] == acts;
  }

  lemma LastStage(a: Byte, b: Byte)
    ensures Stage(a, b, 16).cli.pc == P.Returned && Stage(a, b, 16).cli.out == [a] && |ShortRun(a, b)| == 16
  {
  }

  /** Complete delivery to standard output is not promised: with two bytes of input and an
      honest kernel, a short write to standard output followed by end of file on the
      socket makes `str_cli` return with the second byte still in `fr`. */
  lemma OutputCanBeCutShort(a: Byte, b: Byte)
    ensures exists acts ::
      && HonestRun(Start([a, b], 2, 2), acts)
      && Exec(Start([a, b], 2, 2), acts).cli.pc == P.Returned
      && Exec(Start([a, b], 2, 2), acts).cli.out == [a]
  {
    ShortRunLeads(a, b, 16);
    LastStage(a, b);
    hide Stage, Leads, Start, ShortRun, HonestRun, Exec;
    LeadsWhole(Start([a, b], 2, 2), ShortRun(a, b), Stage(a, b, 16));
  }
}
