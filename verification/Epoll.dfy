/**
 The edge-triggered event loop of C/epoll_server.c.

 A step is one system call of the server or one event outside it: a connection arriving
 in the backlog, bytes or end of file arriving on a connection that is waiting, accepted
 or being read, or an error.  Arrivals may fall between any two calls.  The kernel's rule
 for EPOLLET is: an edge is queued when something arrives on a monitored descriptor, or
 when a descriptor that already has something to read is added; `epoll_wait` takes edges
 out of the queue; closing a descriptor removes it and its edge.
 */
module Epoll {
  import opened Bytes

  const MAXEVENTS: nat := 64
  const CHUNK: nat := 512

  // A connection: every byte that has arrived, how many of them have been read, and
  // whether the remote end has closed.
  datatype Conn = Conn(all: seq<Byte>, nread: nat, eof: bool) {
    predicate Pending() { nread < |all| || eof }
  }

  // `bad` is EPOLLERR, EPOLLHUP or a missing EPOLLIN.  `id` says whose event it is; the
  // server sees only the descriptor.
  datatype Event = Event(fd: int, bad: bool, id: nat)

  datatype Write = Write(id: nat, bytes: seq<Byte>)

  datatype Pc = Waiting | Scanning | Accepting | Adding(fd: int) | Reading

  // Connections are numbered by arrival in `peer`.  `conns` maps open descriptors to
  // them, `mon` and `armed` are the descriptors epoll monitors and those with a queued
  // edge.  `evs[i..]` is what is left of the batch, including the event being served.
  // `log` is everything written to standard output and `ended` the connections that were
  // closed because read returned 0.
  datatype St = St(listener: int, peer: seq<Conn>, backlog: seq<nat>, conns: map<int, nat>,
                   mon: set<int>, armed: set<int>, pc: Pc, evs: seq<Event>, i: nat,
                   log: seq<Write>, ended: set<nat>)
  {
    predicate Has(fd: int) { fd in conns && conns[fd] < |peer| }

    function ConnOf(fd: int): Conn
      requires Has(fd)
    {
      peer[conns[fd]]
    }

    function Watching(id: nat): set<int> { set f | f in mon && f in conns && conns[f] == id }

    function Skip(): St { this.(pc := Scanning, i := i + 1) }

    function Close(fd: int): St { this.(conns := conns - {fd}, mon := mon - {fd}, armed := armed - {fd}) }
  }

  // The descriptors a batch of events names.
  function Named(evs: seq<Event>): set<int> { set j | 0 <= j < |evs| :: evs[j].fd }

  function Start(listener: int): St {
    St(listener, [], [], map[], {listener}, {}, Waiting, [], 0, [], {})
  }

  datatype Action =
    | Arrive                             // a connection completes its handshake
    | Data(id: nat, bytes: seq<Byte>)
    | Hangup(id: nat)
    | Fault(fd: int)                     // an error edge
    | Wait(evs: seq<Event>)              // epoll_wait returns
    | Dispatch                           // the batch loop looks at its next event
    | Accept(fd: int)
    | AcceptAgain                        // accept answers EAGAIN
    | AcceptFail                         // accept answers another error
    | Add                                // epoll_ctl(EPOLL_CTL_ADD)
    | Read(n: nat)
    | ReadEof
    | ReadAgain
    | ReadFail

  predicate Enabled(s: St, a: Action) {
    match a
    case Arrive => true
    case Data(id, bs) => id < |s.peer| && !s.peer[id].eof && bs != []
    case Hangup(id) => id < |s.peer| && !s.peer[id].eof
    case Fault(fd) => fd in s.mon
    case Wait(evs) =>
      && s.pc == Waiting && 0 < |evs| <= MAXEVENTS
      && (forall j, k | 0 <= j < k < |evs| :: evs[j].fd != evs[k].fd)
      && (forall j | 0 <= j < |evs| ::
            evs[j].fd in s.armed && (evs[j].fd in s.conns ==> s.conns[evs[j].fd] == evs[j].id))
    case Dispatch => s.pc == Scanning && s.i <= |s.evs|
    case Accept(fd) => s.pc == Accepting && s.backlog != [] && fd >= 0 && fd !in s.conns && fd != s.listener
    case AcceptAgain => s.pc == Accepting && s.backlog == []
    case AcceptFail => s.pc == Accepting
    case Add => s.pc.Adding? && s.Has(s.pc.fd)
    case Read(n) => Current(s) && 0 < n <= CHUNK && s.ConnOf(s.evs[s.i].fd).nread + n <= |s.ConnOf(s.evs[s.i].fd).all|
    case ReadEof =>
      Current(s) && s.ConnOf(s.evs[s.i].fd).eof && s.ConnOf(s.evs[s.i].fd).nread == |s.ConnOf(s.evs[s.i].fd).all|
    case ReadAgain => Current(s) && !s.ConnOf(s.evs[s.i].fd).Pending()
    case ReadFail => Current(s)
  }

  // A connection is being read.
  predicate Current(s: St) { s.pc == Reading && s.i < |s.evs| && s.Has(s.evs[s.i].fd) }

  function Next(s: St, a: Action): St
    requires Enabled(s, a)
  {
    match a
    case Arrive =>
      s.(peer := s.peer + [Conn([], 0, false)], backlog := s.backlog + [|s.peer|],
         armed := s.armed + if s.listener in s.mon then {s.listener} else {})
    case Data(id, bs) =>
      var c := s.peer[id];
      s.(peer := s.peer[id := c.(all := c.all + bs)], armed := s.armed + s.Watching(id))
    case Hangup(id) =>
      s.(peer := s.peer[id := s.peer[id].(eof := true)], armed := s.armed + s.Watching(id))
    case Fault(fd) => s.(armed := s.armed + {fd})
    case Wait(evs) =>
      s.(pc := Scanning, evs := evs, i := 0, armed := s.armed - Named(evs))
    case Dispatch =>
      if s.i == |s.evs| then s.(pc := Waiting)
      else if s.evs[s.i].bad then s.Close(s.evs[s.i].fd).Skip()
      else if s.evs[s.i].fd == s.listener then s.(pc := Accepting)
      else s.(pc := Reading)
    case Accept(fd) =>
      s.(conns := s.conns[fd := s.backlog[0]], backlog := s.backlog[1..], pc := Adding(fd))
    case AcceptAgain => s.Skip()
    case AcceptFail => s.Skip()
    case Add =>
      s.(mon := s.mon + {s.pc.fd}, pc := Accepting,
         armed := s.armed + if s.ConnOf(s.pc.fd).Pending() then {s.pc.fd} else {})
    case Read(n) =>
      var fd := s.evs[s.i].fd;
      var c := s.ConnOf(fd);
      s.(log := s.log + [Write(s.conns[fd], c.all[c.nread..c.nread + n])],
         peer := s.peer[s.conns[fd] := c.(nread := c.nread + n)])
    case ReadEof =>
      var fd := s.evs[s.i].fd;
      s.(ended := s.ended + {s.conns[fd]}).Close(fd).Skip()
    case ReadAgain => s.Skip()
    case ReadFail => s.Close(s.evs[s.i].fd).Skip()
  }

  function Step(s: St, a: Action): St {
    if Enabled(s, a) then Next(s, a) else s
  }

  function Exec(s: St, acts: seq<Action>): St {
    if acts == [] then s else Step(Exec(s, acts[..|acts| - 1]), acts[|acts| - 1])
  }

  // ---- Descriptors: what the batch refers to is open, and no wakeup is lost ----

  // `fd` has an event in the part of the batch that is still to be served.
  predicate Ahead(s: St, fd: int) {
    exists j | s.i <= j < |s.evs| :: s.evs[j].fd == fd
  }

  ghost predicate Tables(s: St) {
    && s.listener !in s.conns
    && s.armed <= s.mon
    && (forall f | f in s.mon :: f in s.conns || f == s.listener)
    && (forall f | f in s.conns :: s.conns[f] < |s.peer| && (f in s.mon || s.pc == Adding(f)))
    && (forall k | 0 <= k < |s.backlog| :: s.backlog[k] < |s.peer|)
    && (s.pc.Adding? ==> s.pc.fd in s.conns && s.pc.fd !in s.mon)
  }

  ghost predicate BatchLive(s: St) {
    && s.i <= |s.evs|
    && (forall j, k | s.i <= j < k < |s.evs| :: s.evs[j].fd != s.evs[k].fd)
    && (forall j | s.i <= j < |s.evs| :: s.evs[j].fd in s.mon)
    && (forall j | s.i <= j < |s.evs| && s.evs[j].fd in s.conns :: s.conns[s.evs[j].fd] == s.evs[j].id)
    && (s.pc == Waiting ==> s.i == |s.evs|)
    && (s.pc == Accepting || s.pc.Adding? ==> s.i < |s.evs| && s.evs[s.i].fd == s.listener)
    && (s.pc == Reading ==> s.i < |s.evs| && s.evs[s.i].fd != s.listener)
  }

  ghost predicate ConnsCovered(s: St) {
    forall f | f in s.mon && s.Has(f) && s.ConnOf(f).Pending() :: f in s.armed || Ahead(s, f)
  }

  ghost predicate ListenerCovered(s: St) {
    s.listener in s.mon && s.backlog != [] ==> s.listener in s.armed || Ahead(s, s.listener)
  }

  ghost predicate Inv(s: St) { Tables(s) && BatchLive(s) && ConnsCovered(s) }

  lemma StepKeepsTables(s: St, a: Action)
    requires Inv(s)
    ensures Tables(Step(s, a))
  {
  }

  lemma StepKeepsBatch(s: St, a: Action)
    requires Inv(s)
    ensures BatchLive(Step(s, a))
  {
  }

  lemma StepKeepsConns(s: St, a: Action)
    requires Inv(s)
    ensures ConnsCovered(Step(s, a))
  {
  }

  lemma StepKeepsInv(s: St, a: Action)
    requires Inv(s)
    ensures Inv(Step(s, a))
  {
    hide Step;
    StepKeepsTables(s, a);
    StepKeepsBatch(s, a);
    StepKeepsConns(s, a);
  }

  lemma {:induction false} RunKeepsInv(listener: int, acts: seq<Action>)
    ensures Inv(Exec(Start(listener), acts))
  {
    if acts != [] {
      RunKeepsInv(listener, acts[..|acts| - 1]);
      StepKeepsInv(Exec(Start(listener), acts[..|acts| - 1]), acts[|acts| - 1]);
    }
  }

  lemma ListenerStays(s: St, a: Action)
    ensures Step(s, a).listener == s.listener
  {
  }

  lemma {:induction false} ListenerIsFixed(s: St, acts: seq<Action>)
    ensures Exec(s, acts).listener == s.listener
  {
    if acts != [] {
      ListenerIsFixed(s, acts[..|acts| - 1]);
      ListenerStays(Exec(s, acts[..|acts| - 1]), acts[|acts| - 1]);
      hide Step;
    }
  }

  // The listener's wakeup has been thrown away in the run: an accept failed for another
  // reason than EAGAIN while somebody was waiting and no edge was queued for the listener,
  // and since then nobody has arrived and the listener has not had an error.
  predicate Missed(s: St, acts: seq<Action>) {
    acts != [] &&
    var front, a := acts[..|acts| - 1], acts[|acts| - 1];
    MissedAfter(Exec(s, front), a, Missed(s, front))
  }

  predicate MissedAfter(s: St, a: Action, before: bool) {
    if !Enabled(s, a) then before
    else
      match a
      case AcceptFail => before || (s.backlog != [] && s.listener !in s.armed)
      case Arrive => false
      case Fault(fd) => before && fd != s.listener
      case _ => before
  }

  ghost predicate ListenerWatched(s: St, missed: bool) {
    s.listener in s.mon ==>
      if missed then s.listener !in s.armed && !Ahead(s, s.listener) else ListenerCovered(s)
  }

  lemma StepKeepsListener(s: St, a: Action, missed: bool)
    requires Inv(s) && ListenerWatched(s, missed)
    ensures ListenerWatched(Step(s, a), MissedAfter(s, a, missed))
  {
  }

  lemma {:induction false} RunWatchesListener(listener: int, acts: seq<Action>)
    ensures ListenerWatched(Exec(Start(listener), acts), Missed(Start(listener), acts))
  {
    if acts != [] {
      var front := acts[..|acts| - 1];
      RunWatchesListener(listener, front);
      RunKeepsInv(listener, front);
      StepKeepsListener(Exec(Start(listener), front), acts[|acts| - 1], Missed(Start(listener), front));
    }
  }

  // What a blocked server must still be told about.
  predicate HasWork(s: St, fd: int) {
    if fd == s.listener then s.backlog != [] else s.Has(fd) && s.ConnOf(fd).Pending()
  }

  /** When the listener wakes the server: in every run, whenever the server is about to
      block in epoll_wait with connections in the backlog, the listener has a queued edge
      if and only if no failing accept has thrown its wakeup away. */
  lemma {:induction false} AcceptFailureExact(listener: int, acts: seq<Action>)
    requires var s := Exec(Start(listener), acts); s.pc == Waiting && listener in s.mon && s.backlog != []
    ensures listener in Exec(Start(listener), acts).armed <==> !Missed(Start(listener), acts)
  {
    var s := Exec(Start(listener), acts);
    RunKeepsInv(listener, acts);
    ListenerIsFixed(Start(listener), acts);
    RunWatchesListener(listener, acts);
    assert !Ahead(s, listener);
  }

  /** No lost wakeup: wherever the arrivals fall, whenever the server is about to block in
      epoll_wait every monitored connection with unread bytes or an unread end of file has
      a queued edge, in every run; and so has a listener with a backlog, in every run in
      which its wakeup was not thrown away.  Such an edge is enough for epoll_wait to
      return. */
  lemma {:induction false} NoLostWakeup(listener: int, acts: seq<Action>, fd: int)
    requires var s := Exec(Start(listener), acts); s.pc == Waiting && fd in s.mon && HasWork(s, fd)
    requires fd != listener || !Missed(Start(listener), acts)
    ensures var s := Exec(Start(listener), acts);
      && fd in s.armed
      && Enabled(s, Wait([Event(fd, false, if fd in s.conns then s.conns[fd] else 0)]))
  {
    RunKeepsInv(listener, acts);
    ListenerIsFixed(Start(listener), acts);
    if fd == listener { AcceptFailureExact(listener, acts); }
  }

  lemma ExecOn(s: St, acts: seq<Action>, k: nat)
    requires k < |acts|
    ensures Exec(s, acts[..k + 1]) == Step(Exec(s, acts[..k]), acts[k])
  {
    assert acts[..k + 1][..k] == acts[..k];
  }

  function StallRun(listener: int): seq<Action> {
    [Arrive, Wait([Event(listener, false, 0)]), Dispatch, AcceptFail, Dispatch]
  }

  function StallStage(listener: int, k: nat): St {
    var s := Start(listener).(peer := [Conn([], 0, false)], backlog := [0], evs := [Event(listener, false, 0)]);
    match k
    case 0 => Start(listener)
    case 1 => s.(armed := {listener}, evs := [])
    case 2 => s.(pc := Scanning)
    case 3 => s.(pc := Accepting)
    case 4 => s.(pc := Scanning, i := 1)
    case _ => s.(i := 1)
  }

  lemma StallStep(listener: int, k: nat)
    requires k < 5
    ensures Step(StallStage(listener, k), StallRun(listener)[k]) == StallStage(listener, k + 1)
  {
    var e := Event(listener, false, 0);
    if k == 1 { assert [e][0].fd in Named([e]); }
  }

  lemma {:induction false} StallReached(listener: int, k: nat)
    requires k <= 5
    ensures Exec(Start(listener), StallRun(listener)[..k]) == StallStage(listener, k)
  {
    if k > 0 {
      StallReached(listener, k - 1);
      StallStep(listener, k - 1);
      hide Step;
      ExecOn(Start(listener), StallRun(listener), k - 1);
    }
  }

  /** It does fail in a reachable state: one connection arrives, accept fails on it, and
      the server blocks with the connection in the backlog and no edge queued at all. */
  lemma ServerCanStall(listener: int)
    ensures exists acts ::
      var s := Exec(Start(listener), acts);
      s.pc == Waiting && s.listener in s.mon && s.backlog == [0] && s.armed == {}
  {
    StallReached(listener, 5);
  }

  lemma StepStalls(s: St, a: Action)
    requires Inv(s) && ListenerWatched(s, true) && a != Arrive && a != Fault(s.listener)
    ensures Step(s, a).backlog == s.backlog && MissedAfter(s, a, true)
  {
    assert s.i < |s.evs| && s.evs[s.i].fd == s.listener ==> Ahead(s, s.listener);
  }

  /** And it lasts: once the wakeup has been thrown away, whatever the connections and the
      server do, nobody is taken out of the backlog until somebody else arrives or the
      listener reports an error. */
  lemma {:induction false} StallLasts(listener: int, before: seq<Action>, after: seq<Action>)
    requires Missed(Start(listener), before) && Arrive !in after && Fault(listener) !in after
    ensures Exec(Start(listener), before + after).backlog == Exec(Start(listener), before).backlog
    ensures Missed(Start(listener), before + after)
  {
    if after == [] {
      assert before + after == before;
    } else {
      var a, acts := after[|after| - 1], before + after[..|after| - 1];
      assert a in after;
      StallLasts(listener, before, after[..|after| - 1]);
      assert (before + after)[..|before + after| - 1] == acts;
      RunKeepsInv(listener, acts);
      RunWatchesListener(listener, acts);
      ListenerIsFixed(Start(listener), acts);
      hide Step, MissedAfter, Inv, ListenerWatched;
      StepStalls(Exec(Start(listener), acts), a);
    }
  }

  /** Batch safety: in every run the event being served and every event after it name a
      descriptor that is open and monitored, and, unless it is the listener, the very
      connection the event was raised for, even when accept has reused a number closed
      earlier in the batch. */
  lemma {:induction false} EventsAreLive(listener: int, acts: seq<Action>, j: nat)
    requires var s := Exec(Start(listener), acts); s.i <= j < |s.evs|
    ensures var s := Exec(Start(listener), acts);
      s.evs[j].fd in s.mon && (s.evs[j].fd != listener ==> s.Has(s.evs[j].fd) && s.conns[s.evs[j].fd] == s.evs[j].id)
  {
    RunKeepsInv(listener, acts);
    ListenerIsFixed(Start(listener), acts);
  }

  // ---- No busy loop ----

  // How often epoll_wait returns in a run, and how many things happen outside the server.
  function Waits(s: St, acts: seq<Action>): nat {
    if acts == [] then 0
    else
      var front, a := acts[..|acts| - 1], acts[|acts| - 1];
      Waits(s, front) + if a.Wait? && Enabled(Exec(s, front), a) then 1 else 0
  }

  predicate IsOutside(a: Action) { a.Arrive? || a.Data? || a.Hangup? || a.Fault? }

  function Outside(acts: seq<Action>): nat {
    if acts == [] then 0 else Outside(acts[..|acts| - 1]) + if IsOutside(acts[|acts| - 1]) then 1 else 0
  }

  // Connections are accepted in the order of arrival, each on a descriptor of its own.
  ghost predicate Numbered(s: St) {
    && |s.backlog| <= |s.peer|
    && (forall k | 0 <= k < |s.backlog| :: s.backlog[k] == |s.peer| - |s.backlog| + k)
    && (forall f | f in s.conns :: s.conns[f] < |s.peer| - |s.backlog|)
    && (forall f, g | f in s.conns && g in s.conns && f != g :: s.conns[f] != s.conns[g])
  }

  lemma StepKeepsNumbers(s: St, a: Action)
    requires Numbered(s)
    ensures Numbered(Step(s, a))
  {
  }

  // The edges queued, and those that the backlog may still bring.
  function Load(s: St): nat { |s.armed| + |s.backlog| + if s.pc.Adding? then 1 else 0 }

  lemma OneMore(xs: set<int>, ys: set<int>)
    requires |ys| <= 1
    ensures |xs + ys| <= |xs| + 1
  {
    assert |xs + ys| == |xs| + |ys| - |xs * ys|;
  }

  lemma Fewer(xs: set<int>, ys: set<int>)
    ensures |xs - ys| <= |xs|
    ensures (exists x :: x in xs && x in ys) ==> |xs - ys| < |xs|
  {
    assert xs == (xs - ys) + (xs * ys);
    if x :| x in xs && x in ys { assert x in xs * ys; }
  }

  // A connection is watched through at most one descriptor.
  lemma OneWatches(s: St, id: nat)
    requires Numbered(s)
    ensures |s.Watching(id)| <= 1
  {
    var watching := s.Watching(id);
    var f: int := if exists g: int :: g in watching then var g: int :| g in watching; g else 0;
    forall g: int | g in watching ensures g in {f} {}
    assert watching <= {f};
    assert watching == {} || watching == {f};
  }

  lemma WaitTakes(s: St, evs: seq<Event>)
    requires Enabled(s, Wait(evs))
    ensures Load(Step(s, Wait(evs))) < Load(s)
  {
    assert evs[0].fd in Named(evs) && evs[0].fd in s.armed;
    Fewer(s.armed, Named(evs));
  }

  lemma ArrivalAdds(s: St)
    ensures Load(Step(s, Arrive)) <= Load(s) + 2
  {
    OneMore(s.armed, if s.listener in s.mon then {s.listener} else {});
  }

  lemma BytesAdd(s: St, a: Action)
    requires Numbered(s) && (a.Data? || a.Hangup?)
    ensures Load(Step(s, a)) <= Load(s) + 1
  {
    OneWatches(s, a.id);
    OneMore(s.armed, s.Watching(a.id));
  }

  lemma FaultAdds(s: St, fd: int)
    ensures Load(Step(s, Fault(fd))) <= Load(s) + 1
  {
    OneMore(s.armed, {fd});
  }

  lemma OutsideAdds(s: St, a: Action)
    requires Numbered(s) && IsOutside(a)
    ensures Load(Step(s, a)) <= Load(s) + 2
  {
    hide Step, Load, Numbered;
    match a
    case Arrive => ArrivalAdds(s);
    case Fault(fd) => FaultAdds(s, fd);
    case _ => BytesAdd(s, a);
  }

  lemma ServerMoves(s: St, a: Action)
    requires !IsOutside(a) && !a.Wait?
    ensures Load(Step(s, a)) <= Load(s)
  {
    if Enabled(s, a) {
      match a
      case Add => OneMore(s.armed, if s.ConnOf(s.pc.fd).Pending() then {s.pc.fd} else {});
      case Dispatch => if s.i < |s.evs| { Fewer(s.armed, {s.evs[s.i].fd}); }
      case ReadEof => Fewer(s.armed, {s.evs[s.i].fd});
      case ReadFail => Fewer(s.armed, {s.evs[s.i].fd});
      case _ =>
    }
  }

  /** The server is woken only for a reason: in every run epoll_wait returns at most twice
      for each thing that has happened outside, once for a connection that arrives and once
      for what it may have sent before it was added. */
  lemma {:induction false} NoBusyLoop(listener: int, acts: seq<Action>)
    ensures Numbered(Exec(Start(listener), acts))
    ensures Waits(Start(listener), acts) + Load(Exec(Start(listener), acts)) <= 2 * Outside(acts)
  {
    if acts != [] {
      var front, a := acts[..|acts| - 1], acts[|acts| - 1];
      var s := Exec(Start(listener), front);
      NoBusyLoop(listener, front);
      StepKeepsNumbers(s, a);
      if IsOutside(a) {
        OutsideAdds(s, a);
      } else if !a.Wait? {
        ServerMoves(s, a);
      } else if Enabled(s, a) {
        WaitTakes(s, a.evs);
      }
      hide Step, Enabled, Load, Numbered, IsOutside;
    }
  }

  // Blocked for good unless something happens outside.
  ghost predicate Idle(s: St) { s.pc == Waiting && forall fd: int :: fd !in s.armed }

  /** Blocked means done: when no edge is queued every monitored connection has been read
      to the end of what has arrived, and nobody is left in the backlog, unless a failing
      accept has thrown the listener's wakeup away. */
  lemma {:induction false} IdleMeansServed(listener: int, acts: seq<Action>)
    requires Idle(Exec(Start(listener), acts))
    ensures var s := Exec(Start(listener), acts);
      && (forall fd | fd in s.mon && s.Has(fd) :: !s.ConnOf(fd).Pending())
      && (listener in s.mon && !Missed(Start(listener), acts) ==> s.backlog == [])
  {
    var s := Exec(Start(listener), acts);
    RunKeepsInv(listener, acts);
    ListenerIsFixed(Start(listener), acts);
    forall fd | fd in s.mon && s.Has(fd) ensures !s.ConnOf(fd).Pending() {
      if s.ConnOf(fd).Pending() { NoLostWakeup(listener, acts, fd); }
    }
    if listener in s.mon && s.backlog != [] { AcceptFailureExact(listener, acts); }
  }

  // Calls of accept and read that fail for another reason than EAGAIN.
  function Failures(acts: seq<Action>): nat {
    if acts == [] then 0
    else
      var a := acts[|acts| - 1];
      Failures(acts[..|acts| - 1]) + if a.AcceptFail? || a.ReadFail? then 1 else 0
  }

  /** Without failing calls the listener's wakeup is never thrown away. */
  lemma {:induction false} NothingMissed(listener: int, acts: seq<Action>)
    requires Failures(acts) == 0
    ensures !Missed(Start(listener), acts)
  {
    if acts != [] { NothingMissed(listener, acts[..|acts| - 1]); }
  }

  // ---- Data: what reaches standard output ----

  // The bytes of connection `id` on standard output, in order.
  function Copied(log: seq<Write>, id: nat): seq<Byte> {
    if log == [] then []
    else
      var last := log[|log| - 1];
      Copied(log[..|log| - 1], id) + if last.id == id then last.bytes else []
  }

  ghost predicate Delivery(s: St) {
    && (forall id | 0 <= id < |s.peer| ::
          s.peer[id].nread <= |s.peer[id].all| && Copied(s.log, id) == s.peer[id].all[..s.peer[id].nread])
    && (forall id: nat | id >= |s.peer| :: Copied(s.log, id) == [])
    && (forall id | id in s.ended :: id < |s.peer| && s.peer[id].eof && s.peer[id].nread == |s.peer[id].all|)
  }

  lemma ReadKeepsDelivery(s: St, n: nat)
    requires Inv(s) && Delivery(s) && Enabled(s, Read(n))
    ensures Delivery(Next(s, Read(n)))
  {
  }

  lemma DataKeepsDelivery(s: St, id: nat, bs: seq<Byte>)
    requires Delivery(s) && Enabled(s, Data(id, bs))
    ensures Delivery(Next(s, Data(id, bs)))
  {
  }

  lemma StepKeepsDelivery(s: St, a: Action)
    requires Inv(s) && Delivery(s)
    ensures Delivery(Step(s, a))
  {
    if Enabled(s, a) {
      match a
      case Data(id, bs) => DataKeepsDelivery(s, id, bs);
      case Read(n) => ReadKeepsDelivery(s, n);
      case _ =>
    }
  }

  lemma {:induction false} RunKeepsDelivery(listener: int, acts: seq<Action>)
    ensures Delivery(Exec(Start(listener), acts))
  {
    if acts != [] {
      var front := acts[..|acts| - 1];
      RunKeepsDelivery(listener, front);
      RunKeepsInv(listener, front);
      StepKeepsDelivery(Exec(Start(listener), front), acts[|acts| - 1]);
    }
  }

  /** Delivery: in every run standard output holds, for each connection, exactly what has
      been read from it, in order, a prefix of what arrived; and for a connection closed
      because read returned 0, everything that ever arrived. */
  lemma {:induction false} Delivered(listener: int, acts: seq<Action>, id: nat)
    requires id < |Exec(Start(listener), acts).peer|
    ensures var s := Exec(Start(listener), acts);
      && Copied(s.log, id) <= s.peer[id].all
      && |Copied(s.log, id)| == s.peer[id].nread
      && (id in s.ended ==> s.peer[id].eof && Copied(s.log, id) == s.peer[id].all)
  {
    RunKeepsDelivery(listener, acts);
  }
}
