/**
 The heartbeat protocol: the client of C/heartbeat_cli.c, its connection, and the server
 of C/heartbeat_srv.c, with no assumption about time.  Steps are signal handlers, which
 are atomic, and the calls of the client's main loop between which a signal may arrive.
 */
module Heartbeat {
  import W = Watchdog

  // The client's main loop: calling connect_server, before alarm() and got_reply = 1, in
  // recv, and after recv has returned.
  datatype Pc = Connecting | Fresh | Linked | Ended

  // `armed` is whether an alarm is pending, `live` whether conn_fd is open, `up` and
  // `down` the heartbeats and replies in flight on the current connection, `open` whether
  // the server's end of it is open and `served` whether the server is in recv on it.
  // `sent` and `answered` count this connection's heartbeats and the replies received to
  // them; `alive` counts all replies, `lost` and `notUp` the client's two kinds of report.
  datatype Link = Link(pc: Pc, armed: bool, got: bool, reset: bool, cnt: nat, live: bool,
                       up: nat, down: nat, open: bool, served: bool, watch: W.Watch,
                       sent: nat, answered: nat, alive: nat, lost: nat, notUp: nat)

  const BOOT := Link(Connecting, false, true, false, 0, false, 0, 0, false, false, W.QUIET, 0, 0, 0, 0, 0)

  datatype Action =
    | Connected | Refused        // connect_server
    | Arm                        // alarm() and got_reply = 1; alarms are seconds away
    | RecvReturned               // recv in the client, and got_reply = 0
    | Slept                      // the sleep ends
    | ClientAlarm
    | ClientUrg
    | Accepted
    | ServerUrg
    | StaleUrg                   // a heartbeat of an earlier connection
    | ServerAlarm
    | ServerGone                 // recv in the server returns
    | ServerCrash                // and another server may be started

  predicate Enabled(s: Link, a: Action) {
    match a
    case Connected => s.pc == Connecting
    case Refused => s.pc == Connecting
    case Arm => s.pc == Fresh
    // The replies come before the end of the stream.
    case RecvReturned => s.pc == Linked && (!s.live || (!s.open && s.down == 0))
    case Slept => s.pc == Ended
    case ClientAlarm => s.armed
    case ClientUrg => s.live && s.down > 0
    case Accepted => s.open && !s.served
    case ServerUrg => s.open && s.served && s.up > 0
    case StaleUrg => true
    case ServerAlarm => true
    case ServerGone => s.served && !s.live
    case ServerCrash => true
  }

  function OnClientAlarm(s: Link): Link {
    if s.got then
      s.(got := false, up := if s.live then s.up + 1 else s.up, sent := if s.live then s.sent + 1 else s.sent)
    else
      s.(live := false, lost := if s.reset then s.lost else s.lost + 1, reset := true)
  }

  function OnRefused(s: Link): Link {
    if s.cnt == W.PEER_EXPIRE_CNT && !s.reset then s.(cnt := 0, notUp := s.notUp + 1) else s.(cnt := s.cnt + 1)
  }

  function Next(s: Link, a: Action): Link
    requires Enabled(s, a)
  {
    match a
    case Connected =>
      s.(pc := Fresh, live := true, up := 0, down := 0, open := true, served := false, sent := 0, answered := 0)
    case Refused => OnRefused(s)
    case Arm => s.(pc := Linked, armed := true, got := true)
    case RecvReturned => s.(pc := Ended, got := false)
    case Slept => s.(pc := Connecting)
    case ClientAlarm => OnClientAlarm(s)
    case ClientUrg =>
      s.(down := s.down - 1, answered := s.answered + 1, alive := s.alive + 1, got := true, reset := false)
    case Accepted => s.(served := true)
    case ServerUrg => s.(up := s.up - 1, down := s.down + 1, watch := W.OnBeat(s.watch))
    case StaleUrg => s.(watch := W.OnBeat(s.watch))
    case ServerAlarm => s.(watch := W.OnAlarm(s.watch, W.PEER_EXPIRE_CNT))
    case ServerGone => s.(open := false, served := false, watch := W.OnGone(s.watch))
    case ServerCrash => s.(open := false, served := false, watch := W.QUIET)
  }

  function Step(s: Link, a: Action): Link {
    if Enabled(s, a) then Next(s, a) else s
  }

  function Exec(s: Link, acts: seq<Action>): Link {
    if acts == [] then s else Step(Exec(s, acts[..|acts| - 1]), acts[|acts| - 1])
  }

  // The right to send the next heartbeat, wherever it is.
  function Tokens(s: Link): nat { (if s.got then 1 else 0) + s.up + s.down }

  ghost predicate Inv(s: Link) {
    && Tokens(s) <= 1
    && s.sent == s.answered + s.up + s.down
    && (s.pc == Fresh ==> s.up + s.down == 0 && (s.armed ==> !s.got))
    && (s.pc == Ended || s.pc == Connecting ==> (s.armed ==> !s.got) && (s.live ==> s.down == 0 && !s.open))
    && (s.pc == Linked && s.live ==> Tokens(s) == 1)
    && (s.pc == Linked || s.pc == Ended ==> s.armed)
    && (s.served ==> s.open)
    && s.lost <= s.alive + (if s.reset then 1 else 0)
    && (!s.watch.reset ==> s.watch.cnt <= W.PEER_EXPIRE_CNT)
  }

  lemma LoopKeepsInv(s: Link, a: Action)
    requires Inv(s) && (a.Connected? || a.Refused? || a.Arm? || a.RecvReturned? || a.Slept?)
    ensures Inv(Step(s, a))
  {
  }

  lemma AlarmKeepsInv(s: Link)
    requires Inv(s)
    ensures Inv(Step(s, ClientAlarm))
  {
  }

  lemma ReplyKeepsInv(s: Link)
    requires Inv(s)
    ensures Inv(Step(s, ClientUrg))
  {
  }

  lemma ServerKeepsInv(s: Link, a: Action)
    requires Inv(s) && (a.Accepted? || a.ServerUrg? || a.StaleUrg?)
    ensures Inv(Step(s, a))
  {
  }

  lemma WatchKeepsInv(s: Link, a: Action)
    requires Inv(s) && (a.ServerAlarm? || a.ServerGone? || a.ServerCrash?)
    ensures Inv(Step(s, a))
  {
  }

  lemma StepKeepsInv(s: Link, a: Action)
    requires Inv(s)
    ensures Inv(Step(s, a))
  {
    hide Inv, Step;
    match a
    case ClientAlarm => AlarmKeepsInv(s);
    case ClientUrg => ReplyKeepsInv(s);
    case Accepted => ServerKeepsInv(s, a);
    case ServerUrg => ServerKeepsInv(s, a);
    case StaleUrg => ServerKeepsInv(s, a);
    case ServerAlarm => WatchKeepsInv(s, a);
    case ServerGone => WatchKeepsInv(s, a);
    case ServerCrash => WatchKeepsInv(s, a);
    case _ => LoopKeepsInv(s, a);
  }

  lemma {:induction false} RunKeepsInv(s: Link, acts: seq<Action>)
    requires Inv(s)
    ensures Inv(Exec(s, acts))
  {
    if acts != [] {
      RunKeepsInv(s, acts[..|acts| - 1]);
      StepKeepsInv(Exec(s, acts[..|acts| - 1]), acts[|acts| - 1]);
    }
  }

  lemma {:induction false} Reachable(acts: seq<Action>)
    ensures Inv(Exec(BOOT, acts))
  {
    RunKeepsInv(BOOT, acts);
  }

  /** The token: in every reachable state at most one of "a reply has come", a heartbeat in
      flight and a reply in flight exists, so at most one urgent byte is outstanding in
      either direction and none can overwrite another; a connection's heartbeats are
      exactly its replies plus what is in flight; and while the connection is up the token
      is not lost. */
  lemma {:induction false} OneToken(acts: seq<Action>)
    ensures var s := Exec(BOOT, acts);
      && Tokens(s) <= 1
      && s.sent == s.answered + s.up + s.down <= s.answered + 1
      && (s.pc == Linked && s.live ==> Tokens(s) == 1)
  {
    Reachable(acts);
  }

  /** The client's latch: between two reports of a lost connection the server has been
      heard, so an outage is reported once. */
  lemma {:induction false} OneReportPerOutage(acts: seq<Action>)
    ensures var s := Exec(BOOT, acts); s.lost <= s.alive + if s.reset then 1 else 0
  {
    Reachable(acts);
  }

  lemma LostStep(s: Link)
    requires Inv(s) && Step(s, ClientAlarm).lost > s.lost && s.pc == Linked && s.live
    ensures s.sent == s.answered + 1
  {
  }

  /** A report of a lost connection is made only on evidence: on a connection that is still
      up, the heartbeat of three seconds ago has not been answered. */
  lemma {:induction false} LostMeansUnanswered(acts: seq<Action>)
    requires var s := Exec(BOOT, acts); Step(s, ClientAlarm).lost > s.lost && s.pc == Linked && s.live
    ensures var s := Exec(BOOT, acts); s.sent == s.answered + 1
  {
    Reachable(acts);
    hide Step, Exec;
    LostStep(Exec(BOOT, acts));
  }

  lemma AlarmDecides(s: Link)
    requires Inv(s) && s.pc == Linked && s.live
    ensures Step(s, ClientAlarm).live <==> s.sent == s.answered
    ensures Step(s, ClientAlarm).sent == if s.sent == s.answered then s.sent + 1 else s.sent
  {
  }

  /** What the client's alarm does, in terms of what has passed on the connection: if every
      heartbeat has been answered it sends the next one and keeps the connection, and if
      not it closes it. */
  lemma {:induction false} GivesUpExactly(acts: seq<Action>)
    requires var s := Exec(BOOT, acts); s.pc == Linked && s.live
    ensures var s := Exec(BOOT, acts);
      && (Step(s, ClientAlarm).live <==> s.sent == s.answered)
      && Step(s, ClientAlarm).sent == s.sent + if s.sent == s.answered then 1 else 0
  {
    Reachable(acts);
    hide Step, Exec, Inv;
    AlarmDecides(Exec(BOOT, acts));
  }

  lemma ReportCloses(s: Link, a: Action)
    ensures Step(s, a).lost > s.lost ==> !Step(s, a).live
  {
  }

  // An alarm takes the reply away, and only a reply or a new connection brings it back.
  lemma AlarmSpends(s: Link)
    requires s.armed
    ensures var t := Step(s, ClientAlarm); t.armed && !t.got && (!s.got ==> !t.live)
  {
  }

  lemma NothingComes(s: Link, a: Action)
    requires s.armed && !s.got && a != ClientUrg && a != Arm
    ensures Step(s, a).armed && !Step(s, a).got
  {
  }

  lemma {:induction false} StaysSpent(s: Link, acts: seq<Action>)
    requires s.armed && !s.got && ClientUrg !in acts && Arm !in acts
    ensures Exec(s, acts).armed && !Exec(s, acts).got
  {
    if acts != [] {
      var front, a := acts[..|acts| - 1], acts[|acts| - 1];
      assert a in acts;
      StaysSpent(s, front);
      NothingComes(Exec(s, front), a);
      hide Step;
    }
  }

  lemma RecvReturns(s: Link)
    requires s.pc == Linked && !s.live
    ensures Step(Step(s, RecvReturned), Slept).pc == Connecting
  {
  }

  /** A server that hangs: two of the client's alarms with no reply and no new connection
      between them leave the descriptor closed, whatever else happens, and then a client in
      recv returns from it and comes to connect again without any help from the server. */
  lemma {:induction false} HangIsNoticed(s: Link, between: seq<Action>)
    requires s.armed && ClientUrg !in between && Arm !in between
    ensures var t := Step(Exec(Step(s, ClientAlarm), between), ClientAlarm);
      !t.live && (t.pc == Linked ==> Step(Step(t, RecvReturned), Slept).pc == Connecting)
  {
    var u := Exec(Step(s, ClientAlarm), between);
    AlarmSpends(s);
    StaysSpent(Step(s, ClientAlarm), between);
    AlarmSpends(u);
    hide Step, Exec;
    var t := Step(u, ClientAlarm);
    if t.pc == Linked { RecvReturns(t); }
  }

  // ---- The server in the protocol ----

  // What the present server has seen in a run.
  function ServerEvents(acts: seq<Action>): seq<W.Event> {
    if acts == [] then []
    else
      var front, a := acts[..|acts| - 1], acts[|acts| - 1];
      if !Enabled(Exec(BOOT, front), a) then ServerEvents(front)
      else
        match a
        case ServerUrg => ServerEvents(front) + [W.Beat]
        case StaleUrg => ServerEvents(front) + [W.Beat]
        case ServerAlarm => ServerEvents(front) + [W.Alarm]
        case ServerGone => ServerEvents(front) + [W.Gone]
        case ServerCrash => []
        case _ => ServerEvents(front)
  }

  lemma WatchSnoc(h: seq<W.Event>, e: W.Event)
    ensures W.After(h + [e], W.PEER_EXPIRE_CNT) == W.On(W.After(h, W.PEER_EXPIRE_CNT), e, W.PEER_EXPIRE_CNT)
  {
    assert (h + [e])[..|h + [e]| - 1] == h;
  }

  lemma WatchStep(s: Link, a: Action)
    ensures var w := Step(s, a).watch;
      if !Enabled(s, a) then w == s.watch
      else
        match a
        case ServerUrg => w == W.On(s.watch, W.Beat, W.PEER_EXPIRE_CNT)
        case StaleUrg => w == W.On(s.watch, W.Beat, W.PEER_EXPIRE_CNT)
        case ServerAlarm => w == W.On(s.watch, W.Alarm, W.PEER_EXPIRE_CNT)
        case ServerGone => w == W.On(s.watch, W.Gone, W.PEER_EXPIRE_CNT)
        case ServerCrash => w == W.QUIET
        case _ => w == s.watch
  {
  }

  /** The server's part of a run is a history of module Watchdog, so what is proved of
      histories there holds of the server here. */
  lemma {:induction false} WatchInside(acts: seq<Action>)
    ensures Exec(BOOT, acts).watch == W.After(ServerEvents(acts), W.PEER_EXPIRE_CNT)
  {
    if acts != [] {
      var front, a := acts[..|acts| - 1], acts[|acts| - 1];
      WatchInside(front);
      WatchStep(Exec(BOOT, front), a);
      WatchSnoc(ServerEvents(front), W.Beat);
      WatchSnoc(ServerEvents(front), W.Alarm);
      WatchSnoc(ServerEvents(front), W.Gone);
      assert W.After([], W.PEER_EXPIRE_CNT) == W.QUIET;
      hide Step, Enabled, W.On, W.After;
    }
  }

  // ---- The report that the server is not up ----

  // m failures to connect in a row.
  function Refusals(m: nat): seq<Action> { seq(m, i => Refused) }

  lemma RefusalsRun(s: Link, m: nat)
    ensures Exec(s, Refusals(m)) == if m == 0 then s else Step(Exec(s, Refusals(m - 1)), Refused)
  {
    if m > 0 { assert Refusals(m)[..m - 1] == Refusals(m - 1); }
  }

  lemma RefusedStep(s: Link)
    requires s.pc == Connecting
    ensures Step(s, Refused) == OnRefused(s)
  {
  }

  // `n` failures counted with the latch clear, a report at every turn of the counter.
  function Counted(s: Link, n: nat): Link {
    s.(cnt := n % (W.PEER_EXPIRE_CNT + 1), notUp := s.notUp + n / (W.PEER_EXPIRE_CNT + 1))
  }

  lemma CountedSucc(s: Link, n: nat)
    requires !s.reset
    ensures OnRefused(Counted(s, n)) == Counted(s, n + 1)
  {
    W.ModSucc(n, W.PEER_EXPIRE_CNT + 1);
  }

  lemma CountedStarts(s: Link)
    requires s.cnt <= W.PEER_EXPIRE_CNT
    ensures Counted(s, s.cnt) == s
  {
    W.ModSucc(s.cnt, W.PEER_EXPIRE_CNT + 1);
  }

  lemma {:induction false} RefusedRun(s: Link, m: nat)
    requires s.pc == Connecting && !s.reset && s.cnt <= W.PEER_EXPIRE_CNT
    ensures Exec(s, Refusals(m)) == Counted(s, s.cnt + m)
  {
    hide Step, Exec, OnRefused, Refusals;
    RefusalsRun(s, m);
    if m == 0 {
      CountedStarts(s);
    } else {
      RefusedRun(s, m - 1);
      CountedSucc(s, s.cnt + m - 1);
      RefusedStep(Counted(s, s.cnt + m - 1));
    }
  }

  /** From a clear latch the counter goes round: m failures in a row make
      (cnt + m) / (threshold + 1) reports and leave it at (cnt + m) % (threshold + 1). */
  lemma {:induction false} RefusedClosedForm(s: Link, m: nat)
    requires s.pc == Connecting && !s.reset && s.cnt <= W.PEER_EXPIRE_CNT
    ensures var t := Exec(s, Refusals(m));
      && t.notUp == s.notUp + (s.cnt + m) / (W.PEER_EXPIRE_CNT + 1)
      && t == s.(cnt := (s.cnt + m) % (W.PEER_EXPIRE_CNT + 1), notUp := t.notUp)
  {
    RefusedRun(s, m);
    hide Exec, Refusals;
  }

  /** With the latch set it only goes up. */
  lemma {:induction false} RefusedWhileLatched(s: Link, m: nat)
    requires s.pc == Connecting && s.reset
    ensures Exec(s, Refusals(m)) == s.(cnt := s.cnt + m)
  {
    hide Step, Exec, Refusals;
    RefusalsRun(s, m);
    if m > 0 {
      RefusedWhileLatched(s, m - 1);
      RefusedStep(s.(cnt := s.cnt + m - 1));
    }
  }

  lemma CounterStepsAway(s: Link, a: Action)
    requires s.cnt > W.PEER_EXPIRE_CNT
    ensures Step(s, a).cnt > W.PEER_EXPIRE_CNT && Step(s, a).notUp == s.notUp
  {
    if a.Refused? {
      assert OnRefused(s).cnt == s.cnt + 1;
    } else if a.ClientAlarm? {
      assert OnClientAlarm(s).cnt == s.cnt && OnClientAlarm(s).notUp == s.notUp;
    }
  }

  lemma {:induction false} CounterRunsAway(s: Link, acts: seq<Action>)
    requires s.cnt > W.PEER_EXPIRE_CNT
    ensures Exec(s, acts).cnt > W.PEER_EXPIRE_CNT && Exec(s, acts).notUp == s.notUp
  {
    if acts != [] {
      CounterRunsAway(s, acts[..|acts| - 1]);
      CounterStepsAway(Exec(s, acts[..|acts| - 1]), acts[|acts| - 1]);
      hide Step;
    }
  }

  ghost predicate Leads(s: Link, t: Link) { exists acts :: Exec(s, acts) == t }

  lemma LeadsStep(s: Link, t: Link, a: Action)
    requires Leads(s, t)
    ensures Leads(s, Step(t, a))
  {
    var acts :| Exec(s, acts) == t;
    assert (acts + [a])[..|acts + [a]| - 1] == acts;
    assert Exec(s, acts + [a]) == Step(t, a);
  }

  lemma {:induction false} LeadsRun(s: Link, t: Link, acts: seq<Action>)
    requires Leads(s, t)
    ensures Leads(s, Exec(t, acts))
  {
    if acts != [] {
      LeadsRun(s, t, acts[..|acts| - 1]);
      LeadsStep(s, Exec(t, acts[..|acts| - 1]), acts[|acts| - 1]);
    }
  }

  lemma LeadsNowhere(s: Link)
    ensures Leads(s, s)
  {
    assert Exec(s, []) == s;
  }

  lemma LeadsChain(s: Link, t: Link, u: Link)
    requires Leads(s, t) && Leads(t, u)
    ensures Leads(s, u)
  {
    var acts :| Exec(t, acts) == u;
    LeadsRun(s, t, acts);
  }

  // From any reachable state the client can come to connect again: if it has just
  // connected it goes on to recv ...
  lemma ComesToRecv(s: Link) returns (t: Link)
    requires Inv(s)
    ensures Leads(s, t) && Inv(t) && t.pc != Fresh && t.cnt == s.cnt && t.notUp == s.notUp
  {
    t := Step(s, Arm);
    LoopKeepsInv(s, Arm);
    assert t.pc != Fresh && t.cnt == s.cnt && t.notUp == s.notUp;
    hide Step, Inv;
    LeadsNowhere(s);
    LeadsStep(s, s, Arm);
  }

  // ... and in recv it finds the end of the stream when the server has died.
  lemma ComesToConnect(s: Link) returns (t: Link)
    requires Inv(s) && s.pc != Fresh
    ensures Leads(s, t) && t.pc == Connecting && t.cnt == s.cnt && t.notUp == s.notUp
  {
    var s1 := Step(s, ServerCrash);
    var s2 := Step(s1, ClientUrg);
    var s3 := Step(s2, RecvReturned);
    t := Step(s3, Slept);
    assert s1 == s.(open := false, served := false, watch := W.QUIET);
    assert s2 == if s.live && s.down > 0 then Step(s1, ClientUrg) else s1;
    assert s2.pc == s.pc && s2.live == s.live && !s2.open && (s.pc == Linked && s.live ==> s2.down == 0);
    assert s2.cnt == s.cnt && s2.notUp == s.notUp;
    assert s3 == if s.pc == Linked then s2.(pc := Ended, got := false) else s2;
    assert t == if s3.pc == Ended then s3.(pc := Connecting) else s3;
    hide Step, Inv;
    LeadsNowhere(s);
    LeadsStep(s, s, ServerCrash);
    LeadsStep(s, s1, ClientUrg);
    LeadsStep(s, s2, RecvReturned);
    LeadsStep(s, s3, Slept);
  }

  // One connection on which a heartbeat is answered clears the latch: the heartbeat ...
  lemma HeartbeatCanGo(s: Link) returns (t: Link)
    requires s.pc == Connecting
    ensures Leads(s, t)
    ensures t == s.(pc := Linked, armed := true, got := false, live := true, up := 1, down := 0, open := true,
                    served := false, sent := 1, answered := 0)
  {
    var s1 := s.(pc := Fresh, live := true, up := 0, down := 0, open := true, served := false,
                 sent := 0, answered := 0);
    var s2 := s1.(pc := Linked, armed := true, got := true);
    t := s2.(got := false, up := 1, sent := 1);
    assert Step(s, Connected) == s1;
    assert Step(s1, Arm) == s2;
    assert Step(s2, ClientAlarm) == t;
    hide Step;
    LeadsNowhere(s);
    LeadsStep(s, s, Connected);
    LeadsStep(s, s1, Arm);
    LeadsStep(s, s2, ClientAlarm);
  }

  // ... and the reply.
  lemma ReplyCanCome(s: Link) returns (t: Link)
    requires s.pc == Linked && s.live && s.open && !s.served && s.up == 1 && s.down == 0
    ensures Leads(s, t)
    ensures t == s.(served := true, up := 0, watch := W.OnBeat(s.watch), answered := s.answered + 1,
                    alive := s.alive + 1, got := true, reset := false)
  {
    hide W.OnBeat;
    var s1 := s.(served := true);
    var s2 := s1.(up := 0, down := 1, watch := W.OnBeat(s.watch));
    t := s2.(down := 0, answered := s.answered + 1, alive := s.alive + 1, got := true, reset := false);
    assert Step(s, Accepted) == s1;
    assert Step(s1, ServerUrg) == s2;
    assert Step(s2, ClientUrg) == t;
    hide Step;
    LeadsNowhere(s);
    LeadsStep(s, s, Accepted);
    LeadsStep(s, s1, ServerUrg);
    LeadsStep(s, s2, ClientUrg);
  }

  lemma LatchCanClear(s: Link) returns (t: Link)
    requires s.pc == Connecting
    ensures Leads(s, t) && t.pc == Connecting && !t.reset && t.cnt == s.cnt && t.notUp == s.notUp
  {
    var s1 := HeartbeatCanGo(s);
    var s2 := ReplyCanCome(s1);
    var s3 := s2.(open := false, served := false, watch := W.QUIET);
    var s4 := s3.(pc := Ended, got := false);
    t := s4.(pc := Connecting);
    assert Step(s2, ServerCrash) == s3;
    assert Step(s3, RecvReturned) == s4;
    assert Step(s4, Slept) == t;
    hide Step;
    LeadsChain(s, s1, s2);
    LeadsStep(s, s2, ServerCrash);
    LeadsStep(s, s3, RecvReturned);
    LeadsStep(s, s4, Slept);
  }

  lemma RefusalsReport(s: Link)
    requires s.pc == Connecting && !s.reset && s.cnt <= W.PEER_EXPIRE_CNT
    ensures Exec(s, Refusals(W.PEER_EXPIRE_CNT + 1)).notUp > s.notUp
  {
    RefusedClosedForm(s, W.PEER_EXPIRE_CNT + 1);
    assert (s.cnt + (W.PEER_EXPIRE_CNT + 1)) / (W.PEER_EXPIRE_CNT + 1) >= 1;
    hide Exec, Refusals;
  }

  lemma ReportIsPossible(s: Link)
    requires Inv(s) && s.cnt <= W.PEER_EXPIRE_CNT
    ensures exists acts :: Exec(s, acts).notUp > s.notUp
  {
    hide Exec, Inv, Refusals;
    var r := ComesToRecv(s);
    var t := ComesToConnect(r);
    var u := LatchCanClear(t);
    var refusals := Refusals(W.PEER_EXPIRE_CNT + 1);
    RefusalsReport(u);
    LeadsChain(s, r, t);
    LeadsChain(s, t, u);
    LeadsRun(s, u, refusals);
    var acts :| Exec(s, acts) == Exec(u, refusals);
    assert Exec(s, acts).notUp > s.notUp;
  }

  /** When the "maybe not start up" report still works: from a reachable state some run
      makes it if and only if the counter does not stand past the threshold.  Nothing but
      the report itself ever sets the counter back. */
  lemma {:induction false} NotUpReportedExactly(before: seq<Action>)
    ensures var s := Exec(BOOT, before);
      (exists acts :: Exec(s, acts).notUp > s.notUp) <==> s.cnt <= W.PEER_EXPIRE_CNT
  {
    var s := Exec(BOOT, before);
    Reachable(before);
    if s.cnt <= W.PEER_EXPIRE_CNT {
      ReportIsPossible(s);
    } else {
      forall acts ensures Exec(s, acts).notUp == s.notUp { CounterRunsAway(s, acts); }
    }
  }

  /** How the counter comes to stand there: connecting fails often enough while the
      lost-connection latch is set, and then no later run of failures is ever reported. */
  lemma {:induction false} NotUpCanGoDeaf(s: Link, m: nat, after: seq<Action>)
    requires s.pc == Connecting && s.reset && s.cnt <= W.PEER_EXPIRE_CNT
    ensures var t := Exec(s, Refusals(m));
      s.cnt + m > W.PEER_EXPIRE_CNT ==> Exec(t, after).notUp == s.notUp
  {
    RefusedWhileLatched(s, m);
    if s.cnt + m > W.PEER_EXPIRE_CNT { CounterRunsAway(Exec(s, Refusals(m)), after); }
  }

  /** One lost connection is enough to begin it. */
  lemma DeafnessStarts() returns (s: Link)
    ensures Leads(BOOT, s) && s.pc == Connecting && s.reset && s.cnt == 0 && s.lost == 1 && s.notUp == 0
  {
    var s2 := Step(Step(BOOT, Connected), Arm);
    var s3 := s2.(got := false, up := 1, sent := 1);
    var s4 := s3.(live := false, lost := 1, reset := true);
    assert Step(s2, ClientAlarm) == s3 && Step(s3, ClientAlarm) == s4;
    assert Step(s4, RecvReturned) == s4.(pc := Ended);
    assert Step(s4.(pc := Ended), Slept) == s4.(pc := Connecting);
    hide Step;
    LeadsNowhere(BOOT);
    LeadsStep(BOOT, BOOT, Connected);
    LeadsStep(BOOT, Step(BOOT, Connected), Arm);
    LeadsStep(BOOT, s2, ClientAlarm);
    LeadsStep(BOOT, s3, ClientAlarm);
    LeadsStep(BOOT, s4, RecvReturned);
    LeadsStep(BOOT, s4.(pc := Ended), Slept);
    s := s4.(pc := Connecting);
  }

  /** So a deaf client is reachable: it is connecting, it has never reported that the server
      is not up, and no run from there ever will. */
  lemma DeafClientIsReachable()
    ensures exists acts ::
      var s := Exec(BOOT, acts);
      s.pc == Connecting && s.notUp == 0 && forall after :: Exec(s, after).notUp == 0
  {
    var s := DeafnessStarts();
    var m := W.PEER_EXPIRE_CNT + 1;
    RefusedWhileLatched(s, m);
    LeadsRun(BOOT, s, Refusals(m));
    var acts :| Exec(BOOT, acts) == Exec(s, Refusals(m));
    forall after ensures Exec(Exec(BOOT, acts), after).notUp == 0 { NotUpCanGoDeaf(s, m, after); }
  }

  /** The client's handlers and the calls of its main loop, on the globals they update. */
  class Client {
    var gotReply: bool
    var alreadyReset: bool
    var expireCnt: nat
    var connOpen: bool
    ghost var pc: Pc
    ghost var armed: bool
    ghost var lost: nat
    ghost var notUp: nat

    // The client's part of a state of the protocol.
    ghost predicate Shows(s: Link)
      reads this
    {
      && pc == s.pc && armed == s.armed && gotReply == s.got && alreadyReset == s.reset && expireCnt == s.cnt
      && connOpen == s.live && lost == s.lost && notUp == s.notUp
    }

    constructor ()
      ensures Shows(BOOT)
    {
      gotReply, alreadyReset, expireCnt, connOpen := true, false, 0, false;
      pc, armed, lost, notUp := Connecting, false, 0, 0;
    }

    // SIGURG: `c` is the urgent byte, which is 's' if it comes from the modelled server.
    method SigUrg(c: char, ghost s: Link)
      requires Shows(s) && Enabled(s, ClientUrg)
      modifies this
      ensures Shows(Step(s, ClientUrg).(got := c == 's'))
    {
      gotReply := c == 's';
      alreadyReset := false;
    }

    // SIGALRM: send the next heartbeat if the last was answered, else give up.
    method SigAlrm(ghost s: Link) returns (heartbeat: seq<char>)
      requires Shows(s) && Enabled(s, ClientAlarm)
      modifies this
      ensures Shows(Step(s, ClientAlarm))
      ensures heartbeat == if s.got then "c" else ""
      ensures Step(s, ClientAlarm).up == s.up + if connOpen then |heartbeat| else 0
    {
      heartbeat := "";
      if gotReply {
        heartbeat := "c";
        gotReply := false;
      } else {
        connOpen := false;
        if !alreadyReset {
          lost := lost + 1;
          alreadyReset := true;
        }
      }
    }

    // One turn of the main loop up to recv; `up` says whether connect succeeds.
    method Connect(up: bool, ghost s: Link) returns (reported: bool)
      requires Shows(s) && s.pc == Connecting
      modifies this
      ensures up ==> Shows(Step(s, Connected)) && !reported
      ensures !up ==> Shows(Step(s, Refused)) && (reported <==> Step(s, Refused).notUp == s.notUp + 1)
    {
      reported := false;
      if up {
        connOpen := true;
        pc := Fresh;
      } else {
        var cnt := expireCnt;
        expireCnt := expireCnt + 1;
        if W.PEER_EXPIRE_CNT == cnt && !alreadyReset {
          reported, expireCnt, notUp := true, 0, notUp + 1;
        }
      }
    }

    method StartHeartbeat(ghost s: Link)
      requires Shows(s) && s.pc == Fresh
      modifies this
      ensures Shows(Step(s, Arm))
    {
      armed := true;
      gotReply := true;
      pc := Linked;
    }

    method AfterRecv(ghost s: Link)
      requires Shows(s) && Enabled(s, RecvReturned)
      modifies this
      ensures Shows(Step(s, RecvReturned))
    {
      gotReply := false;
      pc := Ended;
    }
  }
}
