/**
 The heartbeat protocol of module Heartbeat against a clock, on one live connection.  The
 client's alarm comes every 3 seconds, the server's every 2 with an arbitrary phase; a
 heartbeat and the reply to it both arrive less than `delay` seconds after the heartbeat
 was sent; `limit` is the server's PEER_EXPIRE_CNT.  Time passes in arbitrary real
 amounts, but never past a pending alarm or an overdue message.
 */
module TimedHeartbeat {
  import W = Watchdog
  import H = Heartbeat

  const CLIENT_INTERVAL: real := 3.0
  const SERVER_INTERVAL: real := 2.0

  // `link` is the state of the protocol without time.  `sentAt` is when the last heartbeat
  // was sent, `seen` whether one has arrived, `last` when the last one arrived and
  // `lastSent` when that one was sent.  `early` counts the reports the server makes on a
  // connection that is up, after the first heartbeat.
  datatype Clock = Clock(now: real, clientNext: real, serverNext: real, link: H.Link, sentAt: real,
                         seen: bool, last: real, lastSent: real, early: nat)

  // The connection has just been set up; the server's counter may stand anywhere.
  function Online(cnt: nat): H.Link {
    H.BOOT.(pc := H.Linked, armed := true, live := true, open := true, served := true, watch := W.Watch(cnt, false, 0))
  }

  function Start(phase: real, cnt: nat): Clock {
    Clock(0.0, CLIENT_INTERVAL, phase, Online(cnt), 0.0, false, 0.0, 0.0, 0)
  }

  datatype Action = Delay(d: real) | ClientAlarm | ServerAlarm | HeartbeatArrives | ReplyArrives

  predicate InFlight(l: H.Link) { l.live && l.up + l.down > 0 }

  predicate Enabled(s: Clock, a: Action, delay: real) {
    match a
    case Delay(d) =>
      && d >= 0.0 && s.now + d <= s.clientNext && s.now + d <= s.serverNext
      && (InFlight(s.link) ==> s.now + d < s.sentAt + delay)
    case ClientAlarm => s.now == s.clientNext && H.Enabled(s.link, H.ClientAlarm)
    case ServerAlarm => s.now == s.serverNext
    case HeartbeatArrives => H.Enabled(s.link, H.ServerUrg)
    case ReplyArrives => H.Enabled(s.link, H.ClientUrg)
  }

  function Next(s: Clock, a: Action, delay: real, limit: nat): Clock
    requires Enabled(s, a, delay)
  {
    match a
    case Delay(d) => s.(now := s.now + d)
    case ClientAlarm =>
      s.(link := H.Next(s.link, H.ClientAlarm), clientNext := s.now + CLIENT_INTERVAL,
         sentAt := if s.link.got then s.now else s.sentAt)
    case ServerAlarm =>
      var w := W.OnAlarm(s.link.watch, limit);
      s.(link := s.link.(watch := w), serverNext := s.now + SERVER_INTERVAL,
         early := s.early + if s.seen && s.link.live && w.reports > s.link.watch.reports then 1 else 0)
    case HeartbeatArrives =>
      s.(link := H.Next(s.link, H.ServerUrg), seen := true, last := s.now, lastSent := s.sentAt)
    case ReplyArrives => s.(link := H.Next(s.link, H.ClientUrg))
  }

  function Step(s: Clock, a: Action, delay: real, limit: nat): Clock {
    if Enabled(s, a, delay) then Next(s, a, delay, limit) else s
  }

  function Exec(s: Clock, acts: seq<Action>, delay: real, limit: nat): Clock {
    if acts == [] then s else Step(Exec(s, acts[..|acts| - 1], delay, limit), acts[|acts| - 1], delay, limit)
  }

  // ---- The protocol without time ----

  // What an action is there; a delay is nothing.
  lemma StepInHeartbeat(s: Clock, a: Action, delay: real)
    ensures var t := Step(s, a, delay, W.PEER_EXPIRE_CNT).link;
      t == s.link || exists b :: t == H.Step(s.link, b)
  {
    if Enabled(s, a, delay) {
      match a
      case Delay(d) =>
      case ClientAlarm => assert Step(s, a, delay, W.PEER_EXPIRE_CNT).link == H.Step(s.link, H.ClientAlarm);
      case ServerAlarm => assert Step(s, a, delay, W.PEER_EXPIRE_CNT).link == H.Step(s.link, H.ServerAlarm);
      case HeartbeatArrives => assert Step(s, a, delay, W.PEER_EXPIRE_CNT).link == H.Step(s.link, H.ServerUrg);
      case ReplyArrives => assert Step(s, a, delay, W.PEER_EXPIRE_CNT).link == H.Step(s.link, H.ClientUrg);
    }
  }

  lemma {:induction false} ServerWaits(cnt: nat)
    requires cnt <= W.PEER_EXPIRE_CNT
    ensures H.Leads(H.BOOT, H.BOOT.(watch := W.Watch(cnt, false, 0)))
  {
    if cnt == 0 {
      H.LeadsNowhere(H.BOOT);
    } else {
      ServerWaits(cnt - 1);
      var s := H.BOOT.(watch := W.Watch(cnt - 1, false, 0));
      assert H.Step(s, H.ServerAlarm) == H.BOOT.(watch := W.Watch(cnt, false, 0));
      hide H.Step;
      H.LeadsStep(H.BOOT, s, H.ServerAlarm);
    }
  }

  lemma OnlineIsReached(cnt: nat)
    requires cnt <= W.PEER_EXPIRE_CNT
    ensures H.Leads(H.BOOT, Online(cnt))
  {
    ServerWaits(cnt);
    var s0 := H.BOOT.(watch := W.Watch(cnt, false, 0));
    var s1 := s0.(pc := H.Fresh, live := true, open := true);
    var s2 := s1.(served := true);
    assert H.Step(s0, H.Connected) == s1;
    assert H.Step(s1, H.Accepted) == s2;
    assert H.Step(s2, H.Arm) == Online(cnt);
    hide H.Step;
    H.LeadsStep(H.BOOT, s0, H.Connected);
    H.LeadsStep(H.BOOT, s1, H.Accepted);
    H.LeadsStep(H.BOOT, s2, H.Arm);
  }

  /** A timed run with the source's threshold is, without its delays, a run of the protocol
      from the start of both programs, so all that is proved there holds here. */
  lemma {:induction false} TimedRunsAreRuns(phase: real, cnt: nat, acts: seq<Action>, delay: real)
    requires cnt <= W.PEER_EXPIRE_CNT
    ensures H.Leads(H.BOOT, Exec(Start(phase, cnt), acts, delay, W.PEER_EXPIRE_CNT).link)
  {
    if acts == [] {
      OnlineIsReached(cnt);
    } else {
      var front, a := acts[..|acts| - 1], acts[|acts| - 1];
      TimedRunsAreRuns(phase, cnt, front, delay);
      var s := Exec(Start(phase, cnt), front, delay, W.PEER_EXPIRE_CNT);
      StepInHeartbeat(s, a, delay);
      hide Step, H.Step, H.Leads;
      var t := Step(s, a, delay, W.PEER_EXPIRE_CNT).link;
      if t != s.link {
        var b :| t == H.Step(s.link, b);
        H.LeadsStep(H.BOOT, s.link, b);
      }
    }
  }

  // ---- No false alarm ----

  // Messages are on time for the client, and `limit` server periods cover the gap between
  // two arrivals.
  predicate Tuned(delay: real, limit: nat) {
    delay <= CLIENT_INTERVAL && CLIENT_INTERVAL + delay <= SERVER_INTERVAL * (limit as real)
  }

  ghost predicate Quiet(s: Clock) {
    && s.link.lost == 0 && s.early == 0
    && s.link.armed && s.link.live && s.link.open && s.link.served && !s.link.reset
    && H.Tokens(s.link) == 1
  }

  ghost predicate OnTime(s: Clock, delay: real) {
    && s.now <= s.clientNext && s.now <= s.serverNext
    && (!s.link.got ==> s.clientNext == s.sentAt + CLIENT_INTERVAL && s.sentAt <= s.now < s.sentAt + delay)
    && (s.seen ==>
          && !s.link.watch.reset
          && s.lastSent <= s.last <= s.now
          && s.clientNext == s.lastSent + (if s.link.up > 0 then 2.0 * CLIENT_INTERVAL else CLIENT_INTERVAL)
          && s.serverNext >= s.last + SERVER_INTERVAL * (s.link.watch.cnt as real))
    && (!s.seen ==> s.link.down == 0)
  }

  ghost predicate Inv(s: Clock, delay: real) { Quiet(s) && OnTime(s, delay) }

  lemma StepKeepsInv(s: Clock, a: Action, delay: real, limit: nat)
    requires 0.0 < delay && Tuned(delay, limit) && Inv(s, delay)
    ensures Inv(Step(s, a, delay, limit), delay)
  {
  }

  lemma {:induction false} TunedRunsAreQuiet(phase: real, cnt: nat, acts: seq<Action>, delay: real, limit: nat)
    requires 0.0 < delay && Tuned(delay, limit) && phase >= 0.0
    ensures Inv(Exec(Start(phase, cnt), acts, delay, limit), delay)
  {
    if acts != [] {
      var front := acts[..|acts| - 1];
      TunedRunsAreQuiet(phase, cnt, front, delay, limit);
      StepKeepsInv(Exec(Start(phase, cnt), front, delay, limit), acts[|acts| - 1], delay, limit);
    }
  }

  /** Heartbeats arrive less than one client period plus the delay apart; with the source's
      intervals and a delay of at most 3 seconds, less than 6. */
  lemma {:induction false} ArrivalGap(phase: real, cnt: nat, acts: seq<Action>, delay: real, limit: nat)
    requires 0.0 < delay && Tuned(delay, limit) && phase >= 0.0
    requires var s := Exec(Start(phase, cnt), acts, delay, limit); s.seen && s.link.up > 0
    ensures var s := Exec(Start(phase, cnt), acts, delay, limit); s.now - s.last < CLIENT_INTERVAL + delay
  {
    TunedRunsAreQuiet(phase, cnt, acts, delay, limit);
  }

  lemma {:induction false} ExecConcat(s: Clock, before: seq<Action>, after: seq<Action>, delay: real, limit: nat)
    ensures Exec(s, before + after, delay, limit) == Exec(Exec(s, before, delay, limit), after, delay, limit)
  {
    if after == [] {
      assert before + after == before;
    } else {
      ExecConcat(s, before, after[..|after| - 1], delay, limit);
      assert (before + after)[..|before + after| - 1] == before + after[..|after| - 1];
    }
  }

  lemma ExecThree(s: Clock, a: Action, b: Action, c: Action, delay: real, limit: nat)
    ensures Exec(s, [a, b, c], delay, limit)
            == Step(Step(Step(s, a, delay, limit), b, delay, limit), c, delay, limit)
  {
    assert [a, b, c][..2] == [a, b] && [a, b][..1] == [a] && [a][..0] == [];
    assert Exec(s, [a], delay, limit) == Step(s, a, delay, limit);
    assert Exec(s, [a, b], delay, limit) == Step(Exec(s, [a], delay, limit), b, delay, limit);
  }

  // Whatever is in flight can be delivered at once, and then time can pass up to the next
  // alarm.
  lemma TimeCanPassTo(s: Clock, time: real, delay: real, limit: nat) returns (t: Clock)
    requires 0.0 < delay && Tuned(delay, limit) && Inv(s, delay)
    requires s.now <= time <= s.clientNext && time <= s.serverNext
    ensures t == Exec(s, [HeartbeatArrives, ReplyArrives, Delay(time - s.now)], delay, limit) && Inv(t, delay)
    ensures t.now == time && t.clientNext == s.clientNext && t.serverNext == s.serverNext
  {
    var s1 := Step(s, HeartbeatArrives, delay, limit);
    StepKeepsInv(s, HeartbeatArrives, delay, limit);
    assert s1.link.up == 0 && s1.now == s.now && s1.clientNext == s.clientNext && s1.serverNext == s.serverNext;
    var s2 := Step(s1, ReplyArrives, delay, limit);
    StepKeepsInv(s1, ReplyArrives, delay, limit);
    assert !InFlight(s2.link) && s2.now == s.now && s2.clientNext == s.clientNext && s2.serverNext == s.serverNext;
    t := Step(s2, Delay(time - s.now), delay, limit);
    StepKeepsInv(s2, Delay(time - s.now), delay, limit);
    assert t == s2.(now := time);
    hide Step, Inv;
    ExecThree(s, HeartbeatArrives, ReplyArrives, Delay(time - s.now), delay, limit);
  }

  // What an alarm due at `next` has before it until `time`.
  function Before(next: real, time: real): real { if next <= time then time - next + CLIENT_INTERVAL else 0.0 }

  lemma TakeAlarm(s: Clock, delay: real, limit: nat) returns (a: Action)
    requires 0.0 < delay && Tuned(delay, limit) && Inv(s, delay) && (s.now == s.clientNext || s.now == s.serverNext)
    ensures var t := Step(s, a, delay, limit);
      && Inv(t, delay) && t.now == s.now
      && forall time :: s.now <= time ==>
           Before(t.clientNext, time) + Before(t.serverNext, time)
           <= Before(s.clientNext, time) + Before(s.serverNext, time) - SERVER_INTERVAL
  {
    a := if s.now == s.clientNext then ClientAlarm else ServerAlarm;
    StepKeepsInv(s, a, delay, limit);
  }

  lemma {:induction false} TimeReaches(s: Clock, time: real, delay: real, limit: nat) returns (more: seq<Action>)
    requires 0.0 < delay && Tuned(delay, limit) && Inv(s, delay) && s.now <= time
    ensures Exec(s, more, delay, limit).now == time && Inv(Exec(s, more, delay, limit), delay)
    decreases Before(s.clientNext, time) + Before(s.serverNext, time)
  {
    var next := if s.clientNext < s.serverNext then s.clientNext else s.serverNext;
    if time <= next {
      var t := TimeCanPassTo(s, time, delay, limit);
      more := [HeartbeatArrives, ReplyArrives, Delay(time - s.now)];
    } else {
      var t := TimeCanPassTo(s, next, delay, limit);
      var a := TakeAlarm(t, delay, limit);
      hide Step, Inv, Tuned;
      var u := Step(t, a, delay, limit);
      var first := [HeartbeatArrives, ReplyArrives, Delay(next - s.now)];
      assert (first + [a])[..|first + [a]| - 1] == first;
      assert Exec(s, first + [a], delay, limit) == u;
      var rest := TimeReaches(u, time, delay, limit);
      more := first + [a] + rest;
      ExecConcat(s, first + [a], rest, delay, limit);
    }
  }

  /** The clock of the model never gets stuck: every run of a tuned system can go on to any
      later time. */
  lemma {:induction false} TimeCanPass(phase: real, cnt: nat, acts: seq<Action>, time: real, delay: real, limit: nat)
    requires 0.0 < delay && Tuned(delay, limit) && phase >= 0.0
    requires time >= Exec(Start(phase, cnt), acts, delay, limit).now
    ensures exists more :: Exec(Start(phase, cnt), acts + more, delay, limit).now == time
  {
    TunedRunsAreQuiet(phase, cnt, acts, delay, limit);
    var more := TimeReaches(Exec(Start(phase, cnt), acts, delay, limit), time, delay, limit);
    ExecConcat(Start(phase, cnt), acts, more, delay, limit);
  }

  lemma ExecOn(s: Clock, acts: seq<Action>, k: nat, delay: real, limit: nat)
    requires k < |acts|
    ensures Exec(s, acts[..k + 1], delay, limit) == Step(Exec(s, acts[..k], delay, limit), acts[k], delay, limit)
  {
    assert acts[..k + 1][..k] == acts[..k];
  }

  const SLOW_REPLY: seq<Action> :=
    [Delay(2.0), ServerAlarm, Delay(1.0), ClientAlarm, Delay(1.0), ServerAlarm, Delay(2.0), ClientAlarm]

  lemma {:induction false} AlarmsAreNotTakenBack(s: Clock, acts: seq<Action>, k: nat, delay: real, limit: nat)
    requires k <= |acts|
    ensures Exec(s, acts[..k], delay, limit).early <= Exec(s, acts, delay, limit).early
  {
    if k < |acts| {
      var front := acts[..|acts| - 1];
      assert front[..k] == acts[..k];
      AlarmsAreNotTakenBack(s, front, k, delay, limit);
    } else {
      assert acts[..k] == acts;
    }
  }

  // A reply that may take more than 3 seconds: the heartbeat of second 3 is unanswered at
  // second 6.
  lemma SlowReplyIsReported(delay: real, limit: nat)
    requires delay > CLIENT_INTERVAL
    ensures Exec(Start(2.0, 0), SLOW_REPLY, delay, limit).link.lost > 0
  {
    var s0, x := Start(2.0, 0), SLOW_REPLY;
    assert x[..0] == [] && x[..8] == x;
    ExecOn(s0, x, 0, delay, limit);
    ExecOn(s0, x, 1, delay, limit);
    ExecOn(s0, x, 2, delay, limit);
    ExecOn(s0, x, 3, delay, limit);
    ExecOn(s0, x, 4, delay, limit);
    ExecOn(s0, x, 5, delay, limit);
    ExecOn(s0, x, 6, delay, limit);
    ExecOn(s0, x, 7, delay, limit);
    hide Exec, W.OnAlarm;
    var s4 := s0.(now := 3.0, serverNext := 4.0, clientNext := 6.0, sentAt := 3.0,
                  link := Online(0).(watch := W.OnAlarm(s0.link.watch, limit), got := false, up := 1, sent := 1));
    assert Exec(s0, x[..4], delay, limit) == s4;
    var s6 := s4.(now := 4.0, serverNext := 6.0, link := s4.link.(watch := W.OnAlarm(s4.link.watch, limit)));
    assert Exec(s0, x[..6], delay, limit) == s6;
  }

  const EAGER_SERVER: seq<Action> :=
    [Delay(1.0), ServerAlarm, Delay(2.0), ClientAlarm, HeartbeatArrives, ServerAlarm, ReplyArrives,
     Delay(2.0), ServerAlarm, Delay(1.0), ClientAlarm, Delay(1.0), ServerAlarm]

  // A limit that is too small for the delay: the heartbeat of second 3 arrives at once and
  // that of second 6 is still on its way at second 7.
  lemma EagerServerReports(delay: real, limit: nat)
    requires 0.0 < delay <= CLIENT_INTERVAL && CLIENT_INTERVAL + delay > SERVER_INTERVAL * (limit as real)
    ensures Exec(Start(1.0, 0), EAGER_SERVER, delay, limit).early > 0
  {
    var s0, x := Start(1.0, 0), EAGER_SERVER;
    assert x[..13] == x;
    assert limit <= 2;
    AlarmsAreNotTakenBack(s0, x, 9, delay, limit);
    AtSecondFive(delay, limit);
    if limit == 2 {
      ExecOn(s0, x, 9, delay, limit);
      ExecOn(s0, x, 10, delay, limit);
      ExecOn(s0, x, 11, delay, limit);
      ExecOn(s0, x, 12, delay, limit);
      hide Exec, Start;
      HeartbeatLate(Exec(s0, x[..9], delay, limit), delay);
    }
  }

  // With a threshold of 2 and the counter there, the next heartbeat is sent but comes too
  // late.
  lemma HeartbeatLate(s: Clock, delay: real)
    requires 1.0 < delay && s.now == 5.0 && s.clientNext == 6.0 && s.serverNext == 7.0 && s.seen
    requires s.link.armed && s.link.live && s.link.got && s.link.up == 0 && s.link.down == 0
    requires !s.link.watch.reset && s.link.watch.cnt == 2
    ensures Step(Step(Step(Step(s, Delay(1.0), delay, 2), ClientAlarm, delay, 2), Delay(1.0), delay, 2),
                 ServerAlarm, delay, 2).early > 0
  {
    var s1 := s.(now := 6.0);
    var s2 := s1.(link := H.Next(s1.link, H.ClientAlarm), clientNext := 9.0, sentAt := 6.0);
    var s3 := s2.(now := 7.0);
    assert Step(s, Delay(1.0), delay, 2) == s1;
    assert Step(s1, ClientAlarm, delay, 2) == s2;
    assert s2.link.watch == s.link.watch && s2.link.live;
    assert Step(s2, Delay(1.0), delay, 2) == s3;
    assert W.OnAlarm(s3.link.watch, 2).reports == s3.link.watch.reports + 1;
  }

  lemma AtSecondFive(delay: real, limit: nat)
    requires 0.0 < delay <= CLIENT_INTERVAL && limit <= 2
    ensures var s := Exec(Start(1.0, 0), EAGER_SERVER[..9], delay, limit);
      if limit < 2 then s.early > 0
      else
        && s.now == 5.0 && s.clientNext == 6.0 && s.serverNext == 7.0 && s.seen
        && s.link.armed && s.link.live && s.link.got && s.link.up == 0 && s.link.down == 0
        && !s.link.watch.reset && s.link.watch.cnt == 2
  {
    var s0, x := Start(1.0, 0), EAGER_SERVER;
    EagerServerStart(delay, limit);
    ExecOn(s0, x, 7, delay, limit);
    ExecOn(s0, x, 8, delay, limit);
    hide Exec, Start;
  }

  lemma FirstHeartbeat(delay: real, limit: nat)
    requires 0.0 < delay <= CLIENT_INTERVAL
    ensures Exec(Start(1.0, 0), EAGER_SERVER[..4], delay, limit)
            == Start(3.0, 0).(now := 3.0, clientNext := 6.0, sentAt := 3.0,
                              link := Online(0).(watch := W.OnAlarm(Online(0).watch, limit), got := false,
                                                 up := 1, sent := 1))
  {
    var s0, x := Start(1.0, 0), EAGER_SERVER;
    assert x[..0] == [];
    ExecOn(s0, x, 0, delay, limit);
    ExecOn(s0, x, 1, delay, limit);
    ExecOn(s0, x, 2, delay, limit);
    ExecOn(s0, x, 3, delay, limit);
    hide Exec, W.OnAlarm;
  }

  // A heartbeat arrives and is answered at once, with a server's alarm between.
  lemma BeatAlarmReply(s: Clock, delay: real, limit: nat)
    requires s.now == s.serverNext && s.link.live && s.link.open && s.link.served && s.link.up == 1 && s.link.down == 0
    ensures var t := Step(Step(Step(s, HeartbeatArrives, delay, limit), ServerAlarm, delay, limit),
                          ReplyArrives, delay, limit);
      && t.now == s.now && t.clientNext == s.clientNext && t.serverNext == s.now + SERVER_INTERVAL && t.seen
      && t.link.live && t.link.armed == s.link.armed && t.link.got && t.link.up == 0 && t.link.down == 0
      && !t.link.watch.reset
      && (if limit == 0 then t.early == s.early + 1 else t.early == s.early && t.link.watch.cnt == 1)
  {
    var s1 := s.(link := s.link.(up := 0, down := 1, watch := W.OnBeat(s.link.watch)), seen := true,
                 last := s.now, lastSent := s.sentAt);
    assert Step(s, HeartbeatArrives, delay, limit) == s1;
    var w := W.OnAlarm(s1.link.watch, limit);
    assert w.reports == s1.link.watch.reports + if limit == 0 then 1 else 0;
    var s2 := s1.(link := s1.link.(watch := w), serverNext := s.now + SERVER_INTERVAL,
                  early := s.early + if limit == 0 then 1 else 0);
    assert Step(s1, ServerAlarm, delay, limit) == s2;
    assert !w.reset && (limit > 0 ==> w.cnt == 1);
    hide W.OnAlarm, W.OnBeat;
  }

  lemma EagerServerStart(delay: real, limit: nat)
    requires 0.0 < delay <= CLIENT_INTERVAL && limit <= 2
    ensures var s := Exec(Start(1.0, 0), EAGER_SERVER[..7], delay, limit);
      && s.now == 3.0 && s.clientNext == 6.0 && s.serverNext == 5.0 && s.seen
      && s.link.armed && s.link.live && s.link.got && s.link.up == 0 && s.link.down == 0 && !s.link.watch.reset
      && (if limit == 0 then s.early == 1 else s.early == 0 && s.link.watch.cnt == 1)
  {
    var s0, x := Start(1.0, 0), EAGER_SERVER;
    FirstHeartbeat(delay, limit);
    ExecOn(s0, x, 4, delay, limit);
    ExecOn(s0, x, 5, delay, limit);
    ExecOn(s0, x, 6, delay, limit);
    BeatAlarmReply(Exec(s0, x[..4], delay, limit), delay, limit);
    hide Exec, Step, W.OnAlarm;
  }

  // No run of the connection raises a false alarm.
  ghost predicate NeverFalse(delay: real, limit: nat) {
    forall phase: real, cnt: nat, acts: seq<Action> | phase >= 0.0 ::
      var s := Exec(Start(phase, cnt), acts, delay, limit); s.link.lost == 0 && s.early == 0
  }

  /** No false alarm: for any delay bound and threshold, no run on a live connection makes
      the client report a lost connection, or the server report its peer once it has been
      heard, if and only if replies are back within one client period and one period plus
      the delay fits in `limit` server periods. */
  lemma {:induction false} NoFalseAlarmExactly(delay: real, limit: nat)
    requires delay > 0.0
    ensures NeverFalse(delay, limit) <==> Tuned(delay, limit)
  {
    if Tuned(delay, limit) {
      forall phase: real, cnt: nat, acts: seq<Action> | phase >= 0.0
        ensures var s := Exec(Start(phase, cnt), acts, delay, limit); s.link.lost == 0 && s.early == 0
      {
        TunedRunsAreQuiet(phase, cnt, acts, delay, limit);
      }
    } else if delay > CLIENT_INTERVAL {
      SlowReplyIsReported(delay, limit);
    } else {
      EagerServerReports(delay, limit);
    }
  }

  /** With the intervals and the threshold of the source that is a delay of at most 3. */
  lemma {:induction false} SourceIsTuned(delay: real)
    requires delay > 0.0
    ensures NeverFalse(delay, W.PEER_EXPIRE_CNT) <==> delay <= 3.0
  {
    NoFalseAlarmExactly(delay, W.PEER_EXPIRE_CNT);
  }
}
