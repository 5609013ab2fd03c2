/**
 The handlers of the heartbeat pair: the watchdog of C/heartbeat_srv.c and the
 stop-and-wait sender of C/heartbeat_cli.c.  Signal handlers run to completion.
 */
module Watchdog {
  // PEER_EXPIRE_CNT; the Android client of the repository uses 10.
  const PEER_EXPIRE_CNT: nat := 3

  // ---- The server: expire_cnt, already_reset, and the alarm reports made ----

  datatype Watch = Watch(cnt: nat, reset: bool, reports: nat)

  datatype Event = Beat | Alarm | Gone

  function OnBeat(w: Watch): Watch { w.(cnt := 0, reset := false) }

  // The counter is incremented after the comparison, and a report sets it back to 0.
  function OnAlarm(w: Watch, limit: nat): Watch {
    if w.cnt == limit && !w.reset then w.(cnt := 0, reports := w.reports + 1) else w.(cnt := w.cnt + 1)
  }

  // The accept loop found the connection shut down.
  function OnGone(w: Watch): Watch { w.(reset := true) }

  function On(w: Watch, e: Event, limit: nat): Watch {
    match e
    case Beat => OnBeat(w)
    case Alarm => OnAlarm(w, limit)
    case Gone => OnGone(w)
  }

  const QUIET := Watch(0, false, 0)

  function Run(w: Watch, h: seq<Event>, limit: nat): Watch {
    if h == [] then w else On(Run(w, h[..|h| - 1], limit), h[|h| - 1], limit)
  }

  function After(h: seq<Event>, limit: nat): Watch { Run(QUIET, h, limit) }

  // Alarms since the last heartbeat, and whether the peer has gone since.
  function Alarms(h: seq<Event>): nat {
    if h == [] || h[|h| - 1].Beat? then 0
    else Alarms(h[..|h| - 1]) + if h[|h| - 1].Alarm? then 1 else 0
  }

  predicate GoneSince(h: seq<Event>) {
    h != [] && !h[|h| - 1].Beat? && (h[|h| - 1].Gone? || GoneSince(h[..|h| - 1]))
  }

  lemma ModSucc(x: nat, m: nat)
    requires m > 0
    ensures (x + 1) % m == if x % m == m - 1 then 0 else x % m + 1
    ensures (x + 1) / m == if x % m == m - 1 then x / m + 1 else x / m
    ensures x < m ==> x % m == x && x / m == 0
  {
    var q, r := x / m, x % m;
    assert x == m * q + r;
    if x < m { DivUnique(x, m, 0, x); }
    if r == m - 1 {
      assert x + 1 == m * (q + 1) + 0;
      DivUnique(x + 1, m, q + 1, 0);
    } else {
      assert x + 1 == m * q + (r + 1);
      DivUnique(x + 1, m, q, r + 1);
    }
  }

  lemma {:induction false} MulGap(m: nat, p: nat, q: nat)
    requires p < q
    ensures m * q >= m * p + m
  {
    if p + 1 < q {
      MulGap(m, p, q - 1);
    }
    assert m * q == m * (q - 1) + m;
  }

  lemma DivUnique(x: nat, m: nat, q: nat, r: nat)
    requires m > 0 && x == m * q + r && r < m
    ensures x / m == q && x % m == r
  {
    var p, t := x / m, x % m;
    assert x == m * p + t;
    if q > p {
      MulGap(m, p, q);
    } else if q < p {
      MulGap(m, q, p);
    }
  }

  // The number of alarms since the last report or heartbeat.
  function Pending(h: seq<Event>, limit: nat): nat { Alarms(h) % (limit + 1) }

  lemma PendingSucc(h: seq<Event>, e: Event, limit: nat)
    ensures Pending(h, limit) <= limit
    ensures Pending(h + [e], limit)
            == match e
               case Beat => 0
               case Gone => Pending(h, limit)
               case Alarm => if Pending(h, limit) == limit then 0 else Pending(h, limit) + 1
  {
    assert (h + [e])[..|h + [e]| - 1] == h;
    ModSucc(Alarms(h), limit + 1);
    ModSucc(0, limit + 1);
  }

  lemma {:induction false} LatchAndCounter(h: seq<Event>, limit: nat)
    ensures After(h, limit).reset == GoneSince(h)
    ensures !GoneSince(h) ==> After(h, limit).cnt == Pending(h, limit) <= limit
  {
    if h == [] {
      ModSucc(0, limit + 1);
    } else {
      var front, e := h[..|h| - 1], h[|h| - 1];
      assert h == front + [e];
      LatchAndCounter(front, limit);
      PendingSucc(front, e, limit);
      hide Pending;
    }
  }

  /** The watchdog in terms of its history alone: the latch says whether the peer has gone
      since the last heartbeat; while it has not, the counter is the number of alarms since
      then, modulo limit + 1, so it never exceeds the limit; and an alarm reports exactly
      when the latch is clear and that many alarms have passed. */
  lemma {:induction false} WatchdogHistory(h: seq<Event>, limit: nat)
    ensures After(h, limit).reset == GoneSince(h)
    ensures !GoneSince(h) ==> After(h, limit).cnt == Alarms(h) % (limit + 1) <= limit
    ensures After(h + [Alarm], limit).reports == After(h, limit).reports
            + if !GoneSince(h) && Alarms(h) % (limit + 1) == limit then 1 else 0
  {
    assert (h + [Alarm])[..|h + [Alarm]| - 1] == h;
    LatchAndCounter(h, limit);
  }

  /** From a clear latch, k alarms with nothing between them make (cnt + k) / (limit + 1)
      reports and leave the counter at (cnt + k) % (limit + 1). */
  lemma {:induction false} WatchdogClosedForm(w: Watch, k: nat, limit: nat)
    requires !w.reset && w.cnt <= limit
    ensures Run(w, seq(k, i => Alarm), limit)
            == Watch((w.cnt + k) % (limit + 1), false, w.reports + (w.cnt + k) / (limit + 1))
  {
    if k == 0 {
      ModSucc(w.cnt, limit + 1);
    } else {
      WatchdogClosedForm(w, k - 1, limit);
      assert seq(k, i => Alarm)[..k - 1] == seq(k - 1, i => Alarm);
      ModSucc(w.cnt + k - 1, limit + 1);
    }
  }

  /** Once the peer is known to have gone, no alarm reports until the next heartbeat. */
  lemma {:induction false} SilentUntilBeat(w: Watch, h: seq<Event>, limit: nat)
    requires w.reset && Beat !in h
    ensures Run(w, h, limit).reports == w.reports && Run(w, h, limit).reset
  {
    if h != [] {
      SilentUntilBeat(w, h[..|h| - 1], limit);
    }
  }

  class Server {
    const limit: nat
    var expireCnt: nat
    var alreadyReset: bool
    ghost var reports: nat

    ghost function Abs(): Watch
      reads this
    {
      Watch(expireCnt, alreadyReset, reports)
    }

    constructor (limit: nat)
      ensures this.limit == limit && Abs() == QUIET
    {
      this.limit := limit;
      expireCnt, alreadyReset, reports := 0, false, 0;
    }

    // SIGURG: `c` is the urgent byte; only the heartbeat 'c' is answered.
    method SigUrg(c: char) returns (reply: seq<char>)
      modifies this
      ensures Abs() == On(old(Abs()), Beat, limit)
      ensures reply == if c == 'c' then "s" else ""
    {
      reply := "";
      if c == 'c' { reply := "s"; }
      expireCnt := 0;
      alreadyReset := false;
    }

    // SIGALRM; says whether it reported the peer.
    method SigAlrm() returns (reported: bool)
      modifies this
      ensures Abs() == On(old(Abs()), Alarm, limit)
      ensures reported <==> reports == old(reports) + 1
    {
      var cnt := expireCnt;
      expireCnt := expireCnt + 1;
      reported := limit == cnt && !alreadyReset;
      if reported {
        reports := reports + 1;
        expireCnt := 0;
      }
    }

    // The end of one turn of the accept loop.
    method Disconnected()
      modifies this
      ensures Abs() == On(old(Abs()), Gone, limit)
    {
      alreadyReset := true;
    }
  }
}
