/**
 The select server of C/select_srv_better.c: a table of client descriptors, its high-water
 mark `maxi`, the largest descriptor and the set handed to `select`.  A round is one
 return of `select` with at least one ready descriptor; `nready` is the size of the set
 it returns, and both the accept branch and the scan stop as soon as that many have been
 dealt with.
 */
module SlotTable {
  import opened Slots

  const MAX_CONNECTIONS: nat := 10

  datatype Table = Table(master: int, slots: seq<int>, maxi: int, maxSd: int, active: set<int>)

  // What the kernel does in a round: which descriptors are ready, the descriptor accept
  // returns, and the clients on which read returns 0 or -1.
  datatype Input = Input(ready: set<int>, conn: int, gone: set<int>)

  function Start(master: int): Table {
    Table(master, seq(MAX_CONNECTIONS, i => -1), -1, master, {master})
  }

  predicate InputOk(t: Table, k: Input) {
    && k.ready != {} && k.ready <= t.active
    && (t.master in k.ready ==> k.conn >= 0 && k.conn !in t.active)
  }

  // ---- A round without any early exit: accept if there is room, then look at every slot ----

  function Accepted(t: Table, fd: int): Table
    requires !Full(t.slots)
  {
    var i := FirstFree(t.slots);
    t.(slots := t.slots[i := fd], active := t.active + {fd},
       maxi := if i > t.maxi then i else t.maxi, maxSd := if fd > t.maxSd then fd else t.maxSd)
  }

  function Scanned(t: Table, k: Input): Table {
    t.(slots := Freed(t.slots, k.ready, k.gone, |t.slots|), active := t.active - Closed(t, k))
  }

  function Closed(t: Table, k: Input): set<int> { (Occupied(t.slots) * k.ready) * k.gone }

  // A connection that finds the table full is closed, and the clients wait for the next
  // round.
  predicate Refuses(t: Table, k: Input) { t.master in k.ready && Full(t.slots) }

  function BeforeScan(t: Table, k: Input): Table
    requires !Refuses(t, k)
  {
    if t.master in k.ready then Accepted(t, k.conn) else t
  }

  function AfterRound(t: Table, k: Input): Table {
    if Refuses(t, k) then t else Scanned(BeforeScan(t, k), k)
  }

  // The clients read in the round, in slot order.
  function Served(t: Table, k: Input): seq<int> {
    if Refuses(t, k) then [] else var u := BeforeScan(t, k); ReadyBelow(u.slots, k.ready, |u.slots|)
  }

  // ---- Coherence ----

  ghost predicate Inv(t: Table) {
    && |t.slots| == MAX_CONNECTIONS
    && Distinct(t.slots)
    && t.master >= 0 && t.master !in Occupied(t.slots)
    && t.active == Occupied(t.slots) + {t.master}
    && -1 <= t.maxi < MAX_CONNECTIONS
    && (forall i | 0 <= i < |t.slots| && t.slots[i] >= 0 :: i <= t.maxi)
    && (forall fd | fd in t.active :: fd <= t.maxSd)
  }

  lemma AcceptKeepsInv(t: Table, fd: int)
    requires Inv(t) && !Full(t.slots) && fd >= 0 && fd !in t.active
    ensures Inv(Accepted(t, fd))
  {
    var i := FirstFree(t.slots);
    OccupiedUpdate(t.slots, i, fd);
    assert t.slots[i] !in Occupied(t.slots);
  }

  lemma OccupiedFreed(slots: seq<int>, ready: set<int>, gone: set<int>)
    requires Distinct(slots)
    ensures Occupied(Freed(slots, ready, gone, |slots|)) == Occupied(slots) - ready * gone
    ensures Distinct(Freed(slots, ready, gone, |slots|))
  {
    var f := Freed(slots, ready, gone, |slots|);
    forall x | x in Occupied(slots) - ready * gone ensures x in Occupied(f) {
      var i :| 0 <= i < |slots| && slots[i] >= 0 && slots[i] == x;
      assert f[i] == x;
    }
    forall x | x in Occupied(f) ensures x in Occupied(slots) - ready * gone {
      var i :| 0 <= i < |f| && f[i] >= 0 && f[i] == x;
      assert slots[i] == x;
    }
  }

  lemma RoundKeepsInv(t: Table, k: Input)
    requires Inv(t) && InputOk(t, k)
    ensures Inv(AfterRound(t, k))
  {
    if !Refuses(t, k) {
      if t.master in k.ready { AcceptKeepsInv(t, k.conn); }
      var u := BeforeScan(t, k);
      OccupiedFreed(u.slots, k.ready, k.gone);
      assert Occupied(u.slots) - k.ready * k.gone == Occupied(u.slots) - Closed(u, k);
    }
  }

  function Exec(t: Table, ks: seq<Input>): Table {
    if ks == [] then t
    else var u := Exec(t, ks[..|ks| - 1]); if InputOk(u, ks[|ks| - 1]) then AfterRound(u, ks[|ks| - 1]) else u
  }

  /** Coherence over all runs: the watched set is the listening descriptor and the occupied
      slots, no descriptor is in two slots, every occupied slot is at or below `maxi`, and
      `max_sd` is an upper bound of everything watched. */
  lemma {:induction false} TableIsCoherent(master: int, ks: seq<Input>)
    requires master >= 0
    ensures Inv(Exec(Start(master), ks))
  {
    if ks == [] {
      assert Occupied(Start(master).slots) == {};
    } else {
      TableIsCoherent(master, ks[..|ks| - 1]);
      var u := Exec(Start(master), ks[..|ks| - 1]);
      if InputOk(u, ks[|ks| - 1]) { RoundKeepsInv(u, ks[|ks| - 1]); }
    }
  }

  // ---- Who is served ----

  lemma ServedInScan(t: Table, k: Input, x: int)
    requires Inv(t) && InputOk(t, k) && !Refuses(t, k)
    ensures x in Served(t, k) <==> x in k.ready && x != t.master
  {
    var u := BeforeScan(t, k);
    if t.master in k.ready {
      AcceptKeepsInv(t, k.conn);
      OccupiedUpdate(t.slots, FirstFree(t.slots), k.conn);
    }
    ReadyBelowExact(u.slots, k.ready, |u.slots|);
    if x in k.ready && x != t.master {
      assert x in Occupied(u.slots);
      var i :| 0 <= i < |u.slots| && u.slots[i] >= 0 && u.slots[i] == x;
      assert Hit(u.slots, k.ready, i);
    }
  }

  /** A round serves no client twice, and it serves exactly the ready ones unless a
      connection has arrived, the table is full and some client is ready. */
  lemma ServesExactlyTheReady(t: Table, k: Input)
    requires Inv(t) && InputOk(t, k)
    ensures forall i, j | 0 <= i < j < |Served(t, k)| :: Served(t, k)[i] != Served(t, k)[j]
    ensures (forall x :: x in Served(t, k) <==> x in k.ready && x != t.master)
            <==> !(t.master in k.ready && Full(t.slots) && k.ready != {t.master})
  {
    if Refuses(t, k) {
      if k.ready != {t.master} {
        var x :| x in k.ready && x != t.master;
        assert x !in Served(t, k);
      }
    } else {
      forall x ensures x in Served(t, k) <==> x in k.ready && x != t.master { ServedInScan(t, k, x); }
      if t.master in k.ready { AcceptKeepsInv(t, k.conn); }
      ReadyBelowExact(BeforeScan(t, k).slots, k.ready, |t.slots|);
    }
  }

  /** What a round does to the table, slot by slot: a client that is found closed loses its
      slot and any other keeps it; a new connection gets the lowest free slot; and nothing
      changes when there is a connection and no free slot. */
  lemma RoundDoes(t: Table, k: Input, i: nat)
    requires Inv(t) && InputOk(t, k) && i < |t.slots|
    ensures |AfterRound(t, k).slots| == |t.slots|
    ensures var before, after := t.slots[i], AfterRound(t, k).slots[i];
      if t.master in k.ready && Full(t.slots) then after == before
      else if before >= 0 then after == if before in k.ready && before in k.gone then -1 else before
      else if t.master in k.ready && forall j | 0 <= j < i :: t.slots[j] >= 0 then after == k.conn
      else after < 0
  {
    if t.master in k.ready && !Full(t.slots) {
      AcceptKeepsInv(t, k.conn);
      assert k.conn !in k.ready;
      assert BeforeScan(t, k).slots == t.slots[FirstFree(t.slots) := k.conn];
    }
  }

  /** So a new connection is watched from its round on exactly when a slot was free. */
  lemma Admitted(t: Table, k: Input)
    requires Inv(t) && InputOk(t, k) && t.master in k.ready
    ensures k.conn in AfterRound(t, k).active <==> !Full(t.slots)
    ensures k.conn in Occupied(AfterRound(t, k).slots) <==> !Full(t.slots)
  {
    RoundKeepsInv(t, k);
    if !Full(t.slots) {
      var i := FirstFree(t.slots);
      RoundDoes(t, k, i);
      assert AfterRound(t, k).slots[i] == k.conn;
    }
  }

  // The clients served over a whole run.
  function AllServed(t: Table, ks: seq<Input>): seq<int> {
    if ks == [] then []
    else
      var front, k := ks[..|ks| - 1], ks[|ks| - 1];
      AllServed(t, front) + if InputOk(Exec(t, front), k) then Served(Exec(t, front), k) else []
  }

  /** With a full table, for as long as connections keep arriving nobody is served, so no
      slot can become free either. */
  lemma {:induction false} FullTableStarves(t: Table, ks: seq<Input>)
    requires Full(t.slots) && forall i | 0 <= i < |ks| :: t.master in ks[i].ready
    ensures Exec(t, ks) == t && AllServed(t, ks) == []
  {
    if ks != [] { FullTableStarves(t, ks[..|ks| - 1]); }
  }

  // The table after `n` connections have arrived one by one, each in a round of its own.
  function Crowd(master: int, n: nat): Table {
    var slots := seq(MAX_CONNECTIONS, i => if i < n then master + 1 + i else -1);
    Table(master, slots, n - 1, master + n, Occupied(slots) + {master})
  }

  function Arrival(master: int, i: nat): Input { Input({master}, master + 1 + i, {}) }

  function Arrivals(master: int, n: nat): seq<Input> { seq(n, i requires 0 <= i < n => Arrival(master, i)) }

  lemma NothingFreed(t: Table, k: Input)
    requires k.gone == {}
    ensures Scanned(t, k) == t
  {
    assert Freed(t.slots, k.ready, k.gone, |t.slots|) == t.slots;
    assert t.active - {} == t.active;
  }

  lemma OneArrives(master: int, n: nat)
    requires master >= 0 && n < MAX_CONNECTIONS
    ensures var t, k := Crowd(master, n), Arrival(master, n);
      InputOk(t, k) && AfterRound(t, k) == Crowd(master, n + 1)
  {
    var t, k, u := Crowd(master, n), Arrival(master, n), Crowd(master, n + 1);
    assert t.slots[n] < 0 && FirstFree(t.slots) == n;
    assert t.slots[n := k.conn] == u.slots;
    OccupiedUpdate(t.slots, n, k.conn);
    assert t.active + {k.conn} == u.active;
    NothingFreed(u, k);
    hide Scanned;
  }

  lemma {:induction false} AllArrive(master: int, n: nat)
    requires master >= 0 && n <= MAX_CONNECTIONS
    ensures Exec(Start(master), Arrivals(master, n)) == Crowd(master, n)
  {
    if n == 0 {
      assert Start(master).slots == Crowd(master, 0).slots;
      assert Occupied(Start(master).slots) + {master} == {master};
    } else {
      AllArrive(master, n - 1);
      OneArrives(master, n - 1);
      assert Arrivals(master, n)[..n - 1] == Arrivals(master, n - 1);
      hide Crowd, AfterRound, InputOk;
    }
  }

  /** Such a table is reachable, and the starving can go on for any number of rounds: from
      the start, MAX_CONNECTIONS arrivals fill it; then in every round the first client is
      ready and one more connection has arrived, and the client is never read. */
  lemma StarvationIsReachable(master: int, rounds: nat)
    requires master >= 0
    ensures exists ks ::
      var t := Exec(Start(master), ks);
      var k := Input({master, master + 1}, t.maxSd + 1, {});
      && Full(t.slots) && master + 1 in Occupied(t.slots) && InputOk(t, k)
      && Exec(t, seq(rounds, i => k)) == t && AllServed(t, seq(rounds, i => k)) == []
  {
    AllArrive(master, MAX_CONNECTIONS);
    var t := Exec(Start(master), Arrivals(master, MAX_CONNECTIONS));
    var k := Input({master, master + 1}, t.maxSd + 1, {});
    assert t.slots[0] == master + 1;
    hide Exec, AllServed;
    FullTableStarves(t, seq(rounds, i => k));
  }

  // ---- The early exits ----

  // The ready clients in slots from `i` on.
  function Left(slots: seq<int>, ready: set<int>, i: nat): set<int>
    requires i <= |slots|
  {
    set j | i <= j < |slots| && Hit(slots, ready, j) :: slots[j]
  }

  lemma LeftStep(slots: seq<int>, ready: set<int>, i: nat)
    requires i < |slots| && Distinct(slots)
    ensures Left(slots, ready, i) == Left(slots, ready, i + 1) + if Hit(slots, ready, i) then {slots[i]} else {}
    ensures |Left(slots, ready, i)| == |Left(slots, ready, i + 1)| + if Hit(slots, ready, i) then 1 else 0
  {
  }

  // Nothing is left from `i` on, so stopping there changes nothing.
  lemma {:induction false} NothingLeft(slots: seq<int>, ready: set<int>, gone: set<int>, i: nat, n: nat)
    requires i <= n <= |slots|
    requires forall j | i <= j < |slots| :: !Hit(slots, ready, j)
    ensures ReadyBelow(slots, ready, n) == ReadyBelow(slots, ready, i)
    ensures Freed(slots, ready, gone, n) == Freed(slots, ready, gone, i)
  {
    if i < n { NothingLeft(slots, ready, gone, i, n - 1); }
  }

  function ClosedBelow(slots: seq<int>, k: Input, n: nat): set<int>
    requires n <= |slots|
  {
    set j | 0 <= j < n && Hit(slots, k.ready, j) && slots[j] in k.gone :: slots[j]
  }

  lemma StopHere(slots: seq<int>, k: Input, i: nat)
    requires i <= |slots| && Left(slots, k.ready, i) == {}
    ensures ReadyBelow(slots, k.ready, |slots|) == ReadyBelow(slots, k.ready, i)
    ensures Freed(slots, k.ready, k.gone, |slots|) == Freed(slots, k.ready, k.gone, i)
    ensures ClosedBelow(slots, k, i) == Occupied(slots) * k.ready * k.gone
  {
    assert forall j | i <= j < |slots| :: !Hit(slots, k.ready, j) || slots[j] in Left(slots, k.ready, i);
    NothingLeft(slots, k.ready, k.gone, i, |slots|);
    forall x | x in Occupied(slots) * k.ready * k.gone ensures x in ClosedBelow(slots, k, i) {
      var j :| 0 <= j < |slots| && slots[j] >= 0 && slots[j] == x;
      assert Hit(slots, k.ready, j);
    }
  }

  // One look of the scan, for the table it started from: at a slot that is not ready ...
  lemma LookPast(t: Table, k: Input, i: nat)
    requires i < |t.slots| && !Hit(t.slots, k.ready, i)
    ensures Freed(t.slots, k.ready, k.gone, i + 1) == Freed(t.slots, k.ready, k.gone, i)
    ensures ReadyBelow(t.slots, k.ready, i + 1) == ReadyBelow(t.slots, k.ready, i)
    ensures ClosedBelow(t.slots, k, i + 1) == ClosedBelow(t.slots, k, i)
  {
  }

  // ... and at one that is.
  lemma LookAt(t: Table, k: Input, i: nat)
    requires i < |t.slots| && Hit(t.slots, k.ready, i)
    ensures var fd := t.slots[i];
      && Freed(t.slots, k.ready, k.gone, i + 1)
         == (if fd in k.gone then Freed(t.slots, k.ready, k.gone, i)[i := -1] else Freed(t.slots, k.ready, k.gone, i))
      && ReadyBelow(t.slots, k.ready, i + 1) == ReadyBelow(t.slots, k.ready, i) + [fd]
      && ClosedBelow(t.slots, k, i + 1) == ClosedBelow(t.slots, k, i) + if fd in k.gone then {fd} else {}
  {
  }

  // The state of the scan begun in `t` when it has looked at the slots below `i`.
  ghost predicate Progress(t: Table, k: Input, i: nat, u: Table, served: seq<int>, nready: int) {
    && i <= |t.slots|
    && u == t.(slots := Freed(t.slots, k.ready, k.gone, i), active := t.active - ClosedBelow(t.slots, k, i))
    && served == ReadyBelow(t.slots, k.ready, i)
    && nready == |Left(t.slots, k.ready, i)|
  }

  lemma ScanBegins(t: Table, k: Input)
    ensures Progress(t, k, 0, t, [], |Left(t.slots, k.ready, 0)|)
  {
  }

  // The slot looked at next is as it was, and looking at it makes this difference.
  lemma NextSlot(t: Table, k: Input, i: nat, u: Table, served: seq<int>, nready: int)
    requires Inv(t) && i <= t.maxi && Progress(t, k, i, u, served, nready)
    ensures i < |u.slots| == |t.slots| && u.slots[i] == t.slots[i] && Distinct(t.slots)
  {
  }

  lemma ScanPasses(t: Table, k: Input, i: nat, u: Table, served: seq<int>, nready: int)
    requires i < |t.slots| && Distinct(t.slots) && Progress(t, k, i, u, served, nready) && !Hit(t.slots, k.ready, i)
    ensures Progress(t, k, i + 1, u, served, nready)
  {
    LeftStep(t.slots, k.ready, i);
    LookPast(t, k, i);
    hide Freed, ReadyBelow, ClosedBelow, Left, Distinct;
  }

  lemma MinusTwice(a: set<int>, c: set<int>, x: int)
    ensures a - c - {x} == a - (c + {x})
  {
  }

  lemma ScanServes(t: Table, k: Input, i: nat, u: Table, served: seq<int>, nready: int)
    requires i < |t.slots| && Distinct(t.slots) && Progress(t, k, i, u, served, nready) && Hit(t.slots, k.ready, i)
    ensures i < |u.slots|
    ensures var fd := t.slots[i];
      Progress(t, k, i + 1, if fd in k.gone then u.(slots := u.slots[i := -1], active := u.active - {fd}) else u,
               served + [fd], nready - 1)
  {
    LeftStep(t.slots, k.ready, i);
    LookAt(t, k, i);
    var fd, c, d := t.slots[i], ClosedBelow(t.slots, k, i), ClosedBelow(t.slots, k, i + 1);
    hide Freed, ReadyBelow, ClosedBelow, Left, Distinct, Hit;
    if fd in k.gone {
      MinusTwice(t.active, c, fd);
    } else {
      assert d == c;
    }
  }

  lemma ScanLooks(t: Table, k: Input, i: nat, u: Table, served: seq<int>, nready: int)
    requires Inv(t) && i <= t.maxi && Progress(t, k, i, u, served, nready)
    ensures i < |u.slots|
    ensures var fd := u.slots[i];
      if fd >= 0 && fd in k.ready then
        Progress(t, k, i + 1, if fd in k.gone then u.(slots := u.slots[i := -1], active := u.active - {fd}) else u,
                 served + [fd], nready - 1)
      else Progress(t, k, i + 1, u, served, nready)
  {
    hide Progress;
    NextSlot(t, k, i, u, served, nready);
    if Hit(t.slots, k.ready, i) {
      ScanServes(t, k, i, u, served, nready);
    } else {
      ScanPasses(t, k, i, u, served, nready);
    }
  }

  // Whichever way the loop is left, nothing is left to do.
  lemma ScanEnds(t: Table, k: Input, i: nat, u: Table, served: seq<int>, nready: int)
    requires Inv(t) && Progress(t, k, i, u, served, nready) && (i == t.maxi + 1 || nready <= 0)
    ensures u == Scanned(t, k) && served == ReadyBelow(t.slots, k.ready, |t.slots|)
  {
    assert Left(t.slots, k.ready, i) == {};
    StopHere(t.slots, k, i);
  }

  lemma AllLeft(t: Table, k: Input)
    requires Inv(t) && k.ready <= t.active
    ensures Left(t.slots, k.ready, 0) == k.ready - {t.master}
  {
  }

  // Only the listening descriptor is ready.
  lemma NobodyToServe(t: Table, k: Input)
    requires Inv(t) && Left(t.slots, k.ready, 0) == {}
    ensures Scanned(t, k) == t && ReadyBelow(t.slots, k.ready, |t.slots|) == []
  {
    StopHere(t.slots, k, 0);
    assert Freed(t.slots, k.ready, k.gone, 0) == t.slots;
    assert t.active - Closed(t, k) == t.active;
  }

  class Server {
    const master: int
    const cliSocks: array<int>
    var maxi: int
    var maxSd: int
    var active: set<int>

    ghost function Abs(): Table
      reads this, cliSocks
    {
      Table(master, cliSocks[..], maxi, maxSd, active)
    }

    constructor (masterSock: int)
      ensures Abs() == Start(masterSock) && fresh(cliSocks)
    {
      master := masterSock;
      cliSocks := new int[MAX_CONNECTIONS](_ => -1);
      maxi, maxSd, active := -1, masterSock, {masterSock};
      new;
      assert cliSocks[..] == seq(MAX_CONNECTIONS, i => -1);
    }

    // The accept loop over the slots; false if the table is full.
    method Place(newSock: int) returns (placed: bool)
      requires cliSocks.Length == MAX_CONNECTIONS
      modifies this, cliSocks
      ensures placed <==> !Full(old(cliSocks[..]))
      ensures Abs() == if placed then Accepted(old(Abs()), newSock) else old(Abs())
    {
      placed := false;
      var i := 0;
      while i < MAX_CONNECTIONS
        invariant 0 <= i <= MAX_CONNECTIONS && !placed && Abs() == old(Abs())
        invariant forall j | 0 <= j < i :: cliSocks[j] >= 0
      {
        if cliSocks[i] < 0 {
          assert FirstFree(old(cliSocks[..])) == i;
          cliSocks[i] := newSock;
          active := active + {newSock};
          if i > maxi { maxi := i; }
          if newSock > maxSd { maxSd := newSock; }
          placed := true;
          return;
        }
        i := i + 1;
      }
    }

    // read on a ready client; on 0 or -1 it is closed and its slot freed.
    method ReadClient(i: nat, sockfd: int, closed: bool)
      requires i < cliSocks.Length
      modifies this`active, cliSocks
      ensures Abs() == if closed then
                         old(Abs()).(slots := old(Abs()).slots[i := -1], active := old(Abs()).active - {sockfd})
                       else old(Abs())
    {
      if closed {
        active := active - {sockfd};
        cliSocks[i] := -1;
      }
    }

    // The scan up to `maxi`, left as soon as `nready` descriptors have been dealt with.
    method Scan(k: Input, nready0: int) returns (served: seq<int>)
      requires Inv(Abs()) && nready0 == |Left(cliSocks[..], k.ready, 0)|
      modifies this`active, cliSocks
      ensures Abs() == Scanned(old(Abs()), k)
      ensures served == ReadyBelow(old(cliSocks[..]), k.ready, cliSocks.Length)
    {
      ghost var t := Abs();
      var nready := nready0;
      served := [];
      ScanBegins(t, k);
      assert maxi < cliSocks.Length;
      hide Progress, Inv, Scanned, ReadyBelow, Occupied;
      var i := 0;
      while i <= maxi
        invariant 0 <= i <= maxi + 1 && Progress(t, k, i, Abs(), served, nready)
      {
        ScanLooks(t, k, i, Abs(), served, nready);
        assert Abs().slots[i] == cliSocks[i];
        var sockfd := cliSocks[i];
        i := i + 1;
        if sockfd < 0 { continue; }
        if sockfd in k.ready {
          served := served + [sockfd];
          ReadClient(i - 1, sockfd, sockfd in k.gone);
          nready := nready - 1;
          if nready <= 0 { break; }
        }
      }
      ScanEnds(t, k, i, Abs(), served, nready);
    }

    // The accept branch; `go` is whether the round goes on to the clients.
    method AcceptPhase(k: Input) returns (nready: int, go: bool)
      requires Inv(Abs()) && InputOk(Abs(), k) && master in k.ready
      modifies this, cliSocks
      ensures Refuses(old(Abs()), k) ==> !go && Abs() == old(Abs())
      ensures !Refuses(old(Abs()), k) ==>
        && Abs() == BeforeScan(old(Abs()), k) && Inv(Abs())
        && nready == |Left(Abs().slots, k.ready, 0)|
        && (!go ==> Scanned(Abs(), k) == Abs() && ReadyBelow(Abs().slots, k.ready, |Abs().slots|) == [])
    {
      ghost var t := Abs();
      nready := |k.ready|;
      go := Place(k.conn);
      if !go { return; }
      AcceptKeepsInv(t, k.conn);
      hide Accepted, Inv, Scanned, Occupied, Left, ReadyBelow;
      AllLeft(Abs(), k);
      nready := nready - 1;
      assert nready == |k.ready - {master}|;
      if nready <= 0 {
        go := false;
        NobodyToServe(Abs(), k);
      }
    }

    /** One pass of the main loop after `select`: with `maxi` and both early exits it does
        to the table, and serves, exactly what the scan of every slot would. */
    method Round(k: Input) returns (served: seq<int>)
      requires Inv(Abs()) && InputOk(Abs(), k)
      modifies this, cliSocks
      ensures Abs() == AfterRound(old(Abs()), k) && Inv(Abs())
      ensures served == Served(old(Abs()), k)
    {
      RoundKeepsInv(Abs(), k);
      AllLeft(Abs(), k);
      hide Inv, Scanned, Occupied, Left, ReadyBelow, Accepted;
      served := [];
      var nready := |k.ready|;
      if master in k.ready {
        var go;
        nready, go := AcceptPhase(k);
        if !go { return; }
      } else {
        assert k.ready - {master} == k.ready;
      }
      served := Scan(k, nready);
    }
  }
}
