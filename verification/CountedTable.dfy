/**
 The select server of C/select_server.c, which counts its connections instead of keeping a
 high-water mark.  The counter decides whether a new connection is accepted, and it is
 also the bound of the scan, where every client found closed lowers it.
 */
module CountedTable {
  import opened Slots

  const MAX_CLIENTS_NUM: nat := 3

  datatype Table = Table(master: int, slots: seq<int>, cnt: int, maxSd: int, active: set<int>)

  datatype Input = Input(ready: set<int>, conn: int, gone: set<int>)

  function Start(master: int): Table {
    Table(master, seq(MAX_CLIENTS_NUM, i => -1), 0, master, {master})
  }

  predicate InputOk(t: Table, k: Input) {
    && k.ready != {} && k.ready <= t.active
    && (t.master in k.ready ==> k.conn >= 0 && k.conn !in t.active)
  }

  // A connection past the limit is told so and closed, and the round ends.
  predicate Refuses(t: Table, k: Input) { t.master in k.ready && t.cnt > MAX_CLIENTS_NUM - 1 }

  function Accepted(t: Table, fd: int): Table {
    var i := FirstFree(t.slots);
    t.(slots := if i < |t.slots| then t.slots[i := fd] else t.slots,
       active := t.active + {fd}, cnt := t.cnt + 1, maxSd := if fd > t.maxSd then fd else t.maxSd)
  }

  // ---- The scan ----

  predicate Shut(slots: seq<int>, k: Input, i: nat)
    requires i < |slots|
  {
    Hit(slots, k.ready, i) && slots[i] in k.gone
  }

  // How many clients below slot n are found closed if all of them are looked at.
  function ShutBelow(slots: seq<int>, k: Input, n: nat): nat
    requires n <= |slots|
  {
    if n == 0 then 0 else ShutBelow(slots, k, n - 1) + if Shut(slots, k, n - 1) then 1 else 0
  }

  // The slots the scan looks at: those below the counter, less the clients already found
  // closed.
  predicate Reached(t: Table, k: Input, j: nat)
    requires j < |t.slots|
  {
    j < t.cnt - ShutBelow(t.slots, k, j)
  }

  // Where the scan stops.
  function Stop(t: Table, k: Input, n: nat): (r: nat)
    requires n <= |t.slots|
    ensures r <= n && (r < n ==> !Reached(t, k, n - 1))
  {
    if n == 0 then 0 else if Reached(t, k, n - 1) then n else Stop(t, k, n - 1)
  }

  function Scanned(t: Table, k: Input): Table {
    var n := Stop(t, k, |t.slots|);
    t.(slots := Freed(t.slots, k.ready, k.gone, n), cnt := t.cnt - ShutBelow(t.slots, k, n),
       active := t.active - ShutSet(t.slots, k, n))
  }

  function ShutSet(slots: seq<int>, k: Input, n: nat): set<int>
    requires n <= |slots|
  {
    set j | 0 <= j < n && Shut(slots, k, j) :: slots[j]
  }

  function BeforeScan(t: Table, k: Input): Table {
    if t.master in k.ready then Accepted(t, k.conn) else t
  }

  function AfterRound(t: Table, k: Input): Table {
    if Refuses(t, k) then t else Scanned(BeforeScan(t, k), k)
  }

  function Served(t: Table, k: Input): seq<int> {
    if Refuses(t, k) then []
    else var u := BeforeScan(t, k); ReadyBelow(u.slots, k.ready, Stop(u, k, |u.slots|))
  }

  // The stopping point splits the slots into those reached and the rest.
  lemma {:induction false} StopExact(t: Table, k: Input, n: nat)
    requires n <= |t.slots|
    ensures forall j | 0 <= j < n :: j < Stop(t, k, n) <==> Reached(t, k, j)
  {
    if n > 0 {
      StopExact(t, k, n - 1);
      if Reached(t, k, n - 1) {
        forall j | 0 <= j < n ensures Reached(t, k, j) { ReachedBelow(t, k, j, n - 1); }
      }
    }
  }

  lemma {:induction false} ReachedBelow(t: Table, k: Input, j: nat, n: nat)
    requires j <= n < |t.slots| && Reached(t, k, n)
    ensures Reached(t, k, j)
    decreases n
  {
    if j < n { ReachedBelow(t, k, j, n - 1); }
  }

  lemma StopIs(t: Table, k: Input, i: nat)
    requires i <= |t.slots| && (forall j | 0 <= j < i :: Reached(t, k, j)) && (i < |t.slots| ==> !Reached(t, k, i))
    ensures Stop(t, k, |t.slots|) == i
  {
    StopExact(t, k, |t.slots|);
    var n := Stop(t, k, |t.slots|);
    assert n < |t.slots| ==> !Reached(t, k, n);
  }

  // ---- Coherence ----

  ghost predicate Inv(t: Table) {
    Core(t) && forall i | 0 <= i < |t.slots| :: t.slots[i] >= -1
  }

  ghost predicate Core(t: Table) {
    && |t.slots| == MAX_CLIENTS_NUM
    && Distinct(t.slots)
    && t.master >= 0 && t.master !in Occupied(t.slots)
    && t.active == Occupied(t.slots) + {t.master}
    && t.cnt == Count(t.slots, |t.slots|)
    && (forall fd | fd in t.active :: fd <= t.maxSd)
  }

  /** By counting, passing the limit test means that some slot is free, so the search after
      it always places the new connection. */
  lemma LimitTestFindsASlot(t: Table)
    requires Core(t)
    ensures t.cnt > MAX_CLIENTS_NUM - 1 <==> Full(t.slots)
    ensures FirstFree(t.slots) < |t.slots| <==> t.cnt <= MAX_CLIENTS_NUM - 1
  {
    CountBounds(t.slots, |t.slots|);
  }

  lemma AcceptKeepsCore(t: Table, fd: int)
    requires Core(t) && t.cnt <= MAX_CLIENTS_NUM - 1 && fd >= 0 && fd !in t.active
    ensures Core(Accepted(t, fd))
  {
    LimitTestFindsASlot(t);
    var i := FirstFree(t.slots);
    OccupiedUpdate(t.slots, i, fd);
    CountUpdate(t.slots, i, fd, |t.slots|);
    assert t.slots[i] !in Occupied(t.slots);
  }

  // Freeing the slots one by one.
  lemma FreedStep(slots: seq<int>, k: Input, n: nat)
    requires n < |slots|
    ensures Freed(slots, k.ready, k.gone, n)[n] == slots[n]
    ensures Freed(slots, k.ready, k.gone, n + 1)
            == if Shut(slots, k, n) then Freed(slots, k.ready, k.gone, n)[n := -1] else Freed(slots, k.ready, k.gone, n)
  {
  }

  lemma {:induction false} FreedKeeps(t: Table, k: Input, n: nat)
    requires Core(t) && n <= |t.slots|
    ensures var f := Freed(t.slots, k.ready, k.gone, n);
      && Distinct(f)
      && Occupied(f) == Occupied(t.slots) - ShutSet(t.slots, k, n)
      && Count(f, |f|) == t.cnt - ShutBelow(t.slots, k, n)
  {
    if n == 0 {
      assert Freed(t.slots, k.ready, k.gone, 0) == t.slots;
    } else {
      FreedKeeps(t, k, n - 1);
      FreedStep(t.slots, k, n - 1);
      var f := Freed(t.slots, k.ready, k.gone, n - 1);
      ShutSetStep(t.slots, k, n - 1);
      if Shut(t.slots, k, n - 1) {
        OccupiedUpdate(f, n - 1, -1);
        CountUpdate(f, n - 1, -1, |f|);
      }
    }
  }

  lemma ShutSetStep(slots: seq<int>, k: Input, n: nat)
    requires n < |slots|
    ensures ShutSet(slots, k, n + 1) == ShutSet(slots, k, n) + if Shut(slots, k, n) then {slots[n]} else {}
  {
  }

  lemma RoundKeepsInv(t: Table, k: Input)
    requires Inv(t) && InputOk(t, k)
    ensures Inv(AfterRound(t, k))
  {
    if !Refuses(t, k) {
      if t.master in k.ready { AcceptKeepsCore(t, k.conn); }
      var u := BeforeScan(t, k);
      StopExact(u, k, |u.slots|);
      var n := Stop(u, k, |u.slots|);
      FreedKeeps(u, k, n);
      MasterIsNotShut(u, k, n);
    }
  }

  lemma MasterIsNotShut(u: Table, k: Input, n: nat)
    requires Core(u) && n <= |u.slots|
    ensures u.master !in ShutSet(u.slots, k, n)
  {
  }

  function Exec(t: Table, ks: seq<Input>): Table {
    if ks == [] then t
    else var u := Exec(t, ks[..|ks| - 1]); if InputOk(u, ks[|ks| - 1]) then AfterRound(u, ks[|ks| - 1]) else u
  }

  lemma {:induction false} EmptyCount(slots: seq<int>, n: nat)
    requires n <= |slots| && forall i | 0 <= i < |slots| :: slots[i] < 0
    ensures Count(slots, n) == 0
  {
    if n > 0 { EmptyCount(slots, n - 1); }
  }

  /** In every reachable state the counter is the number of occupied slots, and every
      watched client has one. */
  lemma {:induction false} CounterAgrees(master: int, ks: seq<Input>)
    requires master >= 0
    ensures Inv(Exec(Start(master), ks))
  {
    if ks == [] {
      assert Occupied(Start(master).slots) == {};
      EmptyCount(Start(master).slots, MAX_CLIENTS_NUM);
    } else {
      CounterAgrees(master, ks[..|ks| - 1]);
      var u := Exec(Start(master), ks[..|ks| - 1]);
      if InputOk(u, ks[|ks| - 1]) { RoundKeepsInv(u, ks[|ks| - 1]); }
    }
  }

  // ---- What the scan misses ----

  // A new connection is not ready yet, so it is not found closed.
  lemma {:induction false} SameShut(t: Table, k: Input, j: nat)
    requires Inv(t) && InputOk(t, k) && !Refuses(t, k) && j <= |t.slots|
    ensures |BeforeScan(t, k).slots| == |t.slots|
    ensures ShutBelow(BeforeScan(t, k).slots, k, j) == ShutBelow(t.slots, k, j)
  {
    if j > 0 { SameShut(t, k, j - 1); }
  }

  // The client of slot j is reached by the scan: its slot is below the number of
  // connections, with a new one counted, less the clients found closed in lower slots.
  predicate Looked(t: Table, k: Input, j: nat)
    requires j < |t.slots|
  {
    j < t.cnt + (if t.master in k.ready then 1 else 0) - ShutBelow(t.slots, k, j)
  }

  lemma LookedExactly(t: Table, k: Input, j: nat)
    requires Inv(t) && InputOk(t, k) && !Refuses(t, k) && j < |t.slots|
    ensures var u := BeforeScan(t, k);
      |u.slots| == |t.slots| && (j < Stop(u, k, |u.slots|) <==> Looked(t, k, j))
  {
    var u := BeforeScan(t, k);
    SameShut(t, k, j);
    StopExact(u, k, |u.slots|);
    assert Reached(u, k, j) <==> Looked(t, k, j);
  }

  /** When a client is served: in slot j, exactly if it is ready, the round has no
      connection to refuse, and j is below the connection count less the clients found
      closed in lower slots; the scan of select_srv_better.c has no such last condition. */
  lemma ServedExactly(t: Table, k: Input, j: nat)
    requires Inv(t) && InputOk(t, k) && j < |t.slots| && t.slots[j] >= 0
    ensures t.slots[j] in Served(t, k) <==>
      t.slots[j] in k.ready && !(t.master in k.ready && Full(t.slots)) && Looked(t, k, j)
  {
    LimitTestFindsASlot(t);
    if !Refuses(t, k) {
      if t.master in k.ready { AcceptKeepsCore(t, k.conn); }
      var u := BeforeScan(t, k);
      var n := Stop(u, k, |u.slots|);
      LookedExactly(t, k, j);
      ReadyBelowExact(u.slots, k.ready, n);
      assert u.slots[j] == t.slots[j];
      if u.slots[j] in Served(t, k) {
        var i :| 0 <= i < n && Hit(u.slots, k.ready, i) && u.slots[i] == u.slots[j];
        assert i == j;
      }
      if u.slots[j] in k.ready && Looked(t, k, j) {
        assert Hit(u.slots, k.ready, j);
      }
    }
  }

  /** Nobody else is served: not a new connection, and nobody twice. */
  lemma ServedAreClients(t: Table, k: Input)
    requires Inv(t) && InputOk(t, k)
    ensures forall x :: x in Served(t, k) ==> x in Occupied(t.slots)
    ensures forall i, j | 0 <= i < j < |Served(t, k)| :: Served(t, k)[i] != Served(t, k)[j]
  {
    if !Refuses(t, k) {
      LimitTestFindsASlot(t);
      if t.master in k.ready { AcceptKeepsCore(t, k.conn); }
      var u := BeforeScan(t, k);
      ReadyBelowExact(u.slots, k.ready, Stop(u, k, |u.slots|));
      forall x | x in Served(t, k) ensures x in Occupied(t.slots) {
        var i :| 0 <= i < |u.slots| && Hit(u.slots, k.ready, i) && u.slots[i] == x;
        assert t.slots[i] == x;
      }
    }
  }

  /** What a round does to slot i: a client that is served and found closed loses its slot
      and any other keeps it; a new connection gets the lowest free slot; and nothing
      changes when there is a connection and no free slot. */
  lemma RoundDoes(t: Table, k: Input, i: nat)
    requires Inv(t) && InputOk(t, k) && i < |t.slots|
    ensures |AfterRound(t, k).slots| == |t.slots|
    ensures var before, after := t.slots[i], AfterRound(t, k).slots[i];
      if t.master in k.ready && Full(t.slots) then after == before
      else if before >= 0 then
        after == if before in k.ready && before in k.gone && Looked(t, k, i) then -1 else before
      else if t.master in k.ready && forall j | 0 <= j < i :: t.slots[j] >= 0 then after == k.conn
      else after < 0
  {
    LimitTestFindsASlot(t);
    if !Refuses(t, k) {
      LookedExactly(t, k, i);
      if t.master in k.ready {
        assert k.conn !in k.ready;
        assert BeforeScan(t, k).slots == t.slots[FirstFree(t.slots) := k.conn];
      }
    }
  }

  lemma {:induction false} NoHits(slots: seq<int>, k: Input, n: nat)
    requires n <= |slots| && forall i | 0 <= i < n :: !Hit(slots, k.ready, i)
    ensures ReadyBelow(slots, k.ready, n) == [] && ShutBelow(slots, k, n) == 0
    ensures Freed(slots, k.ready, k.gone, n) == slots && ShutSet(slots, k, n) == {}
  {
    if n > 0 { NoHits(slots, k, n - 1); }
  }

  // A scan that finds no ready client before it stops changes nothing.
  lemma QuietScan(t: Table, k: Input)
    requires forall i | 0 <= i < Stop(t, k, |t.slots|) :: !Hit(t.slots, k.ready, i)
    ensures Scanned(t, k) == t && ReadyBelow(t.slots, k.ready, Stop(t, k, |t.slots|)) == []
  {
    NoHits(t.slots, k, Stop(t, k, |t.slots|));
    assert t.active - {} == t.active;
  }

  // Three clients connect one after another, and then the first is found closed.
  function BlindRun(m: int, a: int, b: int, c: int): seq<Input> {
    [Input({m}, a, {}), Input({m}, b, {}), Input({m}, c, {}), Input({a}, 0, {a})]
  }

  // A round with nothing but a new connection, which goes into slot i.
  lemma AcceptRound(t: Table, k: Input, i: nat)
    requires Inv(t) && t.cnt <= MAX_CLIENTS_NUM - 1 && k.ready == {t.master} && k.conn >= 0 && k.conn !in t.active
    requires i < |t.slots| && t.slots[i] < 0 && forall j | 0 <= j < i :: t.slots[j] >= 0
    ensures InputOk(t, k) && Inv(AfterRound(t, k))
    ensures var u := AfterRound(t, k);
      u.master == t.master && u.slots == t.slots[i := k.conn] && u.cnt == t.cnt + 1 && u.active == t.active + {k.conn}
  {
    AcceptKeepsCore(t, k.conn);
    assert FirstFree(t.slots) == i;
    var u := Accepted(t, k.conn);
    assert forall j | 0 <= j < |u.slots| && u.slots[j] >= 0 :: u.slots[j] in Occupied(u.slots);
    QuietScan(u, k);
    hide Core, Occupied, Distinct, FirstFree;
  }

  lemma ExecOn(t: Table, ks: seq<Input>, n: nat)
    requires n < |ks| && InputOk(Exec(t, ks[..n]), ks[n])
    ensures Exec(t, ks[..n + 1]) == AfterRound(Exec(t, ks[..n]), ks[n])
  {
    assert ks[..n + 1][..n] == ks[..n];
  }

  predicate FourDescriptors(m: int, a: int, b: int, c: int) {
    && m >= 0 && a >= 0 && b >= 0 && c >= 0
    && m != a && m != b && m != c && a != b && a != c && b != c
  }

  lemma OneConnects(m: int, a: int, b: int, c: int)
    requires FourDescriptors(m, a, b, c)
    ensures var t := Exec(Start(m), BlindRun(m, a, b, c)[..1]);
      Inv(t) && t.master == m && t.slots == [a, -1, -1] && t.cnt == 1 && t.active == {m, a}
  {
    var s, ks := Start(m), BlindRun(m, a, b, c);
    CounterAgrees(m, []);
    assert ks[..0] == [] && s.slots == [-1, -1, -1];
    AcceptRound(s, ks[0], 0);
    hide AfterRound, InputOk, Inv;
    ExecOn(s, ks, 0);
  }

  lemma TwoConnect(m: int, a: int, b: int, c: int)
    requires FourDescriptors(m, a, b, c)
    ensures var t := Exec(Start(m), BlindRun(m, a, b, c)[..2]);
      Inv(t) && t.master == m && t.slots == [a, b, -1] && t.cnt == 2 && t.active == {m, a, b}
  {
    var s, ks := Start(m), BlindRun(m, a, b, c);
    OneConnects(m, a, b, c);
    hide AfterRound, InputOk, Inv, Exec;
    AcceptRound(Exec(s, ks[..1]), ks[1], 1);
    ExecOn(s, ks, 1);
  }

  lemma ThreeConnect(m: int, a: int, b: int, c: int)
    requires FourDescriptors(m, a, b, c)
    ensures var t := Exec(Start(m), BlindRun(m, a, b, c)[..3]);
      Inv(t) && t.master == m && t.slots == [a, b, c] && t.cnt == 3
  {
    var s, ks := Start(m), BlindRun(m, a, b, c);
    TwoConnect(m, a, b, c);
    hide AfterRound, InputOk, Inv, Exec;
    AcceptRound(Exec(s, ks[..2]), ks[2], 2);
    ExecOn(s, ks, 2);
  }

  /** A reachable table with a blind spot: after three clients have connected and the first
      has left, the third is watched and in slot 2, but no round that brings only its data
      ever reads it, so `select` returns at once for ever. */
  lemma BlindSpot(m: int, a: int, b: int, c: int)
    requires FourDescriptors(m, a, b, c)
    ensures var t := Exec(Start(m), BlindRun(m, a, b, c));
      && c in t.active && t.slots == [-1, b, c]
      && forall gone :: var k := Input({c}, 0, gone); InputOk(t, k) && Served(t, k) == [] && AfterRound(t, k) == t
  {
    var s, ks := Start(m), BlindRun(m, a, b, c);
    var t3 := Exec(s, ks[..3]);
    ThreeConnect(m, a, b, c);
    assert t3.slots[0] == a && t3.slots[1] == b && t3.slots[2] == c;
    assert a in Occupied(t3.slots);
    RoundKeepsInv(t3, ks[3]);
    ExecOn(s, ks, 3);
    assert ks[..4] == ks;
    var t := AfterRound(t3, ks[3]);
    assert ShutBelow(t3.slots, ks[3], 1) == 1 && ShutBelow(t3.slots, ks[3], 2) == 1;
    assert Stop(t3, ks[3], 3) == 2;
    assert t.slots == [-1, b, c] && t.cnt == 2;
    assert t.slots[2] in Occupied(t.slots);
    forall gone ensures var k := Input({c}, 0, gone); InputOk(t, k) && Served(t, k) == [] && AfterRound(t, k) == t {
      var k := Input({c}, 0, gone);
      assert !Reached(t, k, 2);
      QuietScan(t, k);
    }
  }

  // ---- The loops of the source ----

  // The state of the scan begun in `t` when it has looked at the slots below `i`.
  ghost predicate Progress(t: Table, k: Input, i: nat, u: Table, served: seq<int>) {
    && i <= |t.slots|
    && (forall j | 0 <= j < i :: Reached(t, k, j))
    && u == t.(slots := Freed(t.slots, k.ready, k.gone, i), active := t.active - ShutSet(t.slots, k, i),
               cnt := t.cnt - ShutBelow(t.slots, k, i))
    && served == ReadyBelow(t.slots, k.ready, i)
  }

  lemma ScanBegins(t: Table, k: Input)
    ensures Progress(t, k, 0, t, [])
  {
  }

  // Below the counter there is another slot, as it was when the scan began.
  lemma NextSlot(t: Table, k: Input, i: nat, u: Table, served: seq<int>)
    requires Inv(t) && Progress(t, k, i, u, served) && i < u.cnt
    ensures i < |u.slots| == |t.slots| && u.slots[i] == t.slots[i] && Reached(t, k, i)
  {
    CountBounds(t.slots, |t.slots|);
  }

  lemma ScanPasses(t: Table, k: Input, i: nat, u: Table, served: seq<int>)
    requires i < |t.slots| && Reached(t, k, i) && Progress(t, k, i, u, served) && !Hit(t.slots, k.ready, i)
    ensures Progress(t, k, i + 1, u, served)
  {
  }

  lemma ScanServes(t: Table, k: Input, i: nat, u: Table, served: seq<int>)
    requires i < |t.slots| && Reached(t, k, i) && Progress(t, k, i, u, served) && Hit(t.slots, k.ready, i)
    ensures i < |u.slots|
    ensures var fd := t.slots[i];
      Progress(t, k, i + 1,
               if fd in k.gone then u.(slots := u.slots[i := -1], active := u.active - {fd}, cnt := u.cnt - 1) else u,
               served + [fd])
  {
  }

  lemma ScanEnds(t: Table, k: Input, i: nat, u: Table, served: seq<int>)
    requires Progress(t, k, i, u, served) && i >= u.cnt
    ensures u == Scanned(t, k) && served == ReadyBelow(t.slots, k.ready, Stop(t, k, |t.slots|))
  {
    StopIs(t, k, i);
  }

  class Server {
    const master: int
    const cliSocks: array<int>
    var curConnCnt: int
    var maxSd: int
    var active: set<int>

    ghost function Abs(): Table
      reads this, cliSocks
    {
      Table(master, cliSocks[..], curConnCnt, maxSd, active)
    }

    constructor (masterSock: int)
      ensures Abs() == Start(masterSock) && fresh(cliSocks)
    {
      master := masterSock;
      cliSocks := new int[MAX_CLIENTS_NUM](_ => -1);
      curConnCnt, maxSd, active := 0, masterSock, {masterSock};
      new;
      assert cliSocks[..] == seq(MAX_CLIENTS_NUM, i => -1);
    }

    method Place(newSock: int)
      requires cliSocks.Length == MAX_CLIENTS_NUM
      requires forall i | 0 <= i < cliSocks.Length :: cliSocks[i] >= -1
      modifies this, cliSocks
      ensures Abs() == Accepted(old(Abs()), newSock)
    {
      var i := 0;
      ghost var slots := cliSocks[..];
      while i < MAX_CLIENTS_NUM
        invariant 0 <= i <= MAX_CLIENTS_NUM && cliSocks[..] == slots
        invariant forall j | 0 <= j < i :: slots[j] >= 0
      {
        if cliSocks[i] == -1 {
          cliSocks[i] := newSock;
          break;
        }
        i := i + 1;
      }
      assert FirstFree(slots) == i;
      if newSock > maxSd { maxSd := newSock; }
      active := active + {newSock};
      curConnCnt := curConnCnt + 1;
    }

    // recv on a ready client; on 0 or -1 it is closed, its slot freed and the count lowered.
    method ReadClient(i: nat, sd: int, closed: bool)
      requires i < cliSocks.Length
      modifies this`active, this`curConnCnt, cliSocks
      ensures Abs() == if closed then
                         old(Abs()).(slots := old(Abs()).slots[i := -1], active := old(Abs()).active - {sd},
                                                  cnt := old(Abs()).cnt - 1)
                       else old(Abs())
    {
      if closed {
        active := active - {sd};
        cliSocks[i] := -1;
        curConnCnt := curConnCnt - 1;
      }
    }

    // The scan; its bound is lowered as clients are found closed.
    method Scan(k: Input) returns (served: seq<int>)
      requires Inv(Abs())
      modifies this`active, this`curConnCnt, cliSocks
      ensures Abs() == Scanned(old(Abs()), k)
      ensures served == ReadyBelow(old(cliSocks[..]), k.ready, Stop(old(Abs()), k, cliSocks.Length))
    {
      ghost var t := Abs();
      served := [];
      ScanBegins(t, k);
      hide Progress, Inv, Scanned, Stop, ReadyBelow;
      var i := 0;
      while i < curConnCnt
        invariant 0 <= i && Progress(t, k, i, Abs(), served)
        decreases cliSocks.Length - i
      {
        NextSlot(t, k, i, Abs(), served);
        if Hit(t.slots, k.ready, i) {
          ScanServes(t, k, i, Abs(), served);
        } else {
          ScanPasses(t, k, i, Abs(), served);
        }
        assert Abs().slots[i] == cliSocks[i];
        var sd := cliSocks[i];
        i := i + 1;
        if sd < 0 { continue; }
        if sd !in k.ready { continue; }
        served := served + [sd];
        ReadClient(i - 1, sd, sd in k.gone);
      }
      ScanEnds(t, k, i, Abs(), served);
    }

    /** One pass of the main loop after `select`. */
    method Round(k: Input) returns (served: seq<int>)
      requires Inv(Abs()) && InputOk(Abs(), k)
      modifies this, cliSocks
      ensures Abs() == AfterRound(old(Abs()), k) && Inv(Abs())
      ensures served == Served(old(Abs()), k)
    {
      RoundKeepsInv(Abs(), k);
      served := [];
      if master in k.ready {
        if curConnCnt > MAX_CLIENTS_NUM - 1 { return; }
        AcceptKeepsCore(Abs(), k.conn);
        Place(k.conn);
      }
      served := Scan(k);
    }
  }
}
