/**
 The array of client descriptors that both C select servers keep: a free slot holds a
 negative number, an occupied one a descriptor.
 */
module Slots {
  function Occupied(slots: seq<int>): set<int> {
    set i | 0 <= i < |slots| && slots[i] >= 0 :: slots[i]
  }

  predicate Full(slots: seq<int>) {
    forall i | 0 <= i < |slots| :: slots[i] >= 0
  }

  ghost predicate Distinct(slots: seq<int>) {
    forall i, j | 0 <= i < j < |slots| && slots[i] >= 0 :: slots[i] != slots[j]
  }

  // The lowest free slot, or |slots|.
  function FirstFree(slots: seq<int>): (i: nat)
    ensures i <= |slots| && (i < |slots| ==> slots[i] < 0)
    ensures forall j | 0 <= j < i :: slots[j] >= 0
  {
    if slots == [] || slots[0] < 0 then 0 else 1 + FirstFree(slots[1..])
  }

  // How many slots below n are occupied.
  function Count(slots: seq<int>, n: nat): nat
    requires n <= |slots|
  {
    if n == 0 then 0 else Count(slots, n - 1) + if slots[n - 1] >= 0 then 1 else 0
  }

  lemma {:induction false} CountBounds(slots: seq<int>, n: nat)
    requires n <= |slots|
    ensures Count(slots, n) <= n
    ensures Count(slots, n) == n <==> forall i | 0 <= i < n :: slots[i] >= 0
  {
    if n > 0 { CountBounds(slots, n - 1); }
  }

  lemma {:induction false} CountUpdate(slots: seq<int>, i: nat, fd: int, n: nat)
    requires i < |slots| && n <= |slots|
    ensures Count(slots[i := fd], n)
            == Count(slots, n) + (if i < n && fd >= 0 then 1 else 0) - (if i < n && slots[i] >= 0 then 1 else 0)
  {
    if n > 0 { CountUpdate(slots, i, fd, n - 1); }
  }

  lemma OccupiedUpdate(slots: seq<int>, i: nat, fd: int)
    requires i < |slots| && Distinct(slots) && fd !in Occupied(slots)
    ensures Occupied(slots[i := fd]) == Occupied(slots) - {slots[i]} + if fd >= 0 then {fd} else {}
    ensures Distinct(slots[i := fd])
  {
    var t := slots[i := fd];
    forall x | x in Occupied(slots) - {slots[i]} ensures x in Occupied(t) {
      var k :| 0 <= k < |slots| && slots[k] >= 0 && slots[k] == x;
      assert t[k] == x;
    }
    if fd >= 0 { assert t[i] == fd; }
    forall x | x in Occupied(t) ensures x in Occupied(slots) - {slots[i]} + if fd >= 0 then {fd} else {} {
      var k :| 0 <= k < |t| && t[k] >= 0 && t[k] == x;
      if k != i { assert slots[k] == x; }
    }
  }

  // ---- A scan of the slots for the ready ones ----

  predicate Hit(slots: seq<int>, ready: set<int>, i: nat)
    requires i < |slots|
  {
    slots[i] >= 0 && slots[i] in ready
  }

  // The ready clients below slot n, in slot order.
  function ReadyBelow(slots: seq<int>, ready: set<int>, n: nat): seq<int>
    requires n <= |slots|
  {
    if n == 0 then []
    else ReadyBelow(slots, ready, n - 1) + if Hit(slots, ready, n - 1) then [slots[n - 1]] else []
  }

  // The slots after those below n that are ready and found closed have been freed.
  function Freed(slots: seq<int>, ready: set<int>, gone: set<int>, n: nat): seq<int>
    requires n <= |slots|
  {
    seq(|slots|, i requires 0 <= i < |slots| =>
          if i < n && Hit(slots, ready, i) && slots[i] in gone then -1 else slots[i])
  }

  lemma {:induction false} ReadyBelowExact(slots: seq<int>, ready: set<int>, n: nat)
    requires n <= |slots| && Distinct(slots)
    ensures forall x ::
              x in ReadyBelow(slots, ready, n) <==> exists i :: 0 <= i < n && Hit(slots, ready, i) && slots[i] == x
    ensures forall j, k | 0 <= j < k < |ReadyBelow(slots, ready, n)| ::
              ReadyBelow(slots, ready, n)[j] != ReadyBelow(slots, ready, n)[k]
  {
    if n > 0 {
      ReadyBelowExact(slots, ready, n - 1);
      var r := ReadyBelow(slots, ready, n - 1);
      forall j | 0 <= j < |r| && Hit(slots, ready, n - 1) ensures r[j] != slots[n - 1] {
        assert r[j] in r;
      }
    }
  }
}
