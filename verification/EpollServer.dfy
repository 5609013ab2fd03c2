/**
 The loops of C/epoll_server.c as they are written: the batch loop over the `events`
 array, the accept loop and the read loop, each driven by system calls whose answers the
 kernel chooses.  The ghost field `trace` records the calls and arrivals; `Valid` says
 that the state is the one that trace leads to from the initial state, so all that is
 proved of every run in module Epoll holds whenever one of these methods returns.
 */
module EpollServer {
  import opened Bytes
  import opened Epoll

  lemma ExecSnoc(s: St, acts: seq<Action>, a: Action)
    ensures Exec(s, acts + [a]) == Step(Exec(s, acts), a)
  {
  }

  lemma {:induction false} SomeFreeNumber(used: set<int>)
    ensures exists fd :: fd >= 0 && fd !in used
  {
    var top := Above(used);
    assert top !in used;
  }

  lemma {:induction false} Above(used: set<int>) returns (top: nat)
    ensures forall x: int | x in used :: x < top
  {
    top := 0;
    if x: int :| x in used {
      var rest := Above(used - {x});
      top := if x < rest then rest else x + 1;
      assert forall y | y in used :: y == x || y in used - {x};
    }
  }

  class Server {
    const listener: int
    const events: array<Event>
    var n: nat
    // The kernel's side.
    var peer: seq<Conn>
    var backlog: seq<nat>
    var conns: map<int, nat>
    var mon: set<int>
    var armed: set<int>
    var log: seq<Write>
    // How many more arrivals, failing calls of accept and read, and interrupted calls of
    // epoll_wait there will be; any numbers.
    var arrivals: nat
    var faults: nat
    var interrupts: nat
    const budget: nat
    ghost var pc: Pc
    ghost var i: nat
    ghost var ended: set<nat>
    ghost var trace: seq<Action>

    ghost function Abs(): St
      requires n <= events.Length
      reads this, events
    {
      St(listener, peer, backlog, conns, mon, armed, pc, events[..n], i, log, ended)
    }

    ghost predicate Valid()
      reads this, events
    {
      events.Length == MAXEVENTS && n <= MAXEVENTS && Abs() == Exec(Start(listener), trace)
      && Failures(trace) + faults == budget
    }

    // The run has gone on, epoll_wait has not returned, and nothing has failed.
    twostate predicate Later()
      reads this
    {
      && old(trace) <= trace && Waits(Start(listener), trace) == Waits(Start(listener), old(trace))
      && faults == old(faults) && interrupts == old(interrupts)
    }

    // One call has failed.
    twostate predicate Failed()
      reads this
    {
      && old(trace) <= trace && Waits(Start(listener), trace) == Waits(Start(listener), old(trace))
      && faults == old(faults) - 1 && interrupts == old(interrupts)
    }

    constructor (sfd: int, arrivals: nat, faults: nat, interrupts: nat)
      ensures Valid() && listener == sfd && pc == Waiting && trace == [] && fresh(events)
      ensures this.arrivals == arrivals && this.faults == faults == budget && this.interrupts == interrupts
    {
      listener := sfd;
      events := new Event[MAXEVENTS](_ => Event(0, false, 0));
      n, peer, backlog, conns, mon, armed, log := 0, [], [], map[], {sfd}, {}, [];
      this.arrivals, this.faults, budget, this.interrupts := arrivals, faults, faults, interrupts;
      pc, i, ended, trace := Waiting, 0, {}, [];
    }

    // Any of the arrivals still to come, in any order.
    method Interference()
      requires Valid()
      modifies this`arrivals, this`backlog, this`peer, this`armed, this`trace
      ensures Valid() && Later() && arrivals <= old(arrivals) && |peer| >= old(|peer|)
      ensures arrivals + |backlog| <= old(arrivals + |backlog|)
      ensures arrivals == old(arrivals) ==> peer == old(peer)
    {
      var k: nat :| k <= arrivals;
      while k > 0
        invariant Valid() && Later() && k <= arrivals <= old(arrivals) && |peer| >= old(|peer|)
        invariant arrivals + |backlog| <= old(arrivals + |backlog|)
        invariant arrivals == old(arrivals) ==> peer == old(peer)
      {
        OneArrival();
        k := k - 1;
      }
    }

    // The fields have just been changed the way `a` changes them.
    ghost method Record(s: St, a: Action)
      requires n <= events.Length == MAXEVENTS && s == Exec(Start(listener), trace) && Abs() == Step(s, a)
      requires !a.AcceptFail? && !a.ReadFail? && Failures(trace) + faults == budget
      modifies this`trace
      ensures Valid() && trace == old(trace) + [a]
      ensures Waits(Start(listener), trace)
              == Waits(Start(listener), old(trace)) + if a.Wait? && Enabled(s, a) then 1 else 0
    {
      ExecSnoc(Start(listener), trace, a);
      trace := trace + [a];
      assert trace[..|trace| - 1] == old(trace);
    }

    // The same for a call that has failed.
    method RecordFailure(ghost s: St, ghost a: Action)
      requires n <= events.Length == MAXEVENTS && s == Exec(Start(listener), trace) && Abs() == Step(s, a)
      requires (a.AcceptFail? || a.ReadFail?) && Failures(trace) + faults == budget && faults > 0
      modifies this`trace, this`faults
      ensures Valid() && Failed()
    {
      ExecSnoc(Start(listener), trace, a);
      trace := trace + [a];
      assert trace[..|trace| - 1] == old(trace);
      faults := faults - 1;
    }

    method ConnectionArrives()
      requires Valid()
      modifies this`backlog, this`peer, this`armed, this`trace
      ensures Valid() && Later() && |peer| == old(|peer|) + 1 && |backlog| == old(|backlog|) + 1
    {
      hide Exec, Named, Waits, Failures;
      ghost var s := Abs();
      backlog := backlog + [|peer|];
      peer := peer + [Conn([], 0, false)];
      if listener in mon { armed := armed + {listener}; }
      assert s.armed + {} == s.armed;
      Record(s, Arrive);
    }

    method BytesArrive(id: nat, bs: seq<Byte>)
      requires Valid() && id < |peer| && !peer[id].eof && bs != []
      modifies this`peer, this`armed, this`trace
      ensures Valid() && Later() && |peer| == old(|peer|)
    {
      hide Exec, Named, Waits, Failures;
      ghost var s := Abs();
      peer := peer[id := peer[id].(all := peer[id].all + bs)];
      armed := armed + set f | f in mon && f in conns && conns[f] == id;
      Record(s, Data(id, bs));
    }

    method EofArrives(id: nat)
      requires Valid() && id < |peer| && !peer[id].eof
      modifies this`peer, this`armed, this`trace
      ensures Valid() && Later() && |peer| == old(|peer|)
    {
      hide Exec, Named, Waits, Failures;
      ghost var s := Abs();
      peer := peer[id := peer[id].(eof := true)];
      armed := armed + set f | f in mon && f in conns && conns[f] == id;
      Record(s, Hangup(id));
    }

    method ErrorArrives(fd: int)
      requires Valid() && fd in mon
      modifies this`armed, this`trace
      ensures Valid() && Later()
    {
      hide Exec, Named, Waits, Failures;
      ghost var s := Abs();
      armed := armed + {fd};
      Record(s, Fault(fd));
    }

    method OneArrival()
      requires Valid() && arrivals > 0
      modifies this`arrivals, this`backlog, this`peer, this`armed, this`trace
      ensures Valid() && Later() && arrivals == old(arrivals) - 1
      ensures |peer| >= old(|peer|) && |backlog| <= old(|backlog|) + 1
    {
      arrivals := arrivals - 1;
      var id: nat :| id <= |peer|;
      var bs: seq<Byte> := *;
      var fd: int := *;
      if {
        case true => ConnectionArrives();
        case id < |peer| && !peer[id].eof && bs != [] => BytesArrive(id, bs);
        case id < |peer| && !peer[id].eof => EofArrives(id);
        case fd in mon => ErrorArrives(fd);
      }
    }

    // accept: a descriptor that is not open, or -1 with or without EAGAIN.
    method AcceptCall() returns (infd: int, again: bool)
      requires Valid() && pc == Accepting
      modifies this
      ensures Valid() && i == old(i) + (if infd == -1 then 1 else 0) && n == old(n)
      ensures if infd == -1 && !again then Failed() else Later()
      ensures infd == -1 ==> pc == Scanning && (again ==> backlog == [])
      ensures infd != -1 ==> pc == Adding(infd) && infd in conns && arrivals + |backlog| < old(arrivals + |backlog|)
    {
      Interference();
      var broken: bool := *;
      if broken && faults > 0 {
        infd, again := -1, false;
        GiveUp(true);
      } else if backlog == [] {
        infd, again := -1, true;
        GiveUp(false);
      } else {
        again := false;
        infd := TakeConnection();
      }
    }

    method GiveUp(broken: bool)
      requires Valid() && pc == Accepting && if broken then faults > 0 else backlog == []
      modifies this`pc, this`i, this`trace, this`faults
      ensures Valid() && (if broken then Failed() else Later()) && pc == Scanning && i == old(i) + 1
    {
      hide Exec, Named, Waits, Failures;
      ghost var s := Abs();
      pc, i := Scanning, i + 1;
      if broken { RecordFailure(s, AcceptFail); } else { Record(s, AcceptAgain); }
    }

    method TakeConnection() returns (infd: int)
      requires Valid() && pc == Accepting && backlog != []
      modifies this`conns, this`backlog, this`pc, this`trace
      ensures Valid() && Later() && pc == Adding(infd) && infd >= 0
      ensures infd !in old(conns) && conns == old(conns)[infd := old(backlog)[0]] && backlog == old(backlog)[1..]
    {
      hide Exec, Named, Waits, Failures;
      ghost var s := Abs();
      SomeFreeNumber(conns.Keys + {listener});
      infd :| infd >= 0 && infd !in conns.Keys + {listener};
      conns := conns[infd := backlog[0]];
      backlog := backlog[1..];
      pc := Adding(infd);
      Record(s, Accept(infd));
    }

    // epoll_ctl(EPOLL_CTL_ADD): an edge is queued at once if there is something to read.
    method AddCall(infd: int)
      requires Valid() && pc == Adding(infd)
      modifies this
      ensures Valid() && Later() && pc == Accepting && i == old(i) && n == old(n)
      ensures arrivals + |backlog| <= old(arrivals + |backlog|)
    {
      Interference();
      AddNow(infd);
    }

    method AddNow(infd: int)
      requires Valid() && pc == Adding(infd)
      modifies this`mon, this`armed, this`pc, this`trace
      ensures Valid() && Later() && pc == Accepting
    {
      ghost var s := Abs();
      ghost var t := AddedBy(infd);
      hide Exec, Step, Waits, Failures;
      mon := mon + {infd};
      armed := armed + if peer[conns[infd]].Pending() then {infd} else {};
      pc := Accepting;
      assert Abs() == t;
      Record(s, Add);
    }

    lemma AddedBy(infd: int) returns (t: St)
      requires Valid() && pc == Adding(infd)
      ensures infd in conns && conns[infd] < |peer| && t == Step(Abs(), Add)
      ensures t == Abs().(mon := mon + {infd}, pc := Accepting,
                          armed := armed + if peer[conns[infd]].Pending() then {infd} else {})
    {
      RunKeepsInv(listener, trace);
      hide Exec, Named, Waits, Failures;
      assert Enabled(Abs(), Add);
      t := Step(Abs(), Add);
    }

    /** Accept until accept fails: whoever has arrived before the last call is accepted,
        unless a call fails for another reason than that nobody is waiting. */
    method AcceptLoop() returns (again: bool)
      requires Valid() && pc == Accepting
      modifies this
      ensures Valid() && pc == Scanning && i == old(i) + 1 && n == old(n)
      ensures if again then Later() && backlog == [] else Failed()
    {
      again := false;
      while true
        invariant Valid() && Later() && pc == Accepting && i == old(i) && n == old(n)
        decreases arrivals + |backlog|
      {
        var infd;
        infd, again := AcceptCall();
        if infd == -1 { return; }
        AddCall(infd);
      }
    }

    ghost predicate Serving(fd: int)
      requires n <= events.Length
      reads this, events
    {
      pc == Reading && i < n && events[i].fd == fd && fd in conns && conns[fd] < |peer|
      && peer[conns[fd]].nread <= |peer[conns[fd]].all|
    }

    lemma WhatIsServed(fd: int)
      requires Valid() && pc == Reading && i < n && events[i].fd == fd
      ensures Serving(fd) && Current(Abs()) && Abs().evs[i].fd == fd
    {
      RunKeepsInv(listener, trace);
      RunKeepsDelivery(listener, trace);
      ListenerIsFixed(Start(listener), trace);
    }

    // The bytes not yet read from the connection being served.
    ghost function Unread(fd: int): nat
      requires n <= events.Length && Serving(fd)
      reads this, events
    {
      |peer[conns[fd]].all| - peer[conns[fd]].nread
    }

    // A read that returns something, and the write of it to standard output.
    method Copy(fd: int, count: nat)
      requires Valid() && Serving(fd) && 0 < count <= CHUNK && count <= Unread(fd)
      modifies this
      ensures Valid() && Later() && arrivals == old(arrivals) && i == old(i) && n == old(n)
      ensures Serving(fd) && Unread(fd) == old(Unread(fd)) - count && conns == old(conns) && ended == old(ended)
    {
      assert Abs().evs[i].fd == fd;
      hide Exec, Named, Waits, Failures;
      ghost var s := Abs();
      var c := peer[conns[fd]];
      log := log + [Write(conns[fd], c.all[c.nread..c.nread + count])];
      peer := peer[conns[fd] := c.(nread := c.nread + count)];
      Record(s, Read(count));
    }

    // close: the descriptor leaves the monitored set.
    method CloseFd(fd: int)
      modifies this`conns, this`mon, this`armed
      ensures conns == old(conns) - {fd} && mon == old(mon) - {fd} && armed == old(armed) - {fd}
    {
      conns, mon, armed := conns - {fd}, mon - {fd}, armed - {fd};
    }

    method Shut(fd: int, eof: bool)
      requires n <= events.Length && fd in conns
      modifies this`conns, this`mon, this`armed, this`ended, this`pc, this`i
      ensures Abs() == old(Abs()).(conns := old(conns) - {fd}, mon := old(mon) - {fd}, armed := old(armed) - {fd},
                                   pc := Scanning, i := old(i) + 1,
                                   ended := if eof then old(ended) + {old(conns)[fd]} else old(ended))
    {
      if eof { ended := ended + {conns[fd]}; }
      CloseFd(fd);
      pc, i := Scanning, i + 1;
    }

    // close after end of file ...
    method CloseAtEnd(fd: int)
      requires Valid() && Serving(fd) && peer[conns[fd]].eof && Unread(fd) == 0
      modifies this`conns, this`mon, this`armed, this`ended, this`pc, this`i, this`trace
      ensures Valid() && Later() && pc == Scanning && i == old(i) + 1
      ensures conns == old(conns) - {fd} && mon == old(mon) - {fd} && ended == old(ended) + {old(conns)[fd]}
    {
      ghost var s := Abs();
      ghost var t := ClosedBy(fd, ReadEof);
      hide Exec, Step, Waits, Failures, Unread;
      Shut(fd, true);
      Record(s, ReadEof);
    }

    // ... and after an error.
    method CloseOnError(fd: int)
      requires Valid() && Serving(fd) && faults > 0
      modifies this`conns, this`mon, this`armed, this`ended, this`pc, this`i, this`trace, this`faults
      ensures Valid() && Failed() && pc == Scanning && i == old(i) + 1
      ensures conns == old(conns) - {fd} && mon == old(mon) - {fd} && ended == old(ended)
    {
      ghost var s := Abs();
      ghost var t := ClosedBy(fd, ReadFail);
      hide Exec, Step, Waits, Failures, Unread, Serving;
      Shut(fd, false);
      RecordFailure(s, ReadFail);
    }

    lemma ClosedBy(fd: int, a: Action) returns (t: St)
      requires Valid() && Serving(fd) && (a == ReadFail || (a == ReadEof && peer[conns[fd]].eof && Unread(fd) == 0))
      ensures t == Step(Abs(), a)
      ensures t == Abs().(conns := conns - {fd}, mon := mon - {fd}, armed := armed - {fd}, pc := Scanning, i := i + 1,
                          ended := if a == ReadEof then ended + {conns[fd]} else ended)
    {
      assert Abs().evs[i].fd == fd;
      hide Exec, Named;
      assert Enabled(Abs(), a);
      t := Step(Abs(), a);
    }

    ghost method StopReading(fd: int)
      requires Valid() && Serving(fd) && !peer[conns[fd]].Pending()
      modifies this`trace, this`pc, this`i
      ensures Valid() && Later() && pc == Scanning && i == old(i) + 1
    {
      assert Abs().evs[i].fd == fd;
      hide Exec, Named, Waits, Failures;
      ghost var s := Abs();
      pc, i := Scanning, i + 1;
      Record(s, ReadAgain);
    }

    /** Read until EAGAIN, end of file or an error, writing everything to standard output.
        The connection is left open when it has nothing to report, and it is closed when
        all its bytes have been written and its end has been read, or when a call fails. */
    method ReadLoop(fd: int)
      requires Valid() && pc == Reading && i < n && events[i].fd == fd
      modifies this
      ensures Valid() && pc == Scanning && i == old(i) + 1 && n == old(n)
      ensures fd in old(conns)
      ensures if fd in conns then Later() && conns == old(conns) && conns[fd] < |peer| && !peer[conns[fd]].Pending()
              else
                && conns == old(conns) - {fd} && fd !in mon
                && ((Later() && ended == old(ended) + {old(conns)[fd]}) || (Failed() && ended == old(ended)))
    {
      hide Exec, Waits, Failures, Step, Current;
      WhatIsServed(fd);
      var done, eof := false, false;
      while true
        invariant Valid() && Later() && i == old(i) && n == old(n) && Serving(fd)
        invariant conns == old(conns) && ended == old(ended)
        decreases arrivals, Unread(fd)
      {
        Interference();
        WhatIsServed(fd);
        var c := peer[conns[fd]];
        var broken: bool := *;
        if broken && faults > 0 {
          done := true;
          break;
        } else if c.nread < |c.all| {
          var count: nat :| 0 < count <= CHUNK && count <= |c.all| - c.nread;
          Copy(fd, count);
        } else if c.eof {
          done, eof := true, true;
          break;
        } else {
          break;
        }
      }
      if done && eof {
        CloseAtEnd(fd);
      } else if done {
        CloseOnError(fd);
      } else {
        StopReading(fd);
      }
    }

    // What epoll_wait may return now.
    predicate Returnable(es: seq<Event>)
      reads this
    {
      && 0 < |es| <= MAXEVENTS
      && (forall j, k | 0 <= j < k < |es| :: es[j].fd != es[k].fd)
      && (forall j | 0 <= j < |es| :: es[j].fd in armed && (es[j].fd in conns ==> conns[es[j].fd] == es[j].id))
    }

    // Calls may have failed, but epoll_wait has not returned.
    twostate predicate Served()
      reads this
    {
      && old(trace) <= trace && Waits(Start(listener), trace) == Waits(Start(listener), old(trace))
      && faults <= old(faults) && interrupts == old(interrupts)
    }

    // epoll_wait: some of the queued edges, in any order, or -1 if it is interrupted or
    // there is none and it blocks.
    method WaitCall() returns (count: int)
      requires Valid() && pc == Waiting
      modifies this, events
      ensures Valid() && old(trace) <= trace && faults == old(faults)
      ensures count == -1 ==>
        && pc == Waiting && Waits(Start(listener), trace) == Waits(Start(listener), old(trace))
        && (interrupts == old(interrupts) - 1 || (interrupts == old(interrupts) && Idle(Abs())))
      ensures count != -1 ==>
        && pc == Scanning && i == 0 && count == n
        && Waits(Start(listener), trace) == Waits(Start(listener), old(trace)) + 1 && interrupts == old(interrupts)
    {
      Interference();
      hide Exec;
      var interrupted: bool := *;
      if interrupted && interrupts > 0 {
        interrupts := interrupts - 1;
        return -1;
      }
      if fd: int :| fd in armed {
        var bad: bool := *;
        var es: seq<Event> := *;
        if !Returnable(es) { es := [Event(fd, bad, if fd in conns then conns[fd] else 0)]; }
        count := Deliver(es);
      } else {
        count := -1;
      }
    }

    method Deliver(es: seq<Event>) returns (count: nat)
      requires Valid() && pc == Waiting && Returnable(es)
      modifies this`n, this`armed, this`pc, this`i, this`trace, events
      ensures Valid() && old(trace) <= trace && pc == Scanning && i == 0 && count == n
      ensures Waits(Start(listener), trace) == Waits(Start(listener), old(trace)) + 1
    {
      hide Exec;
      ghost var s := Abs();
      forall j | 0 <= j < |es| { events[j] := es[j]; }
      n := |es|;
      assert events[..n] == es;
      armed := armed - Named(es);
      pc, i := Scanning, 0;
      Record(s, Wait(es));
      count := n;
    }

    // The look at the next event: what it is, and the close if it is an error.
    method Look(k: nat) returns (fd: int)
      requires Valid() && pc == Scanning && i == k < n
      modifies this
      ensures Valid() && Later() && n == old(n) && fd == events[k].fd
      ensures events[k].bad ==> pc == Scanning && i == k + 1 && fd !in mon
      ensures !events[k].bad && fd == listener ==> pc == Accepting && i == k
      ensures !events[k].bad && fd != listener ==> pc == Reading && i == k
    {
      hide Exec, Named, Waits, Failures;
      ghost var s := Abs();
      fd := events[k].fd;
      assert fd == s.evs[s.i].fd;
      if events[k].bad {
        CloseFd(fd);
        i := i + 1;
      } else if fd == listener {
        pc := Accepting;
      } else {
        pc := Reading;
      }
      Record(s, Dispatch);
    }

    /** The batch loop: every event is served once, in order. */
    method ServeBatch()
      requires Valid() && pc == Scanning && i == 0
      modifies this
      ensures Valid() && Served() && pc == Waiting && i == n == old(n)
    {
      var k := 0;
      while k < n
        invariant Valid() && Served() && n == old(n)
        invariant k <= n && pc == Scanning && i == k
        decreases n - k
      {
        var bad := events[k].bad;
        var fd := Look(k);
        if !bad {
          if fd == listener {
            var again := AcceptLoop();
          } else {
            ReadLoop(fd);
          }
        }
        k := k + 1;
      }
      hide Exec, Named, Waits, Failures;
      ghost var s := Abs();
      pc := Waiting;
      Record(s, Dispatch);
    }

    // Some time in the run the server has been blocked with no edge queued.
    ghost predicate WasIdle()
      reads this
    {
      exists j :: 0 <= j <= |trace| && Idle(Exec(Start(listener), trace[..j]))
    }

    /** The event loop, for any number of rounds.  Whenever it is about to block, every
        monitored connection with something to report has a queued edge, and so has the
        listener with a backlog if no call has failed; standard output holds for each
        connection exactly what was read from it.  And it gets there: more rounds than
        twice the things that have happened outside, plus the interruptions, have brought
        it to a point where nothing was left to do. */
    method EventLoop(rounds: nat)
      requires Valid() && pc == Waiting
      modifies this, events
      ensures Valid() && old(trace) <= trace && pc == Waiting
      ensures forall fd | fd in mon && fd in conns && HasWork(Abs(), fd) :: fd == listener || fd in armed
      ensures listener in mon && backlog != [] ==> (listener in armed <==> !Missed(Start(listener), trace))
      ensures faults == budget && listener in mon && backlog != [] ==> listener in armed
      ensures forall id | 0 <= id < |peer| ::
        Copied(log, id) <= peer[id].all && (id in ended ==> Copied(log, id) == peer[id].all)
      ensures rounds > 2 * Outside(trace) + old(interrupts) ==> WasIdle()
    {
      var idle := 0;
      for r := 0 to rounds
        invariant Valid() && old(trace) <= trace && pc == Waiting && interrupts <= old(interrupts)
        invariant Waits(Start(listener), trace) + idle >= r && (idle > old(interrupts) - interrupts ==> WasIdle())
      {
        ghost var before := trace;
        var count := WaitCall();
        if count == -1 {
          idle := idle + 1;
          if Idle(Abs()) { assert trace[..|trace|] == trace; }
        } else {
          ServeBatch();
        }
        StillIdle(before);
      }
      NoBusyLoop(listener, trace);
      if Failures(trace) == 0 { NothingMissed(listener, trace); }
      ListenerIsFixed(Start(listener), trace);
      forall fd | fd in mon && fd in conns && HasWork(Abs(), fd)
        ensures fd == listener || fd in armed
      {
        if fd != listener { NoLostWakeup(listener, trace, fd); }
      }
      if listener in mon && backlog != [] { AcceptFailureExact(listener, trace); }
      forall id | 0 <= id < |peer|
        ensures Copied(log, id) <= peer[id].all && (id in ended ==> Copied(log, id) == peer[id].all)
      {
        Delivered(listener, trace, id);
      }
    }

    // What has been in a run stays in what it goes on to.
    lemma StillIdle(before: seq<Action>)
      requires before <= trace
      ensures (exists j :: 0 <= j <= |before| && Idle(Exec(Start(listener), before[..j]))) ==> WasIdle()
    {
      if j :| 0 <= j <= |before| && Idle(Exec(Start(listener), before[..j])) {
        assert trace[..j] == before[..j];
      }
    }
  }
}
