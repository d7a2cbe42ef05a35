/** Descriptor accounting of the pool in every interleaving, descriptor reuse and stop()
    included (src/pool_loop.cpp:91-110, 197-207, 228-249, src/metrics.cpp:31-38). */
module PoolAccounting {
  import opened ConnectionHandling
  import opened ConnectionRuns
  import opened Kernel
  import Ledger
  import opened Sequences
  import opened PoolLoop

  /** The socket a thread alone answers for: accepted but not in the table yet, or out of
      the table but not closed yet. */
  function Limbo(pc: Pc): set<Sock> {
    if pc.Accepted? || pc.Erased? || pc.Deleted? then {pc.sock} else {}
  }

  /** The table, what stop() has still to close, and each thread. */
  ghost function Places(s: Pool): seq<set<Sock>> {
    [s.table.Values, set k | k in s.stopList] + seq(|s.pcs|, t requires 0 <= t < |s.pcs| => Limbo(s.pcs[t]))
  }

  ghost function Books(s: Pool): Ledger.Ledger {
    Ledger.Ledger(s.open, s.serial, Places(s))
  }

  /** What a thread still owes `activeConnections`. */
  function Pending(pc: Pc): int {
    if pc.Inserted? then -1
    else if pc.Erased? || pc.Deleted? || pc.Unrecorded? then 1
    else 0
  }

  /** The gauge is the size of the table, plus closers that have not recorded, minus an
      insert that has not. */
  predicate Balanced(s: Pool) {
    s.active == |s.table| + Total(s.pcs, Pending) + |s.stopList| + (if s.stopUnrecorded then 1 else 0)
  }

  ghost predicate Accounts(s: Pool) {
    && |s.pcs| > 0
    && Ledger.Partition(Books(s))
    && Balanced(s)
    && Ledger.Keyed(s.table)
    && Distinct(s.stopList)
    && (s.stop != Draining ==> s.stopList == [] && !s.stopUnrecorded)
    && forall fd :: fd in s.epoll ==> fd in s.open
  }

  lemma PlacesOf(s: Pool, t: nat)
    requires t < |s.pcs|
    ensures |Places(s)| == |s.pcs| + 2
    ensures Places(s)[0] == s.table.Values && Places(s)[t + 2] == Limbo(s.pcs[t])
  {
  }

  lemma PlacesAt(s: Pool, t: nat, pc: Pc, r: Pool)
    requires t < |s.pcs| && r.pcs == s.pcs[t := pc] && r.table == s.table && r.stopList == s.stopList
    ensures Places(r) == Places(s)[t + 2 := Limbo(pc)]
  {
  }

  /** A step of one thread that moves no socket. */
  lemma QuietStep(s: Pool, t: nat, r: Pool)
    requires Accounts(s) && t < |s.pcs|
    requires |r.pcs| == |s.pcs| && r.pcs == s.pcs[t := r.pcs[t]] && Limbo(r.pcs[t]) == Limbo(s.pcs[t])
    requires r.open == s.open && r.serial == s.serial && r.table == s.table
    requires r.stopList == s.stopList && r.stopUnrecorded == s.stopUnrecorded
    requires r.stop == s.stop || (r.stop == Exchanged && s.stop == Running)
    requires r.active - s.active == Pending(r.pcs[t]) - Pending(s.pcs[t])
    requires forall fd :: fd in r.epoll ==> fd in s.open
    ensures Accounts(r)
  {
    hide Ledger.Partition;
    PlacesAt(s, t, r.pcs[t], r);
    assert Places(s)[t + 2] == Limbo(s.pcs[t]);
    assert Places(r) == Places(s);
    TotalUpdate(s.pcs, t, r.pcs[t], Pending);
  }

  /** A step of one thread whose effect on the books is already known to be a move. */
  lemma MoverStep(s: Pool, t: nat, r: Pool)
    requires Accounts(s) && t < |s.pcs| && |r.pcs| == |s.pcs| && r.pcs == s.pcs[t := r.pcs[t]]
    requires Ledger.Partition(Books(r)) && Ledger.Keyed(r.table)
    requires r.stop == s.stop && r.stopList == s.stopList && r.stopUnrecorded == s.stopUnrecorded
    requires r.active - s.active == |r.table| - |s.table| + Pending(r.pcs[t]) - Pending(s.pcs[t])
    requires forall fd :: fd in r.epoll ==> fd in r.open
    ensures Accounts(r)
  {
    hide Ledger.Partition, Places;
    TotalUpdate(s.pcs, t, r.pcs[t], Pending);
  }

  lemma AcceptBooks(s: Pool, k: Sock)
    requires |s.pcs| > 0 && Ledger.Partition(Books(s)) && s.pcs[0] == Idle
    requires k.fd !in s.open && k.serial == s.serial
    ensures Ledger.Partition(Books(AcceptedAs(s, k)))
  {
    hide Ledger.Partition, Places;
    var r := AcceptedAs(s, k);
    PlacesOf(s, 0);
    PlacesAt(s, 0, Accepted(k), r);
    Ledger.AcceptKeeps(Books(s), 2, k.fd);
    assert {} + {k} == {k};
    assert Books(r) == Ledger.Accept(Books(s), 2, k.fd);
  }

  lemma AcceptStep(s: Pool, k: Sock)
    requires Accounts(s) && s.pcs[0] == Idle && k.fd !in s.open && k.serial == s.serial
    ensures Accounts(AcceptedAs(s, k))
  {
    hide Ledger.Partition, Places, Balanced;
    AcceptBooks(s, k);
    MoverStep(s, 0, AcceptedAs(s, k));
  }

  /** A thread's place answers for a socket that is open and in no other place. */
  lemma LimboIsLoose(s: Pool, t: nat)
    requires Ledger.Partition(Books(s)) && Ledger.Keyed(s.table) && t < |s.pcs| && Limbo(s.pcs[t]) != {}
    ensures var k := s.pcs[t].sock;
            k in Places(s)[t + 2] && k.fd in s.open && s.open[k.fd] == k && k.fd !in s.table
  {
    var places := Books(s).places;
    assert s.pcs[t].sock in places[t + 2];
    assert places[0] !! places[t + 2];
    assert forall fd :: fd in s.table ==> s.table[fd] in places[0];
  }

  lemma InsertStep(s: Pool, k: Sock)
    requires Accounts(s) && s.pcs[0] == Accepted(k)
    ensures Accounts(InsertedAs(s, k))
  {
    var r := InsertedAs(s, k);
    InsertMoves(s, k);
    MoverStep(s, 0, r);
  }

  lemma InsertMoves(s: Pool, k: Sock)
    requires |s.pcs| > 0 && Ledger.Partition(Books(s)) && Ledger.Keyed(s.table) && s.pcs[0] == Accepted(k)
    ensures var r := InsertedAs(s, k);
            Ledger.Partition(Books(r)) && Ledger.Keyed(r.table) && |r.table| == |s.table| + 1
  {
    hide Ledger.Partition;
    LimboIsLoose(s, 0);
    Ledger.TableInsert(s.table, k);
    Ledger.MoveKeeps(Books(s), 2, 0, {k});
    PlacesInserted(s, k);
    assert Places(s)[2] - {k} == {};
  }

  lemma PlacesInserted(s: Pool, k: Sock)
    requires |s.pcs| > 0
    ensures Places(InsertedAs(s, k)) == Places(s)[2 := {}][0 := s.table[k.fd := k].Values]
  {
  }

  lemma EraseMoves(s: Pool, t: nat, fd: Fd)
    requires Ledger.Partition(Books(s)) && Ledger.Keyed(s.table) && fd in s.table
    requires t < |s.pcs| && Limbo(s.pcs[t]) == {}
    ensures var r := ErasedBy(s, t, fd);
            Ledger.Partition(Books(r)) && Ledger.Keyed(r.table) && |r.table| == |s.table| - 1
  {
    hide Ledger.Partition, Places;
    var k := s.table[fd];
    Ledger.TableErase(s.table, fd);
    PlacesOf(s, t);
    Ledger.MoveKeeps(Books(s), 0, t + 2, {k});
    PlacesErased(s, t, fd);
    assert {} + {k} == {k};
  }

  lemma PlacesErased(s: Pool, t: nat, fd: Fd)
    requires t < |s.pcs| && fd in s.table
    ensures Places(ErasedBy(s, t, fd)) == Places(s)[0 := (s.table - {fd}).Values][t + 2 := {s.table[fd]}]
  {
  }

  lemma EraseStep(s: Pool, t: nat, fd: Fd)
    requires Accounts(s) && t < |s.pcs| && Limbo(s.pcs[t]) == {} && Pending(s.pcs[t]) == 0
    ensures Accounts(ErasedBy(s, t, fd))
  {
    if fd in s.table {
      EraseMoves(s, t, fd);
      MoverStep(s, t, ErasedBy(s, t, fd));
    } else {
      QuietStep(s, t, ErasedBy(s, t, fd));
    }
  }

  lemma CloseStep(s: Pool, t: nat, k: Sock)
    requires Accounts(s) && t < |s.pcs| && s.pcs[t] == Deleted(k)
    ensures Accounts(ClosedBy(s, t, k))
  {
    hide Ledger.Partition, Places, Balanced;
    var r := ClosedBy(s, t, k);
    PlacesOf(s, t);
    PlacesAt(s, t, Unrecorded, r);
    Ledger.CloseKeeps(Books(s), t + 2, k);
    assert {k} - {k} == {};
    assert Books(r) == Ledger.Close(Books(s), t + 2, k);
    MoverStep(s, t, r);
  }

  lemma {:induction false} DistinctSize<T>(xs: seq<T>, all: set<T>)
    requires Distinct(xs) && forall x :: x in xs <==> x in all
    ensures |xs| == |all|
  {
    if xs == [] {
      assert all == {};
    } else {
      var x := xs[0];
      assert x in all;
      assert forall y :: y in xs[1..] <==> y in all - {x};
      DistinctSize(xs[1..], all - {x});
    }
  }

  lemma ClearMoves(s: Pool, order: seq<Sock>)
    requires Ledger.Partition(Books(s)) && s.stopList == []
    requires forall k :: k in order <==> k in s.table.Values
    ensures Ledger.Partition(Books(Cleared(s, order)))
  {
    hide Ledger.Partition;
    var r, all := Cleared(s, order), s.table.Values;
    Ledger.MoveKeeps(Books(s), 0, 1, all);
    assert all - all == {} && {} + all == all;
    assert Places(s)[0] == all && Places(s)[1] == {};
    assert Places(r)[0] == {} && Places(r)[1] == all;
    assert forall i :: 2 <= i < |Places(s)| ==> Places(r)[i] == Places(s)[i];
    assert Places(r) == Ledger.Move(Books(s), 0, 1, all).places;
  }

  lemma ClearStep(s: Pool, order: seq<Sock>)
    requires Accounts(s) && s.stop == Exchanged && Distinct(order)
    requires forall k :: k in order <==> k in s.table.Values
    ensures Accounts(Cleared(s, order))
  {
    hide Ledger.Partition, Places;
    ClearMoves(s, order);
    DistinctSize(order, s.table.Values);
    Ledger.TableSize(s.table);
  }

  lemma StopCloseMoves(s: Pool)
    requires Ledger.Partition(Books(s)) && s.stopList != [] && Distinct(s.stopList)
    ensures Ledger.Partition(Books(StopClosed(s)))
  {
    hide Ledger.Partition;
    var k := s.stopList[0];
    assert k in Places(s)[1];
    Ledger.CloseKeeps(Books(s), 1, k);
    assert (set j | j in s.stopList[1..]) == (set j | j in s.stopList) - {k};
    assert Places(StopClosed(s)) == Ledger.Close(Books(s), 1, k).places;
  }

  lemma StopCloseStep(s: Pool)
    requires Accounts(s) && s.stopList != [] && !s.stopUnrecorded
    ensures Accounts(StopClosed(s))
  {
    hide Ledger.Partition, Places;
    StopCloseMoves(s);
  }

  lemma StopRecordStep(s: Pool)
    requires Accounts(s) && s.stopUnrecorded
    ensures Accounts(s.(stopUnrecorded := false, active := s.active - 1))
  {
    hide Ledger.Partition;
    assert Places(s.(stopUnrecorded := false, active := s.active - 1)) == Places(s);
  }

  lemma PollerStep(s: Pool, a: Act)
    requires Accounts(s) && Enabled(s, a)
    requires a.Report? || a.Enqueue? || a.Count? || a.Add? || a.Sweep? || a.SweepNext? || a.Stop?
    ensures Accounts(Apply(s, a))
  {
    hide Ledger.Partition, Run, Legal, Places, Total;
    var r := Apply(s, a);
    assert r.pcs == s.pcs[0 := r.pcs[0]];
    QuietStep(s, 0, r);
  }

  lemma PopStep(s: Pool, t: nat)
    requires Accounts(s) && t < |s.pcs| && s.pcs[t] == Idle && s.queue != []
    ensures Accounts(PoppedBy(s, t))
  {
    hide Ledger.Partition, Places, Total;
    QuietStep(s, t, PoppedBy(s, t));
  }

  lemma LookupStep(s: Pool, t: nat, ev: Event)
    requires Accounts(s) && t < |s.pcs| && s.pcs[t] == Popped(ev)
    ensures Accounts(LookedUp(s, t, ev))
  {
    hide Ledger.Partition, Places, Total;
    QuietStep(s, t, LookedUp(s, t, ev));
  }

  lemma HandleStep(s: Pool, t: nat, ev: Event, k: Sock, call: Call)
    requires Accounts(s) && t < |s.pcs| && s.pcs[t] == Handling(ev, k)
    ensures Accounts(HandledBy(s, t, ev, k, call))
  {
    hide Ledger.Partition, Places, Total, ActionOf;
    QuietStep(s, t, HandledBy(s, t, ev, k, call));
  }

  lemma ReleaseStep(s: Pool, t: nat, k: Sock, action: Action)
    requires Accounts(s) && t < |s.pcs| && s.pcs[t] == Decided(k, action)
    ensures Accounts(Released(s, t, k, action))
  {
    hide Ledger.Partition, Places, Total;
    QuietStep(s, t, Released(s, t, k, action));
  }

  lemma RearmStep(s: Pool, t: nat, fd: Fd, w: Wait, ok: bool)
    requires Accounts(s) && t < |s.pcs| && s.pcs[t] == Rearming(fd, w) && (ok ==> fd in s.epoll)
    ensures Accounts(Rearmed(s, t, fd, w, ok))
  {
    hide Ledger.Partition, Places, Total;
    QuietStep(s, t, Rearmed(s, t, fd, w, ok));
  }

  lemma DeleteStep(s: Pool, t: nat, k: Sock)
    requires Accounts(s) && t < |s.pcs| && s.pcs[t] == Erased(k)
    ensures Accounts(DeletedBy(s, t, k))
  {
    hide Ledger.Partition, Places, Total;
    QuietStep(s, t, DeletedBy(s, t, k));
  }

  lemma RecordStep(s: Pool, t: nat)
    requires Accounts(s) && t < |s.pcs| && s.pcs[t] == Unrecorded
    ensures Accounts(At(s, t, Idle).(active := s.active - 1))
  {
    hide Ledger.Partition, Places, Total;
    QuietStep(s, t, At(s, t, Idle).(active := s.active - 1));
  }

  lemma StepAccounts(s: Pool, a: Act)
    requires Accounts(s) && Enabled(s, a)
    ensures Accounts(Apply(s, a))
  {
    hide AcceptedAs, InsertedAs, ErasedBy, DeletedBy, ClosedBy, Cleared, StopClosed;
    hide PoppedBy, LookedUp, HandledBy, Released, Rearmed;
    hide Ledger.Partition, Balanced, Places;
    match a
    case Accept(fd) => AcceptStep(s, Sock(fd, s.serial));
    case Insert => InsertStep(s, s.pcs[0].sock);
    case Erase(t) => EraseStep(s, t, s.pcs[t].fd);
    case CloseFd(t) => CloseStep(s, t, s.pcs[t].sock);
    case StopClear(order) => ClearStep(s, order);
    case StopClose => StopCloseStep(s);
    case StopRecord => StopRecordStep(s);
    case Delete(t) => DeleteStep(s, t, s.pcs[t].sock);
    case Record(t) => RecordStep(s, t);
    case Pop(t) => PopStep(s, t);
    case Lookup(t) => LookupStep(s, t, s.pcs[t].ev);
    case Handle(t, call) => HandleStep(s, t, s.pcs[t].ev, s.pcs[t].sock, call);
    case Release(t) => ReleaseStep(s, t, s.pcs[t].sock, s.pcs[t].action);
    case Rearm(t, ok) => RearmStep(s, t, s.pcs[t].fd, s.pcs[t].w, ok);
    case _ => PollerStep(s, a);
  }

  lemma {:induction false} AllIdle(n: nat)
    ensures Total(seq(n, i => Idle), Pending) == 0
  {
    if n > 0 {
      AllIdle(n - 1);
      assert seq(n, i => Idle)[1..] == seq(n - 1, i => Idle);
    }
  }

  lemma StartAccounts(workers: nat)
    ensures Accounts(Start(workers))
  {
    AllIdle(workers + 1);
    var s := Start(workers);
    assert forall i :: 0 <= i < |Places(s)| ==> Places(s)[i] == {};
  }

  /** Descriptor accounting. In every state any interleaving reaches, the open client
      descriptors are the disjoint union of the table, the sockets stop() has still to close
      and the one each thread has accepted but not inserted or erased but not closed; and
      the gauge is off from the size of the table by exactly the steps still owed. */
  lemma {:induction false} DescriptorAccounting(workers: nat, acts: seq<Act>)
    ensures Accounts(After(workers, acts))
    decreases |acts|
  {
    hide Accounts, Apply, Enabled;
    if |acts| == 0 {
      StartAccounts(workers);
    } else {
      var front := acts[..|acts| - 1];
      DescriptorAccounting(workers, front);
      var s, a := After(workers, front), acts[|acts| - 1];
      if Enabled(s, a) {
        StepAccounts(s, a);
      }
    }
  }

  /** So every close that is about to happen hits an open descriptor, the very socket that
      left the table under that number, and nobody else is about to close it. */
  lemma ClosesOnce(s: Pool, t: nat)
    requires Accounts(s) && t < |s.pcs| && (s.pcs[t].Erased? || s.pcs[t].Deleted?)
    ensures var k := s.pcs[t].sock;
            && k.fd in s.open && s.open[k.fd] == k && k.fd !in s.table && k !in s.stopList
            && forall u :: 0 <= u < |s.pcs| && u != t ==> k !in Limbo(s.pcs[u])
  {
    hide Balanced;
    LimboIsLoose(s, t);
    var places := Books(s).places;
    assert places[1] !! places[t + 2];
    assert forall k :: k in s.stopList ==> k in places[1];
    forall u | 0 <= u < |s.pcs| && u != t ensures s.pcs[t].sock !in Limbo(s.pcs[u]) {
      assert places[if u < t then u + 2 else t + 2] !! places[if u < t then t + 2 else u + 2];
      assert places[u + 2] == Limbo(s.pcs[u]);
    }
  }

  /** And once every thread and stop() has finished what it began, the gauge is the table. */
  lemma GaugeAtRest(workers: nat, acts: seq<Act>)
    requires var s := After(workers, acts);
             s.stopList == [] && !s.stopUnrecorded && forall t :: 0 <= t < |s.pcs| ==> Pending(s.pcs[t]) == 0
    ensures var s := After(workers, acts); s.active == |s.table|
  {
    DescriptorAccounting(workers, acts);
    TotalZero(After(workers, acts).pcs);
  }

  lemma {:induction false} TotalZero(pcs: seq<Pc>)
    requires forall t :: 0 <= t < |pcs| ==> Pending(pcs[t]) == 0
    ensures Total(pcs, Pending) == 0
  {
    if |pcs| > 0 {
      TotalZero(pcs[1..]);
    }
  }
}
