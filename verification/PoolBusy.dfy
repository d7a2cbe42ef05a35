/** What the `busy` flag says, and what the idle sweep's use of it is worth
    (src/pool_loop.cpp:147-173, 209-226). */
module PoolBusy {
  import opened ConnectionHandling
  import opened ConnectionRuns
  import opened Kernel
  import opened PoolLoop
  import opened PoolAccounting
  import opened PoolTokens
  import opened PoolSessions
  import opened PoolRuns

  /** The thread is between setting the flag and clearing it. */
  predicate Owns(pc: Pc, k: Sock) { (pc.Handling? || pc.Decided?) && pc.sock == k }

  ghost predicate Owned(s: Pool, k: Sock) { exists t :: 0 <= t < |s.pcs| && Owns(s.pcs[t], k) }

  ghost predicate BusyIsOwned(s: Pool) { forall k :: k in s.busy <==> Owned(s, k) }

  lemma SameOwners(s: Pool, t: nat, r: Pool)
    requires BusyIsOwned(s) && t < |s.pcs| && |r.pcs| == |s.pcs| && r.pcs == s.pcs[t := r.pcs[t]]
    requires r.busy == s.busy && forall k :: Owns(r.pcs[t], k) <==> Owns(s.pcs[t], k)
    ensures BusyIsOwned(r)
  {
    forall k ensures Owned(r, k) <==> Owned(s, k) {
      assert forall u :: 0 <= u < |s.pcs| ==> (Owns(r.pcs[u], k) <==> Owns(s.pcs[u], k));
    }
  }

  lemma LookupOwns(s: Pool, t: nat, ev: Event)
    requires BusyIsOwned(s) && Thread(s, t) && s.pcs[t] == Popped(ev)
    ensures BusyIsOwned(LookedUp(s, t, ev))
  {
    var r := LookedUp(s, t, ev);
    if ev.fd !in s.table {
      SameOwners(s, t, r);
    } else {
      var k := s.table[ev.fd];
      assert Owns(r.pcs[t], k);
      assert forall u :: 0 <= u < |s.pcs| && u != t ==> r.pcs[u] == s.pcs[u];
      forall j | j != k ensures Owned(r, j) <==> Owned(s, j) {
        assert forall u :: 0 <= u < |s.pcs| ==> (Owns(r.pcs[u], j) <==> Owns(s.pcs[u], j));
      }
    }
  }

  lemma ReleaseDisowns(s: Pool, t: nat, k: Sock, action: Action)
    requires BusyIsOwned(s) && OneToken(s) && Sessions(s) && Thread(s, t) && s.pcs[t] == Decided(k, action)
    ensures BusyIsOwned(Released(s, t, k, action))
  {
    hide OneToken, Legal, ActionOf, Fits;
    var r := Released(s, t, k, action);
    SoleHolder(s, t, k.fd);
    forall u | 0 <= u < |s.pcs| && u != t ensures r.pcs[u] == s.pcs[u] && !Owns(s.pcs[u], k) {
      assert PcFits(s, s.pcs[u]);
    }
    forall j | j != k ensures Owned(r, j) <==> Owned(s, j) {
      assert forall u :: 0 <= u < |s.pcs| ==> (Owns(r.pcs[u], j) <==> Owns(s.pcs[u], j));
    }
  }

  lemma PollerOwnsNothing(s: Pool, a: Act)
    requires BusyIsOwned(s) && Enabled(s, a)
    requires a.Report? || a.Enqueue? || a.Accept? || a.Insert? || a.Count? || a.Add? || a.Sweep? || a.SweepNext?
    ensures BusyIsOwned(Apply(s, a))
  {
    hide BusyIsOwned, Reportable;
    SameOwners(s, 0, Apply(s, a));
  }

  lemma WorkerMoves(s: Pool, a: Act)
    requires BusyIsOwned(s) && Enabled(s, a) && (a.Pop? || a.Rearm?)
    ensures BusyIsOwned(Apply(s, a))
  {
    hide BusyIsOwned, ActionOf, Dispatches;
    SameOwners(s, a.t, Apply(s, a));
  }

  lemma HandlerMoves(s: Pool, t: nat, ev: Event, k: Sock, call: Call)
    requires BusyIsOwned(s) && Thread(s, t) && s.pcs[t] == Handling(ev, k)
    ensures BusyIsOwned(HandledBy(s, t, ev, k, call))
  {
    hide BusyIsOwned, ActionOf;
    SameOwners(s, t, HandledBy(s, t, ev, k, call));
  }

  lemma EraserMoves(s: Pool, t: nat, fd: Fd)
    requires BusyIsOwned(s) && Thread(s, t) && (s.pcs[t].Closing? || s.pcs[t].Sweeping?)
    ensures BusyIsOwned(ErasedBy(s, t, fd))
  {
    hide BusyIsOwned;
    SameOwners(s, t, ErasedBy(s, t, fd));
  }

  lemma RecorderMoves(s: Pool, t: nat)
    requires BusyIsOwned(s) && Thread(s, t) && s.pcs[t] == Unrecorded
    ensures BusyIsOwned(At(s, t, Idle).(active := s.active - 1))
  {
    hide BusyIsOwned;
    SameOwners(s, t, At(s, t, Idle).(active := s.active - 1));
  }

  lemma DetachMoves(s: Pool, a: Act)
    requires BusyIsOwned(s) && Enabled(s, a) && (a.Delete? || a.CloseFd?)
    ensures BusyIsOwned(Apply(s, a))
  {
    hide BusyIsOwned;
    SameOwners(s, a.t, Apply(s, a));
  }

  lemma StepKeepsOwners(s: Pool, a: Act)
    requires BusyIsOwned(s) && OneToken(s) && Sessions(s) && Enabled(s, a)
    ensures BusyIsOwned(Apply(s, a))
  {
    hide BusyIsOwned, OneToken, Sessions, LookedUp, HandledBy, Released, ErasedBy;
    match a
    case Lookup(t) => LookupOwns(s, t, s.pcs[t].ev);
    case Release(t) => ReleaseDisowns(s, t, s.pcs[t].sock, s.pcs[t].action);
    case Pop(_) => WorkerMoves(s, a);
    case Handle(t, call) => HandlerMoves(s, t, s.pcs[t].ev, s.pcs[t].sock, call);
    case Rearm(_, _) => WorkerMoves(s, a);
    case Erase(t) => EraserMoves(s, t, s.pcs[t].fd);
    case Delete(_) => DetachMoves(s, a);
    case CloseFd(_) => DetachMoves(s, a);
    case Record(t) => RecorderMoves(s, t);
    case Stop => StopOwnsNothing(s, a);
    case StopClear(_) => StopOwnsNothing(s, a);
    case StopClose => StopOwnsNothing(s, a);
    case StopRecord => StopOwnsNothing(s, a);
    case _ => PollerOwnsNothing(s, a);
  }

  lemma StopOwnsNothing(s: Pool, a: Act)
    requires BusyIsOwned(s) && Enabled(s, a) && (a.Stop? || a.StopClear? || a.StopClose? || a.StopRecord?)
    ensures BusyIsOwned(Apply(s, a))
  {
    var r := Apply(s, a);
    assert forall k :: Owned(r, k) <==> Owned(s, k);
  }

  lemma NobodyOwns(workers: nat)
    ensures BusyIsOwned(Start(workers))
  {
  }

  /** In every state a run reaches, the flag is set exactly on the connections a worker
      owns. */
  lemma {:induction false} BusyMeansOwned(workers: nat, acts: seq<Act>)
    requires Tame(workers, acts)
    ensures BusyIsOwned(After(workers, acts))
    decreases |acts|
  {
    hide BusyIsOwned, Apply, Enabled, OneToken, Sessions, Accounts, Assumed;
    if |acts| == 0 {
      NobodyOwns(workers);
    } else {
      var front := acts[..|acts| - 1];
      BusyMeansOwned(workers, front);
      TokenConservation(workers, front);
      var s, a := After(workers, front), acts[|acts| - 1];
      if Enabled(s, a) {
        StepKeepsOwners(s, a);
      }
    }
  }

  /** So no worker owns a connection at the moment the sweep lists it; and when the sweep
      comes to take it out of the table, a worker owns it exactly when the flag has been set
      again since. */
  lemma SweepLists(workers: nat, acts: seq<Act>, a: Act)
    requires Tame(workers, acts) && Enabled(After(workers, acts), a)
    ensures var s := After(workers, acts);
            && (a.Sweep? ==> forall fd :: fd in a.fds ==> !Owned(s, s.table[fd]))
            && (a.Erase? && s.pcs[a.t].Sweeping? && s.pcs[a.t].fd in s.table ==>
                  var k := s.table[s.pcs[a.t].fd];
                  Apply(s, a).pcs[a.t] == Erased(k) && (Owned(s, k) <==> k in s.busy))
  {
    hide After, Tame, Owned, ActionOf, Dispatches;
    BusyMeansOwned(workers, acts);
  }

  // ---- which does happen ------------------------------------------------------------------

  function LateSweep(fd: Fd): seq<Act> {
    Arrival(fd) + [Report(Ready(fd)), Enqueue] + [Sweep([fd])] + [Pop(1), Lookup(1)] + [SweepNext, Erase(0)]
  }

  lemma ListStage(s: Pool, fd: Fd)
    requires Poller(s, Idle) && s.expired == [] && s.batch == [] && fd in s.table && s.table[fd] !in s.busy
    ensures Follow(s, [Sweep([fd])]) == s.(expired := [fd])
  {
    hide Reportable, Dispatches;
    assert [Sweep([fd])][1..] == [];
    assert Next(s, Sweep([fd])) == s.(expired := [fd]);
  }

  lemma TakeStage(s: Pool, fd: Fd)
    requires Poller(s, Idle) && s.expired == [fd] && fd in s.table
    ensures Follow(s, [SweepNext, Erase(0)]) ==
            At(s, 0, Erased(s.table[fd])).(expired := [], table := s.table - {fd})
  {
    hide Next, Follow, Enabled, Apply;
    FollowTwo(s, SweepNext, Erase(0));
    NextSwept(s);
    NextErase(Swept(s), 0, fd);
  }

  lemma NextSwept(s: Pool)
    requires Poller(s, Idle) && s.expired != []
    ensures Next(s, SweepNext) == Swept(s)
  {
    hide Swept, Reportable, Dispatches;
  }

  /** A first accept reuses nothing. */
  lemma FirstAcceptIsTame(workers: nat, fd: Fd)
    ensures Tame(workers, [Accept(fd)])
  {
    hide Enabled, Apply;
    assert [Accept(fd)][..0] == [];
    NobodyHolds(workers + 1, fd);
  }

  lemma LateSweepIsTame(fd: Fd)
    ensures Tame(1, LateSweep(fd))
  {
    hide Tame;
    var first, later := [Accept(fd)], LateSweep(fd)[1..];
    assert LateSweep(fd) == first + later;
    FirstAcceptIsTame(1, fd);
    HarmlessIsTame(1, first, later);
  }

  /** The flag is read when the list is drawn up, not when the connection is closed: a
      connection can be taken out of the table, to be closed, under a worker's handler. No
      descriptor is reused. */
  lemma SweepTakesOwned(fd: Fd)
    ensures Tame(1, LateSweep(fd))
    ensures var s := After(1, LateSweep(fd));
            Thread(s, 1) && s.pcs[0].Erased? && Owns(s.pcs[1], s.pcs[0].sock)
  {
    hide Enabled, Apply, Follow, Next, Arrival, Ready, Tame;
    LateSweepIsTame(fd);
    var acts0 := Arrival(fd);
    var acts1 := acts0 + [Report(Ready(fd)), Enqueue];
    var acts2 := acts1 + [Sweep([fd])];
    var acts3 := acts2 + [Pop(1), Lookup(1)];
    assert Start(1).pcs == [Idle, Idle];
    assert [] + acts0 == acts0;
    AfterFollows(1, [], acts0);
    ArrivalStage(Start(1), fd);
    AfterFollows(1, acts0, [Report(Ready(fd)), Enqueue]);
    ReportStage(After(1, acts0), fd);
    AfterFollows(1, acts1, [Sweep([fd])]);
    ListStage(After(1, acts1), fd);
    AfterFollows(1, acts2, [Pop(1), Lookup(1)]);
    ReadyNames(fd);
    WorkerStage(After(1, acts2), 1, Ready(fd));
    AfterFollows(1, acts3, [SweepNext, Erase(0)]);
    TakeStage(After(1, acts3), fd);
  }
}
