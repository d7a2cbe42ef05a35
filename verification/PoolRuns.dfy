/** Whole runs of the pool: every accepted socket is closed exactly once or still open, and
    what the kernel assumption behind exclusive handling is worth
    (src/pool_loop.cpp:91-110, 197-207, 228-249). */
module PoolRuns {
  import opened Text
  import opened ConnectionRuns
  import opened Kernel
  import Ledger
  import opened Sequences
  import opened PoolLoop
  import opened PoolAccounting
  import opened PoolTokens

  // ---- conservation of sockets -----------------------------------------------------

  /** The descriptor number a step passes to close(). */
  ghost function ClosesNumber(s: Pool, a: Act): Option<Fd>
    requires Enabled(s, a)
  {
    match a
    case CloseFd(t) => Some(s.pcs[t].sock.fd)
    case StopClose => Some(s.stopList[0].fd)
    case _ => None
  }

  ghost function Hits(workers: nat, acts: seq<Act>): seq<Ledger.Hit> {
    if |acts| == 0 then []
    else
      var front, a := acts[..|acts| - 1], acts[|acts| - 1];
      var s := After(workers, front);
      if Enabled(s, a) && ClosesNumber(s, a).Some?
      then Hits(workers, front) + [Ledger.HitBy(s.open, ClosesNumber(s, a).value)]
      else Hits(workers, front)
  }

  /** The sockets accept has returned. */
  ghost function Accepts(workers: nat, acts: seq<Act>): seq<Sock> {
    if |acts| == 0 then []
    else
      var front, a := acts[..|acts| - 1], acts[|acts| - 1];
      var s := After(workers, front);
      if Enabled(s, a) && a.Accept? then Accepts(workers, front) + [Sock(a.fd, s.serial)]
      else Accepts(workers, front)
  }

  lemma PollerOpensNothing(s: Pool, a: Act)
    requires Enabled(s, a)
    requires a.Report? || a.Enqueue? || a.Insert? || a.Count? || a.Add? || a.Sweep? || a.SweepNext?
    ensures Apply(s, a).open == s.open && Apply(s, a).serial == s.serial
  {
  }

  lemma WorkerOpensNothing(s: Pool, a: Act)
    requires Enabled(s, a) && (a.Pop? || a.Lookup?)
    ensures Apply(s, a).open == s.open && Apply(s, a).serial == s.serial
  {
    hide ActionOf, Dispatches, Reportable, Run, Legal;
  }

  lemma HandlerOpensNothing(s: Pool, t: nat, ev: Event, k: Sock, call: Call)
    requires Thread(s, t)
    ensures HandledBy(s, t, ev, k, call).open == s.open && HandledBy(s, t, ev, k, call).serial == s.serial
  {
    hide ActionOf;
  }

  lemma ReleaserOpensNothing(s: Pool, a: Act)
    requires Enabled(s, a) && (a.Release? || a.Rearm?)
    ensures Apply(s, a).open == s.open && Apply(s, a).serial == s.serial
  {
    hide ActionOf, Dispatches, Reportable, Run, Legal;
  }

  lemma CloserOpensNothing(s: Pool, a: Act)
    requires Enabled(s, a) && (a.Erase? || a.Delete? || a.Record?)
    ensures Apply(s, a).open == s.open && Apply(s, a).serial == s.serial
  {
    hide ActionOf, Dispatches, Reportable, Run, Legal;
  }

  lemma OpenStays(s: Pool, a: Act)
    requires Enabled(s, a) && !a.Accept? && ClosesNumber(s, a).None?
    ensures Apply(s, a).open == s.open && Apply(s, a).serial == s.serial
  {
    hide Reported, InsertedAs, Added, Swept, PoppedBy, LookedUp, HandledBy, Released, Rearmed, ErasedBy, DeletedBy;
    if a.Handle? {
      HandlerOpensNothing(s, a.t, s.pcs[a.t].ev, s.pcs[a.t].sock, a.call);
    } else if a.Report? || a.Enqueue? || a.Insert? || a.Count? || a.Add? || a.Sweep? || a.SweepNext? {
      PollerOpensNothing(s, a);
    } else if a.Pop? || a.Lookup? {
      WorkerOpensNothing(s, a);
    } else if a.Release? || a.Rearm? {
      ReleaserOpensNothing(s, a);
    } else if a.Erase? || a.Delete? || a.Record? {
      CloserOpensNothing(s, a);
    }
  }

  /** Over every interleaving, descriptor reuse and stop() included: no close ever misses,
      none hits a socket twice, and the sockets accepted are exactly those closed once and
      those still open, which are different ones. */
  lemma {:induction false} SocketsAreConserved(workers: nat, acts: seq<Act>)
    ensures var s := After(workers, acts);
            Ledger.Conserved(s.open, s.serial, Accepts(workers, acts), Hits(workers, acts))
    decreases |acts|
  {
    hide Ledger.Conserved, Apply, Enabled, Accounts;
    if |acts| == 0 {
      Ledger.NothingConserved(0);
    } else {
      var front, a := acts[..|acts| - 1], acts[|acts| - 1];
      SocketsAreConserved(workers, front);
      DescriptorAccounting(workers, front);
      var s := After(workers, front);
      if Enabled(s, a) {
        StepConserves(s, a, Accepts(workers, front), Hits(workers, front));
      }
    }
  }

  lemma StepConserves(s: Pool, a: Act, accepts: seq<Sock>, hits: seq<Ledger.Hit>)
    requires Accounts(s) && Enabled(s, a) && Ledger.Conserved(s.open, s.serial, accepts, hits)
    ensures var r := Apply(s, a);
            Ledger.Conserved(r.open, r.serial,
                      if a.Accept? then accepts + [Sock(a.fd, s.serial)] else accepts,
                      if ClosesNumber(s, a).Some?
                      then hits + [Ledger.HitBy(s.open, ClosesNumber(s, a).value)] else hits)
  {
    hide Ledger.Conserved, Ledger.Partition, Balanced, ActionOf;
    if a.Accept? {
      Ledger.AcceptConserves(s.open, s.serial, a.fd, accepts, hits);
    } else if a.CloseFd? {
      LimboIsLoose(s, a.t);
      Ledger.CloseConserves(s.open, s.serial, s.pcs[a.t].sock, accepts, hits);
    } else if a.StopClose? {
      StopListIsLoose(s);
      Ledger.CloseConserves(s.open, s.serial, s.stopList[0], accepts, hits);
    } else {
      OpenStays(s, a);
    }
  }

  // ---- the kernel assumption is exact ------------------------------------------------

  /** A step keeps one token on every connection exactly when the kernel meets the
      assumption on it. */
  lemma AssumptionIsExact(s: Pool, a: Act)
    requires Accounts(s) && OneToken(s) && Enabled(s, a)
    requires a.Handle? ==> s.pcs[a.t].sock.fd == s.pcs[a.t].ev.fd
    ensures OneToken(Apply(s, a)) <==> Assumed(s, a)
  {
    hide Accounts, OneToken, Named, ActionOf;
    if Assumed(s, a) {
      StepKeepsOneToken(s, a);
    } else if a.Accept? {
      AcceptDoubles(s, a.fd);
    } else {
      LostToken(s, s.pcs[0].sock);
    }
  }

  lemma AcceptDoubles(s: Pool, fd: Fd)
    requires Thread(s, 0) && s.pcs[0] == Idle && Named(s, fd) != 0
    ensures !OneToken(AcceptedAs(s, Sock(fd, s.serial)))
  {
    var r := AcceptedAs(s, Sock(fd, s.serial));
    EventsNonNegative(s.batch, fd);
    EventsNonNegative(s.queue, fd);
    TotalBounds(s.pcs, 0, 0, Holding(fd));
    TotalUpdate(s.pcs, 0, Accepted(Sock(fd, s.serial)), Holding(fd));
    assert Tokens(r, fd) > 1;
  }

  lemma LostToken(s: Pool, k: Sock)
    requires OneToken(s) && Thread(s, 0) && s.pcs[0] == Counted(k) && k.fd in s.table
    ensures !OneToken(Added(s, k.fd, false))
  {
    var r := Added(s, k.fd, false);
    TotalUpdate(s.pcs, 0, Idle, Holding(k.fd));
    assert Tokens(r, k.fd) == 0;
  }

  // ---- and it is needed -----------------------------------------------------------------

  function Arrival(fd: Fd): seq<Act> { [Accept(fd), Insert, Count, Add(true)] }

  function Ready(fd: Fd): Event { Event(fd, true, false, false, false) }

  function Departure(fd: Fd): seq<Act> {
    [Sweep([fd]), SweepNext, Erase(0), Delete(0), CloseFd(0), Record(0)]
  }

  /** A connection is reported and queued, swept as idle, and its number accepted again while
      the old event still waits; both events then find the new connection. */
  function ReuseRun(fd: Fd): seq<Act> {
    Arrival(fd) + [Report(Ready(fd)), Enqueue] + Departure(fd) +
    Arrival(fd) + [Report(Ready(fd)), Enqueue] + [Pop(1), Lookup(1)] + [Pop(2), Lookup(2)]
  }

  ghost function Next(s: Pool, a: Act): Pool { if Enabled(s, a) then Apply(s, a) else s }

  ghost function Follow(s: Pool, acts: seq<Act>): Pool
    decreases |acts|
  {
    if |acts| == 0 then s else Follow(Next(s, acts[0]), acts[1..])
  }

  lemma {:induction false} AfterFollows(workers: nat, acts: seq<Act>, more: seq<Act>)
    ensures After(workers, acts + more) == Follow(After(workers, acts), more)
    decreases |more|
  {
    hide Enabled, Apply;
    if |more| == 0 {
      assert acts + more == acts;
    } else {
      var first := acts + [more[0]];
      assert acts + more == first + more[1..];
      assert first[..|first| - 1] == acts;
      AfterFollows(workers, first, more[1..]);
    }
  }

  lemma FollowTwo(s: Pool, a: Act, b: Act)
    ensures Follow(s, [a, b]) == Next(Next(s, a), b)
  {
    hide Next;
    var s1 := Next(s, a);
    assert [a, b][1..] == [b];
    assert [b][1..] == [];
    assert Follow(s1, [b]) == Follow(Next(s1, b), [b][1..]);
  }

  lemma FollowFour(s: Pool, a: Act, b: Act, c: Act, d: Act)
    ensures Follow(s, [a, b, c, d]) == Next(Next(Next(Next(s, a), b), c), d)
  {
    hide Next;
    assert [a, b, c, d][1..] == [b, c, d];
    assert [b, c, d][1..] == [c, d];
    FollowTwo(Next(Next(s, a), b), c, d);
  }

  lemma NextErase(s: Pool, t: nat, fd: Fd)
    requires Thread(s, t) && s.pcs[t] == Sweeping(fd)
    ensures Next(s, Erase(t)) == ErasedBy(s, t, fd)
  {
    hide ErasedBy, DeletedBy, ClosedBy, PoppedBy, LookedUp, Reportable, Dispatches, Distinct;
  }

  lemma NextDelete(s: Pool, t: nat, k: Sock)
    requires Thread(s, t) && s.pcs[t] == Erased(k)
    ensures Next(s, Delete(t)) == DeletedBy(s, t, k)
  {
    hide ErasedBy, DeletedBy, ClosedBy, PoppedBy, LookedUp, Reportable, Dispatches, Distinct;
  }

  lemma NextClose(s: Pool, t: nat, k: Sock)
    requires Thread(s, t) && s.pcs[t] == Deleted(k)
    ensures Next(s, CloseFd(t)) == ClosedBy(s, t, k)
  {
    hide ErasedBy, DeletedBy, ClosedBy, PoppedBy, LookedUp, Reportable, Dispatches, Distinct;
  }

  lemma NextRecord(s: Pool, t: nat)
    requires Thread(s, t) && s.pcs[t] == Unrecorded
    ensures Next(s, Record(t)) == At(s, t, Idle).(active := s.active - 1)
  {
    hide ErasedBy, DeletedBy, ClosedBy, PoppedBy, LookedUp, Reportable, Dispatches, Distinct;
  }

  lemma NextPop(s: Pool, t: nat)
    requires Thread(s, t) && t > 0 && s.pcs[t] == Idle && s.queue != []
    ensures Next(s, Pop(t)) == PoppedBy(s, t)
  {
    hide ErasedBy, DeletedBy, ClosedBy, PoppedBy, LookedUp, Reportable, Dispatches, Distinct;
  }

  lemma NextLookup(s: Pool, t: nat, ev: Event)
    requires Thread(s, t) && t > 0 && s.pcs[t] == Popped(ev)
    ensures Next(s, Lookup(t)) == LookedUp(s, t, ev)
  {
    hide ErasedBy, DeletedBy, ClosedBy, PoppedBy, LookedUp, Reportable, Dispatches, Distinct;
  }

  lemma NextAccept(s: Pool, fd: Fd)
    requires Poller(s, Idle) && s.expired == [] && fd !in s.open
    ensures Next(s, Accept(fd)) == AcceptedAs(s, Sock(fd, s.serial))
  {
    hide AcceptedAs, InsertedAs, Added, Reportable, Dispatches;
  }

  lemma NextInsert(s: Pool, k: Sock)
    requires Poller(s, Accepted(k))
    ensures Next(s, Insert) == InsertedAs(s, k)
  {
    hide AcceptedAs, InsertedAs, Added, Reportable, Dispatches;
  }

  lemma NextCount(s: Pool, k: Sock)
    requires Poller(s, Inserted(k))
    ensures Next(s, Count) == At(s, 0, Counted(k)).(active := s.active + 1)
  {
    hide AcceptedAs, InsertedAs, Added, Reportable, Dispatches;
  }

  lemma NextAdd(s: Pool, k: Sock)
    requires Poller(s, Counted(k)) && Ledger.IsOpen(s.open, k)
    ensures Next(s, Add(true)) == Added(s, k.fd, true)
  {
    hide AcceptedAs, InsertedAs, Added, Reportable, Dispatches;
  }

  ghost function Arrived(s: Pool, k: Sock): Pool {
    s.(open := s.open[k.fd := k], serial := s.serial + 1, table := s.table[k.fd := k],
       history := s.history[k := []], active := s.active + 1, epoll := s.epoll[k.fd := Armed(In)])
  }

  lemma ArrivalStage(s: Pool, fd: Fd)
    requires Poller(s, Idle) && s.expired == [] && fd !in s.open
    ensures Follow(s, Arrival(fd)) == Arrived(s, Sock(fd, s.serial))
  {
    hide Next, Follow, Enabled, Apply, AcceptedAs, InsertedAs, Added, Arrived;
    var k := Sock(fd, s.serial);
    ArrivalPcs(s, k);
    FollowFour(s, Accept(fd), Insert, Count, Add(true));
    var s1 := AcceptedAs(s, k);
    var s2 := InsertedAs(s1, k);
    var s3 := At(s2, 0, Counted(k)).(active := s.active + 1);
    NextAccept(s, fd);
    NextInsert(s1, k);
    NextCount(s2, k);
    NextAdd(s3, k);
    AddedIsArrived(s, k);
  }

  lemma ArrivalPcs(s: Pool, k: Sock)
    requires Poller(s, Idle)
    ensures var s1 := AcceptedAs(s, k);
            var s2 := InsertedAs(s1, k);
            Poller(s1, Accepted(k)) && Poller(s2, Inserted(k)) && Ledger.IsOpen(s2.open, k) && s2.active == s.active
  {
  }

  lemma AddedIsArrived(s: Pool, k: Sock)
    requires Poller(s, Idle)
    ensures var s2 := InsertedAs(AcceptedAs(s, k), k);
            Added(At(s2, 0, Counted(k)).(active := s.active + 1), k.fd, true) == Arrived(s, k)
  {
    assert s.pcs[0 := Accepted(k)][0 := Inserted(k)][0 := Counted(k)][0 := Idle] == s.pcs;
  }

  lemma ReportStage(s: Pool, fd: Fd)
    requires Poller(s, Idle) && s.expired == [] && s.batch == [] && fd in s.epoll && s.epoll[fd] == Armed(In)
    ensures Follow(s, [Report(Ready(fd)), Enqueue]) ==
            s.(epoll := s.epoll[fd := Disarmed], queue := s.queue + [Ready(fd)])
  {
    FollowTwo(s, Report(Ready(fd)), Enqueue);
    var s1 := Reported(s, Ready(fd));
    assert Next(s, Report(Ready(fd))) == s1;
    assert Next(s1, Enqueue) == Enqueued(s1);
  }

  ghost function Departed(s: Pool, fd: Fd): Pool {
    s.(table := s.table - {fd}, open := s.open - {fd}, epoll := s.epoll - {fd}, active := s.active - 1)
  }

  lemma DepartureStage(s: Pool, fd: Fd)
    requires Poller(s, Idle) && s.expired == [] && s.batch == []
    requires fd in s.table && s.table[fd] !in s.busy && s.table[fd].fd == fd
    ensures Follow(s, Departure(fd)) == Departed(s, fd)
  {
    hide Next, Follow, Departure, Enabled, Apply;
    var k := s.table[fd];
    var s1 := At(s, 0, Sweeping(fd));
    var s2 := ErasedBy(s1, 0, fd);
    var s3 := DeletedBy(s2, 0, k);
    var s4 := ClosedBy(s3, 0, k);
    SweepStarts(s, fd);
    FollowFour(s1, Erase(0), Delete(0), CloseFd(0), Record(0));
    NextErase(s1, 0, fd);
    NextDelete(s2, 0, k);
    NextClose(s3, 0, k);
    NextRecord(s4, 0);
    assert At(s4, 0, Idle).pcs == s.pcs;
    assert s.epoll - {fd} - {fd} == s.epoll - {fd};
  }

  lemma SweepStarts(s: Pool, fd: Fd)
    requires Poller(s, Idle) && s.expired == [] && s.batch == [] && fd in s.table && s.table[fd] !in s.busy
    ensures Follow(s, Departure(fd)) == Follow(At(s, 0, Sweeping(fd)), [Erase(0), Delete(0), CloseFd(0), Record(0)])
  {
    hide Next, Enabled, Apply;
    NextSweep(s, fd);
    assert Departure(fd)[1..] == [SweepNext, Erase(0), Delete(0), CloseFd(0), Record(0)];
    assert Departure(fd)[1..][1..] == [Erase(0), Delete(0), CloseFd(0), Record(0)];
  }

  lemma NextSweep(s: Pool, fd: Fd)
    requires Poller(s, Idle) && s.expired == [] && s.batch == [] && fd in s.table && s.table[fd] !in s.busy
    ensures Next(Next(s, Sweep([fd])), SweepNext) == At(s, 0, Sweeping(fd))
  {
    hide Reportable, Dispatches, Distinct;
    assert Next(s, Sweep([fd])) == s.(expired := [fd]);
  }

  lemma WorkerStage(s: Pool, t: nat, ev: Event)
    requires Worker(s, t) && s.pcs[t] == Idle && s.queue != [] && s.queue[0] == ev && ev.fd in s.table
    ensures var k := s.table[ev.fd];
            Follow(s, [Pop(t), Lookup(t)]) ==
            At(s, t, Handling(ev, k)).(queue := s.queue[1..], busy := s.busy + {k})
  {
    hide Next, Follow, Enabled, Apply;
    FollowTwo(s, Pop(t), Lookup(t));
    var s1 := PoppedBy(s, t);
    NextPop(s, t);
    NextLookup(s1, t, ev);
  }

  /** Without the assumption two workers run the handler on one connection. */
  lemma ReuseBreaksExclusion(fd: Fd)
    ensures var s := After(2, ReuseRun(fd));
            Thread(s, 2) && s.pcs[1].Handling? && s.pcs[2].Handling? && s.pcs[1].sock == s.pcs[2].sock
  {
    hide Enabled, Apply, Follow, Next, Arrival, Departure, Ready;
    var acts0 := Arrival(fd);
    var acts1 := acts0 + [Report(Ready(fd)), Enqueue];
    var acts2 := acts1 + Departure(fd);
    var acts3 := acts2 + Arrival(fd);
    var acts4 := acts3 + [Report(Ready(fd)), Enqueue];
    var acts5 := acts4 + [Pop(1), Lookup(1)];
    var s, ev := Start(2), Ready(fd);
    assert s.pcs == [Idle, Idle, Idle];
    assert [] + acts0 == acts0;
    AfterFollows(2, [], acts0);
    ArrivalStage(s, fd);
    AfterFollows(2, acts0, [Report(Ready(fd)), Enqueue]);
    ReportStage(After(2, acts0), fd);
    AfterFollows(2, acts1, Departure(fd));
    DepartureStage(After(2, acts1), fd);
    AfterFollows(2, acts2, Arrival(fd));
    ArrivalStage(After(2, acts2), fd);
    AfterFollows(2, acts3, [Report(Ready(fd)), Enqueue]);
    ReportStage(After(2, acts3), fd);
    assert ev.fd == fd by { ReadyNames(fd); }
    AfterFollows(2, acts4, [Pop(1), Lookup(1)]);
    WorkerStage(After(2, acts4), 1, ev);
    AfterFollows(2, acts5, [Pop(2), Lookup(2)]);
    WorkerStage(After(2, acts5), 2, ev);
  }

  lemma ReadyNames(fd: Fd)
    ensures Ready(fd).fd == fd
  {
  }
}
