/** Descriptor reuse does lead two workers into one connection's handler: whenever there are
    two workers and the number accepted is still named by anyone not bound to close it
    (src/pool_loop.cpp:88-121, 131-195). */
module PoolReuse {
  import opened Http
  import opened ConnectionHandling
  import opened ConnectionRuns
  import opened Kernel
  import Ledger
  import opened Sequences
  import opened PoolLoop
  import opened PoolAccounting
  import opened PoolTokens
  import opened PoolSessions
  import opened PoolRuns
  import opened PoolStaff

  // ---- a worker can always finish -------------------------------------------------------

  /** The worker has nothing to do with the descriptor. */
  predicate Clear(pc: Pc, fd: Fd) {
    match pc
    case Idle => true
    case Popped(ev) => ev.fd != fd
    case Handling(ev, k) => ev.fd != fd && k.fd != fd
    case Decided(k, _) => k.fd != fd
    case Rearming(d, _) => d != fd
    case Closing(d) => d != fd
    case Erased(k) => k.fd != fd
    case Deleted(k) => k.fd != fd
    case Unrecorded => true
    case _ => false
  }

  ghost predicate InTable(s: Pool, fd: Fd, k: Sock) {
    Ledger.Keyed(s.table) && fd in s.table && s.table[fd] == k
  }

  function Remaining(pc: Pc): nat {
    match pc
    case Popped(_) => 8
    case Handling(_, _) => 7
    case Decided(_, _) => 6
    case Rearming(_, _) => 5
    case Closing(_) => 4
    case Erased(_) => 3
    case Deleted(_) => 2
    case Unrecorded => 1
    case _ => 0
  }

  /** What it does next, when every system call fails. */
  ghost function NextOf(s: Pool, t: nat): Act
    requires Thread(s, t)
  {
    match s.pcs[t]
    case Popped(_) => Lookup(t)
    case Handling(ev, _) =>
      Handle(t, if ev.output then Writable([]) else Readable([], Failed, [], requests => ErrorResponse(404)))
    case Decided(_, _) => Release(t)
    case Rearming(_, _) => Rearm(t, false)
    case Closing(_) => Erase(t)
    case Erased(_) => Delete(t)
    case Deleted(_) => CloseFd(t)
    case _ => Record(t)
  }

  /** A step of one thread that leaves the descriptor's connection and the queue alone. */
  ghost predicate StepsAside(s: Pool, t: nat, fd: Fd, k: Sock, r: Pool) {
    && InTable(r, fd, k) && r.queue == s.queue
    && Thread(s, t) && |r.pcs| == |s.pcs| && r.pcs == s.pcs[t := r.pcs[t]]
    && Clear(r.pcs[t], fd) && Remaining(r.pcs[t]) < Remaining(s.pcs[t])
  }

  lemma LookupAside(s: Pool, t: nat, fd: Fd, k: Sock, ev: Event)
    requires InTable(s, fd, k) && Thread(s, t) && s.pcs[t] == Popped(ev) && Clear(s.pcs[t], fd)
    ensures StepsAside(s, t, fd, k, LookedUp(s, t, ev))
  {
  }

  lemma HandleAside(s: Pool, t: nat, fd: Fd, k: Sock, ev: Event, j: Sock, call: Call)
    requires InTable(s, fd, k) && Thread(s, t) && s.pcs[t] == Handling(ev, j) && Clear(s.pcs[t], fd)
    ensures StepsAside(s, t, fd, k, HandledBy(s, t, ev, j, call))
  {
    hide ActionOf;
  }

  lemma ReleaseAside(s: Pool, t: nat, fd: Fd, k: Sock, j: Sock, action: Action)
    requires InTable(s, fd, k) && Thread(s, t) && s.pcs[t] == Decided(j, action) && Clear(s.pcs[t], fd)
    ensures StepsAside(s, t, fd, k, Released(s, t, j, action))
  {
  }

  lemma RearmAside(s: Pool, t: nat, fd: Fd, k: Sock, d: Fd, w: Wait)
    requires InTable(s, fd, k) && Thread(s, t) && s.pcs[t] == Rearming(d, w) && Clear(s.pcs[t], fd)
    ensures StepsAside(s, t, fd, k, Rearmed(s, t, d, w, false))
  {
  }

  lemma EraseAside(s: Pool, t: nat, fd: Fd, k: Sock, d: Fd)
    requires InTable(s, fd, k) && Thread(s, t) && s.pcs[t] == Closing(d) && Clear(s.pcs[t], fd)
    ensures StepsAside(s, t, fd, k, ErasedBy(s, t, d))
  {
  }

  lemma DeleteAside(s: Pool, t: nat, fd: Fd, k: Sock, j: Sock)
    requires InTable(s, fd, k) && Thread(s, t) && s.pcs[t] == Erased(j) && Clear(s.pcs[t], fd)
    ensures StepsAside(s, t, fd, k, DeletedBy(s, t, j))
  {
  }

  lemma CloseAside(s: Pool, t: nat, fd: Fd, k: Sock, j: Sock)
    requires InTable(s, fd, k) && Thread(s, t) && s.pcs[t] == Deleted(j) && Clear(s.pcs[t], fd)
    ensures StepsAside(s, t, fd, k, ClosedBy(s, t, j))
  {
  }

  lemma RecordAside(s: Pool, t: nat, fd: Fd, k: Sock)
    requires InTable(s, fd, k) && Thread(s, t) && s.pcs[t] == Unrecorded && Clear(s.pcs[t], fd)
    ensures StepsAside(s, t, fd, k, At(s, t, Idle).(active := s.active - 1))
  {
  }

  lemma NextStepsAside(s: Pool, t: nat, fd: Fd, k: Sock)
    requires InTable(s, fd, k) && Worker(s, t) && Clear(s.pcs[t], fd) && s.pcs[t] != Idle
    ensures Enabled(s, NextOf(s, t)) && StepsAside(s, t, fd, k, Apply(s, NextOf(s, t)))
  {
    hide StepsAside, InTable, LookedUp, HandledBy, Released, Rearmed, ErasedBy, DeletedBy, ClosedBy;
    hide Reportable, ErrorResponse;
    match s.pcs[t]
    case Popped(ev) => LookupAside(s, t, fd, k, ev);
    case Handling(ev, j) => HandleAside(s, t, fd, k, ev, j, NextOf(s, t).call);
    case Decided(j, action) => ReleaseAside(s, t, fd, k, j, action);
    case Rearming(d, w) => RearmAside(s, t, fd, k, d, w);
    case Closing(d) => EraseAside(s, t, fd, k, d);
    case Erased(j) => DeleteAside(s, t, fd, k, j);
    case Deleted(j) => CloseAside(s, t, fd, k, j);
    case _ => RecordAside(s, t, fd, k);
  }

  lemma FollowCons(s: Pool, a: Act, more: seq<Act>)
    requires Enabled(s, a)
    ensures Follow(s, [a] + more) == Follow(Apply(s, a), more)
  {
    hide Enabled, Apply;
    assert ([a] + more)[1..] == more;
  }

  lemma {:induction false} FollowJoin(s: Pool, acts: seq<Act>, more: seq<Act>)
    ensures Follow(s, acts + more) == Follow(Follow(s, acts), more)
    decreases |acts|
  {
    hide Next;
    if |acts| == 0 {
      assert acts + more == more;
    } else {
      assert (acts + more)[1..] == acts[1..] + more;
      FollowJoin(Next(s, acts[0]), acts[1..], more);
    }
  }

  /** Whatever it was at, a worker can come back to the queue. */
  lemma {:induction false} Finishes(s: Pool, t: nat, fd: Fd, k: Sock) returns (acts: seq<Act>)
    requires InTable(s, fd, k) && Worker(s, t) && Clear(s.pcs[t], fd)
    ensures var r := Follow(s, acts);
            InTable(r, fd, k) && r.queue == s.queue && r.pcs == s.pcs[t := Idle]
    ensures Harmless(acts)
    decreases Remaining(s.pcs[t])
  {
    hide Enabled, Apply, NextOf, InTable;
    if s.pcs[t] == Idle {
      acts := [];
    } else {
      NextStepsAside(s, t, fd, k);
      var a := NextOf(s, t);
      var more := Finishes(Apply(s, a), t, fd, k);
      acts := [a] + more;
      FollowCons(s, a, more);
      assert HarmlessAct(a) by { NextIsHarmless(s, t); }
    }
  }

  lemma NextIsHarmless(s: Pool, t: nat)
    requires Thread(s, t)
    ensures HarmlessAct(NextOf(s, t))
  {
  }

  /** A worker at the queue can work its way to an event naming the descriptor. */
  lemma {:induction false} Takes(s: Pool, t: nat, fd: Fd, k: Sock) returns (acts: seq<Act>)
    requires InTable(s, fd, k) && Worker(s, t) && s.pcs[t] == Idle && Total(s.queue, Naming(fd)) >= 1
    ensures var r := Follow(s, acts);
            && InTable(r, fd, k) && |r.pcs| == |s.pcs| && r.pcs == s.pcs[t := r.pcs[t]]
            && r.pcs[t].Handling? && r.pcs[t].sock == k
            && Total(r.queue, Naming(fd)) == Total(s.queue, Naming(fd)) - 1
    ensures Harmless(acts)
    decreases |s.queue|
  {
    hide Enabled, Apply, Next, Follow;
    var ev := s.queue[0];
    var popped := PoppedBy(s, t);
    NextPop(s, t);
    if ev.fd == fd {
      acts := [Pop(t), Lookup(t)];
      WorkerStage(s, t, ev);
    } else {
      var finish := Finishes(popped, t, fd, k);
      var later := Takes(Follow(popped, finish), t, fd, k);
      acts := [Pop(t)] + finish + later;
      FollowJoin(s, [Pop(t)] + finish, later);
      FollowJoin(s, [Pop(t)], finish);
      FollowOne(s, Pop(t));
    }
  }

  lemma FollowOne(s: Pool, a: Act)
    ensures Follow(s, [a]) == Next(s, a)
  {
    hide Next;
    assert [a][1..] == [];
  }

  // ---- the new connection and its event -----------------------------------------------------

  lemma NextEnqueue(s: Pool)
    requires Poller(s, Idle) && s.expired == [] && s.batch != []
    ensures Next(s, Enqueue) == Enqueued(s)
  {
    hide Reportable, Dispatches;
  }

  lemma {:induction false} EnqueuesAll(s: Pool) returns (acts: seq<Act>)
    requires Poller(s, Idle) && s.expired == []
    ensures Follow(s, acts) == s.(batch := [], queue := s.queue + s.batch) && Harmless(acts)
    decreases |s.batch|
  {
    hide Enabled, Apply, Next;
    if s.batch == [] {
      acts := [];
      assert s.queue + s.batch == s.queue;
    } else {
      NextEnqueue(s);
      var r := Enqueued(s);
      var more := EnqueuesAll(r);
      acts := [Enqueue] + more;
      assert acts[1..] == more;
      assert r.queue + r.batch == s.queue + s.batch;
    }
  }

  lemma NextReport(s: Pool, fd: Fd)
    requires Poller(s, Idle) && s.expired == [] && fd in s.epoll && s.epoll[fd] == Armed(In)
    ensures Next(s, Report(Ready(fd))) == Reported(s, Ready(fd))
  {
    hide Dispatches;
  }

  /** What the arrival leaves as it was. */
  ghost predicate ArrivedIn(s: Pool, fd: Fd, r: Pool) {
    && InTable(r, fd, Sock(fd, s.serial)) && r.pcs == s.pcs
    && r.queue == s.queue + s.batch + [Ready(fd)] && r.batch == [] && r.expired == [] && fd in r.epoll
    && r.history == s.history[Sock(fd, s.serial) := []]
  }

  /** The connection is accepted and added, and its first event reaches the queue. */
  lemma Arrives(s: Pool, fd: Fd) returns (acts: seq<Act>)
    requires Poller(s, Idle) && s.expired == [] && fd !in s.open && Ledger.Keyed(s.table)
    ensures ArrivedIn(s, fd, Follow(s, [Accept(fd)] + acts)) && Harmless(acts)
  {
    hide Enabled, Apply, Next, Follow;
    var k := Sock(fd, s.serial);
    var added := Arrived(s, k);
    ArrivalStage(s, fd);
    var reported := Reported(added, Ready(fd));
    NextReport(added, fd);
    FollowOne(added, Report(Ready(fd)));
    var enqueues := EnqueuesAll(reported);
    acts := [Insert, Count, Add(true)] + [Report(Ready(fd))] + enqueues;
    assert [Accept(fd)] + acts == Arrival(fd) + [Report(Ready(fd))] + enqueues;
    FollowJoin(s, Arrival(fd) + [Report(Ready(fd))], enqueues);
    FollowJoin(s, Arrival(fd), [Report(Ready(fd))]);
    assert reported.queue + reported.batch == s.queue + s.batch + [Ready(fd)];
  }

  lemma QueueNames(s: Pool, fd: Fd)
    ensures Total(s.queue + s.batch + [Ready(fd)], Naming(fd)) ==
              Total(s.queue, Naming(fd)) + Total(s.batch, Naming(fd)) + 1
  {
    TotalJoin(s.queue, s.batch, Naming(fd));
    TotalAppend(s.queue + s.batch, Ready(fd), Naming(fd));
  }

  // ---- who has to do with the number --------------------------------------------------------

  /** An event naming the descriptor that no worker has looked up yet. */
  ghost predicate Waiting(s: Pool, fd: Fd) {
    || (exists ev :: (ev in s.batch || ev in s.queue) && ev.fd == fd)
    || (exists t: nat :: Worker(s, t) && s.pcs[t].Popped? && s.pcs[t].ev.fd == fd)
  }

  /** With the number free, a worker that does not hold its token has nothing to do with it. */
  lemma NotHoldingIsClear(s: Pool, workers: nat, t: nat, fd: Fd)
    requires Accounts(s) && Sessions(s) && Staffed(s, workers) && Worker(s, t)
    requires fd !in s.open && Holds(s.pcs[t], fd) == 0
    ensures Clear(s.pcs[t], fd)
  {
    hide Ledger.Partition, Balanced, Legal, ActionOf, Fits;
    assert PcFits(s, s.pcs[t]);
    if s.pcs[t].Erased? || s.pcs[t].Deleted? {
      LimboIsLoose(s, t);
    }
  }

  lemma QueuedExcludesHolders(s: Pool, fd: Fd, t: nat)
    requires OneToken(s) && Thread(s, t) && Total(s.queue, Naming(fd)) + Total(s.batch, Naming(fd)) >= 1
    ensures Holds(s.pcs[t], fd) == 0
  {
    assert Tokens(s, fd) <= 1;
    TotalBounds(s.pcs, t, t, Holding(fd));
  }

  ghost predicate Shared(s: Pool, k: Sock) {
    exists t, u :: 0 <= t < |s.pcs| && 0 <= u < |s.pcs| && t != u &&
      s.pcs[t].Handling? && s.pcs[u].Handling? && s.pcs[t].sock == k && s.pcs[u].sock == k
  }

  /** Two workers free of the number, two events naming it. */
  lemma TwoTake(s: Pool, t: nat, u: nat, fd: Fd, k: Sock) returns (acts: seq<Act>)
    requires InTable(s, fd, k) && Worker(s, t) && Worker(s, u) && t != u
    requires Clear(s.pcs[t], fd) && Clear(s.pcs[u], fd) && Total(s.queue, Naming(fd)) >= 2
    ensures Shared(Follow(s, acts), k)
    ensures Harmless(acts)
  {
    hide InTable, Follow, Total, HarmlessAct;
    var first := Finishes(s, t, fd, k);
    var s1 := Follow(s, first);
    var second := Takes(s1, t, fd, k);
    var s2 := Follow(s1, second);
    var third := OneTakes(s2, u, fd, k);
    acts := first + second + third;
    FollowJoin(s, first + second, third);
    FollowJoin(s, first, second);
    var r := Follow(s2, third);
    assert r.pcs[t] == s2.pcs[t];
  }

  lemma OneTakes(s: Pool, u: nat, fd: Fd, k: Sock) returns (acts: seq<Act>)
    requires InTable(s, fd, k) && Worker(s, u) && Clear(s.pcs[u], fd) && Total(s.queue, Naming(fd)) >= 1
    ensures var r := Follow(s, acts);
            && |r.pcs| == |s.pcs| && r.pcs == s.pcs[u := r.pcs[u]]
            && r.pcs[u].Handling? && r.pcs[u].sock == k
    ensures Harmless(acts)
  {
    hide InTable, Follow, Total, HarmlessAct;
    var first := Finishes(s, u, fd, k);
    var s1 := Follow(s, first);
    var second := Takes(s1, u, fd, k);
    acts := first + second;
    FollowJoin(s, first, second);
  }

  /** One worker has the old event in its hands, another is free of the number. */
  lemma HolderAndTaker(s: Pool, t: nat, u: nat, fd: Fd, k: Sock) returns (acts: seq<Act>)
    requires InTable(s, fd, k) && Worker(s, t) && Worker(s, u) && t != u
    requires s.pcs[t].Popped? && s.pcs[t].ev.fd == fd
    requires Clear(s.pcs[u], fd) && Total(s.queue, Naming(fd)) >= 1
    ensures Shared(Follow(s, acts), k)
    ensures Harmless(acts)
  {
    hide Follow, Total, Next, Enabled, Apply;
    var ev := s.pcs[t].ev;
    var s1 := LookedUp(s, t, ev);
    NextLookup(s, t, ev);
    FollowOne(s, Lookup(t));
    var more := OneTakes(s1, u, fd, k);
    acts := [Lookup(t)] + more;
    FollowJoin(s, [Lookup(t)], more);
    var r := Follow(s1, more);
    assert r.pcs[t] == s1.pcs[t];
  }

  // ---- a worker that has looked the old event up can give the number back ----------------------

  /** The handler, asked for by an event that is no hang-up, can always ask for more. */
  lemma PatientCall(calls: seq<Call>, ev: Event) returns (call: Call)
    requires Legal(calls) && Fits(ev, calls) && !Broken(ev)
    ensures Dispatches(ev, call) && ActionOf(calls + [call]) != Close
  {
    hide Legal, Bytes, Serve;
    OutputIntegrity(calls);
    LegalRunsSettle(calls);
    var conn := Run(calls).conn;
    call := if ev.output then Writable([]) else Readable([], Drained, [], requests => ErrorResponse(404));
    RunMore(calls, call);
    if !ev.output {
      QuietRead(conn, call.router);
    }
  }

  lemma RunMore(calls: seq<Call>, call: Call)
    ensures Run(calls + [call]) == Perform(Run(calls).conn, call)
  {
    hide Perform;
    assert (calls + [call])[..|calls|] == calls;
  }

  /** A wakeup without data on a settled connection that has nothing to send. */
  lemma QuietRead(c: Conn, router: Router)
    requires Valid(c) && c.writeOffset == |c.writeBuffer| && !c.core.closing && Settled(c.core)
    ensures AfterReadable(c, [], Drained, [], router).action == WaitRead
  {
    hide Bytes;
    assert c.core.readBuffer + "" == c.core.readBuffer;
    var fed := Feed(c.core, "");
    assert fed == c.core;
    assert Serve(fed, router) == fed;
    assert fed.log[|fed.log|..] == [];
    assert c.writeBuffer + "" == c.writeBuffer;
  }

  /** It can end with the descriptor registered again. */
  predicate MayRearm(pc: Pc, fd: Fd) {
    match pc
    case Handling(ev, _) => ev.fd == fd && !Broken(ev)
    case Decided(k, action) => k.fd == fd && action != Close
    case Rearming(d, _) => d == fd
    case _ => false
  }

  /** What a worker that does so leaves as it was. */
  ghost predicate RearmedIn(s: Pool, t: nat, fd: Fd, r: Pool) {
    && Thread(s, t) && r.pcs == s.pcs[t := Idle]
    && r.table == s.table && r.queue == s.queue && r.batch == s.batch && r.expired == s.expired
    && fd in r.epoll && r.epoll[fd].Armed?
  }

  lemma RearmingRearms(s: Pool, t: nat, fd: Fd, w: Wait)
    requires Worker(s, t) && s.pcs[t] == Rearming(fd, w) && fd in s.epoll
    ensures RearmedIn(s, t, fd, Follow(s, [Rearm(t, true)]))
  {
    hide Follow, Reportable, Dispatches;
    FollowOne(s, Rearm(t, true));
  }

  lemma NextRelease(s: Pool, t: nat, k: Sock, action: Action)
    requires Worker(s, t) && s.pcs[t] == Decided(k, action)
    ensures Next(s, Release(t)) == Released(s, t, k, action)
  {
    hide Released, Reportable, Dispatches;
  }

  lemma DecidedRearms(s: Pool, t: nat, k: Sock, action: Action)
    requires Worker(s, t) && s.pcs[t] == Decided(k, action) && action != Close && k.fd in s.epoll
    ensures RearmedIn(s, t, k.fd, Follow(s, [Release(t), Rearm(t, true)]))
  {
    hide Follow, Next, Enabled, Apply;
    NextRelease(s, t, k, action);
    var r := Released(s, t, k, action);
    RearmingRearms(r, t, k.fd, WaitFor(action));
    FollowJoin(s, [Release(t)], [Rearm(t, true)]);
    FollowOne(s, Release(t));
    assert [Release(t)] + [Rearm(t, true)] == [Release(t), Rearm(t, true)];
  }

  lemma NextHandle(s: Pool, t: nat, ev: Event, k: Sock, call: Call)
    requires Worker(s, t) && s.pcs[t] == Handling(ev, k) && Dispatches(ev, call)
    ensures Next(s, Handle(t, call)) == HandledBy(s, t, ev, k, call)
  {
    hide HandledBy, Reportable, Dispatches;
  }

  lemma HandlingRearms(s: Pool, t: nat, ev: Event, k: Sock) returns (acts: seq<Act>)
    requires Worker(s, t) && s.pcs[t] == Handling(ev, k) && k.fd in s.epoll
    requires !Broken(ev) && Legal(CallsOn(s, k)) && Fits(ev, CallsOn(s, k))
    ensures RearmedIn(s, t, k.fd, Follow(s, acts)) && Harmless(acts)
  {
    hide Follow, Next, Enabled, Apply, Legal, Fits, ActionOf, Broken;
    var call := PatientCall(CallsOn(s, k), ev);
    NextHandle(s, t, ev, k, call);
    var r := HandledBy(s, t, ev, k, call);
    var action := ActionOf(CallsOn(s, k) + [call]);
    DecidedRearms(r, t, k, action);
    acts := [Handle(t, call)] + [Release(t), Rearm(t, true)];
    FollowJoin(s, [Handle(t, call)], [Release(t), Rearm(t, true)]);
    FollowOne(s, Handle(t, call));
  }

  /** Whichever of the three it is. */
  lemma WorkerRearms(s: Pool, t: nat, fd: Fd) returns (acts: seq<Act>)
    requires Worker(s, t) && MayRearm(s.pcs[t], fd) && fd in s.epoll
    requires s.pcs[t].Handling? ==>
               var k := s.pcs[t].sock;
               k.fd == fd && Legal(CallsOn(s, k)) && Fits(s.pcs[t].ev, CallsOn(s, k))
    ensures RearmedIn(s, t, fd, Follow(s, acts)) && Harmless(acts)
  {
    hide Follow, Legal, Fits, RearmedIn;
    match s.pcs[t]
    case Handling(ev, k) => acts := HandlingRearms(s, t, ev, k);
    case Decided(k, action) =>
      acts := [Release(t), Rearm(t, true)];
      DecidedRearms(s, t, k, action);
    case Rearming(_, w) =>
      acts := [Rearm(t, true)];
      RearmingRearms(s, t, fd, w);
  }

  /** An armed descriptor can be reported and its event queued. */
  lemma ReportsAgain(s: Pool, fd: Fd) returns (acts: seq<Act>)
    requires Poller(s, Idle) && s.expired == [] && s.batch == [] && fd in s.epoll && s.epoll[fd].Armed?
    ensures var r := Follow(s, acts);
            && r.table == s.table && r.pcs == s.pcs
            && Total(r.queue, Naming(fd)) == Total(s.queue, Naming(fd)) + 1
    ensures Harmless(acts)
  {
    hide Follow, Next, Enabled, Apply, Total;
    var w := s.epoll[fd].w;
    var ev := Event(fd, w == In, w == Out, false, false);
    acts := [Report(ev), Enqueue];
    FollowTwo(s, Report(ev), Enqueue);
    NextReports(s, ev);
    NextEnqueue(Reported(s, ev));
    TotalAppend(s.queue, ev, Naming(fd));
    assert ([] + [ev])[1..] == [] && ([] + [ev])[0] == ev;
  }

  lemma NextReports(s: Pool, ev: Event)
    requires Poller(s, Idle) && s.expired == [] && ev.fd in s.epoll && s.epoll[ev.fd].Armed?
    requires Reportable(ev, s.epoll[ev.fd].w)
    ensures Next(s, Report(ev)) == Reported(s, ev)
  {
    hide Dispatches, Reported;
  }

  // ---- every such reuse can end in a shared handler --------------------------------------------

  /** The number is named by an event no worker has looked up, or by a worker that can register
      it again: by anyone but a worker bound to close it. */
  ghost predicate CanShare(s: Pool, fd: Fd) {
    Waiting(s, fd) || exists t: nat :: Worker(s, t) && MayRearm(s.pcs[t], fd)
  }

  lemma MayRearmHolds(pc: Pc, fd: Fd)
    requires MayRearm(pc, fd)
    ensures Holds(pc, fd) == 1 && !pc.Popped?
  {
  }

  /** What the invariants say of a worker that may register the number again, seen once the
      new connection has arrived. */
  lemma MayRearmLater(s: Pool, workers: nat, t: nat, fd: Fd, r: Pool)
    requires Sessions(s) && Staffed(s, workers) && Worker(s, t) && MayRearm(s.pcs[t], fd) && ArrivedIn(s, fd, r)
    ensures s.pcs[t].Handling? ==>
              var k := s.pcs[t].sock;
              k.fd == fd && Legal(CallsOn(r, k)) && Fits(s.pcs[t].ev, CallsOn(r, k))
  {
    hide Legal, ActionOf, Fits, InTable;
    assert PcFits(s, s.pcs[t]);
    if s.pcs[t].Handling? {
      var k := s.pcs[t].sock;
      assert k != Sock(fd, s.serial);
      assert CallsOn(r, k) == CallsOn(s, k);
      assert Legal(CallsOn(s, k)) by { NoCallsLegal(); }
    }
  }

  lemma NoCallsLegal()
    ensures Legal([])
  {
  }

  lemma RearmerShares(s: Pool, workers: nat, t: nat, u: nat, fd: Fd, r: Pool) returns (acts: seq<Act>)
    requires Sessions(s) && Staffed(s, workers) && ArrivedIn(s, fd, r) && Poller(s, Idle)
    requires Worker(s, t) && Worker(s, u) && t != u && MayRearm(s.pcs[t], fd) && Clear(s.pcs[u], fd)
    requires Total(r.queue, Naming(fd)) >= 1
    ensures Shared(Follow(r, acts), Sock(fd, s.serial)) && Harmless(acts)
  {
    hide Sessions, Staffed, Follow, Shared, Total, MayRearm, HarmlessAct, Clear, Legal, Fits;
    MayRearmLater(s, workers, t, fd, r);
    var first := WorkerRearms(r, t, fd);
    var s1 := Follow(r, first);
    var second := ReportsAgain(s1, fd);
    var s2 := Follow(s1, second);
    assert Clear(Idle, fd) by { IdleIsClear(fd); }
    var third := TwoTake(s2, t, u, fd, Sock(fd, s.serial));
    acts := first + second + third;
    FollowJoin(r, first + second, third);
    FollowJoin(r, first, second);
  }

  lemma IdleIsClear(fd: Fd)
    ensures Clear(Idle, fd)
  {
  }

  /** With two workers or more, accepting a number so named can always go on, harmlessly, until
      two workers hold the new connection in their handlers. */
  lemma ReuseCanShare(workers: nat, acts: seq<Act>, fd: Fd) returns (more: seq<Act>)
    requires workers >= 2 && Tame(workers, acts)
    requires Enabled(After(workers, acts), Accept(fd)) && CanShare(After(workers, acts), fd)
    ensures Harmless(more)
    ensures Shared(After(workers, acts + ([Accept(fd)] + more)), Sock(fd, After(workers, acts).serial))
  {
    hide After, Tame, OneToken, Sessions, Follow, Shared, Staffed, Ledger.Partition, Balanced, CanShare, ArrivedIn;
    hide HarmlessAct;
    var s := After(workers, acts);
    TokenConservation(workers, acts);
    AlwaysStaffed(workers, acts);
    var arrive := Arrives(s, fd);
    var r := Follow(s, [Accept(fd)] + arrive);
    assert ArrivedIn(s, fd, r);
    var share := SharesAfter(s, workers, fd, r);
    more := arrive + share;
    assert [Accept(fd)] + more == ([Accept(fd)] + arrive) + share;
    FollowJoin(s, [Accept(fd)] + arrive, share);
    AfterFollows(workers, acts, [Accept(fd)] + more);
  }

  lemma SharesAfter(s: Pool, workers: nat, fd: Fd, r: Pool) returns (acts: seq<Act>)
    requires workers >= 2 && Accounts(s) && OneToken(s) && Sessions(s) && Staffed(s, workers)
    requires fd !in s.open && Poller(s, Idle) && CanShare(s, fd) && ArrivedIn(s, fd, r)
    ensures Shared(Follow(r, acts), Sock(fd, s.serial)) && Harmless(acts)
  {
    hide OneToken, Sessions, Follow, Shared, InTable, Accounts, Clear, Holds, MayRearm, HarmlessAct;
    QueueNames(s, fd);
    EventsNonNegative(s.batch, fd);
    EventsNonNegative(s.queue, fd);
    if Total(s.queue, Naming(fd)) + Total(s.batch, Naming(fd)) >= 1 {
      QueuedExcludesHolders(s, fd, 1);
      QueuedExcludesHolders(s, fd, 2);
      NotHoldingIsClear(s, workers, 1, fd);
      NotHoldingIsClear(s, workers, 2, fd);
      acts := TwoTake(r, 1, 2, fd, Sock(fd, s.serial));
    } else {
      var t: nat :| Worker(s, t) && ((s.pcs[t].Popped? && s.pcs[t].ev.fd == fd) || MayRearm(s.pcs[t], fd));
      var u := if t == 1 then 2 else 1;
      if MayRearm(s.pcs[t], fd) {
        MayRearmHolds(s.pcs[t], fd);
      } else {
        PoppedHolds(s.pcs[t]);
      }
      SoleHolder(s, t, fd);
      NotHoldingIsClear(s, workers, u, fd);
      if s.pcs[t].Popped? {
        acts := HolderAndTaker(r, t, u, fd, Sock(fd, s.serial));
      } else {
        acts := RearmerShares(s, workers, t, u, fd, r);
      }
    }
  }

  lemma PoppedHolds(pc: Pc)
    requires pc.Popped?
    ensures Holds(pc, pc.ev.fd) == 1
  {
  }
}
