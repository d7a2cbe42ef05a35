/** Token conservation in the pool (src/pool_loop.cpp:88-121, 131-207): every connection in
    the table is being added, armed, reported, queued or held by one worker, and only one
    of these. */
module PoolTokens {
  import opened ConnectionHandling
  import opened ConnectionRuns
  import opened Kernel
  import Ledger
  import opened Sequences
  import opened PoolLoop
  import opened PoolAccounting

  /** A thread that holds the token of a descriptor. The sweep does not: it may close a
      connection whose token is elsewhere. */
  function Holds(pc: Pc, fd: Fd): int {
    if match pc
       case Accepted(k) => k.fd == fd
       case Inserted(k) => k.fd == fd
       case Counted(k) => k.fd == fd
       case Popped(ev) => ev.fd == fd
       case Handling(ev, _) => ev.fd == fd
       case Decided(k, _) => k.fd == fd
       case Rearming(d, _) => d == fd
       case Closing(d) => d == fd
       case _ => false
    then 1 else 0
  }

  function Holding(fd: Fd): Pc -> int { (pc: Pc) => Holds(pc, fd) }

  function Naming(fd: Fd): Event -> int { (ev: Event) => if ev.fd == fd then 1 else 0 }

  function Arming(s: Pool, fd: Fd): int { if fd in s.epoll && s.epoll[fd].Armed? then 1 else 0 }

  /** Events that name the descriptor, in the batch, the queue or a thread's hands. */
  function Named(s: Pool, fd: Fd): int {
    Total(s.pcs, Holding(fd)) + Total(s.batch, Naming(fd)) + Total(s.queue, Naming(fd))
  }

  function Tokens(s: Pool, fd: Fd): int { Named(s, fd) + Arming(s, fd) }

  /** What the property assumes of the kernel: a number is not handed out again while an
      event naming it is about, and a registration fails only for a connection that is gone. */
  ghost predicate Assumed(s: Pool, a: Act)
    requires Enabled(s, a)
  {
    && (a.Accept? ==> Named(s, a.fd) == 0)
    && (a.Add? && !a.ok ==> s.pcs[0].sock.fd !in s.table)
  }

  ghost predicate OneToken(s: Pool) {
    && (forall fd :: Tokens(s, fd) <= 1)
    && (forall fd :: fd in s.table ==> Tokens(s, fd) == 1)
  }

  lemma EventsNonNegative(evs: seq<Event>, fd: Fd)
    ensures 0 <= Total(evs, Naming(fd))
    ensures forall ev :: ev in evs && ev.fd == fd ==> 1 <= Total(evs, Naming(fd))
  {
    if |evs| > 0 {
      TotalBounds(evs, 0, 0, Naming(fd));
    }
    forall ev | ev in evs && ev.fd == fd ensures 1 <= Total(evs, Naming(fd)) {
      var i :| 0 <= i < |evs| && evs[i] == ev;
      TotalBounds(evs, i, i, Naming(fd));
    }
  }

  /** Whoever holds a token holds the only one. */
  lemma SoleHolder(s: Pool, t: nat, fd: Fd)
    requires OneToken(s) && t < |s.pcs| && Holds(s.pcs[t], fd) == 1
    ensures Tokens(s, fd) == 1 && Total(s.pcs, Holding(fd)) == 1 && Arming(s, fd) == 0
    ensures forall ev :: ev in s.batch || ev in s.queue ==> ev.fd != fd
    ensures forall u :: 0 <= u < |s.pcs| && u != t ==> Holds(s.pcs[u], fd) == 0
  {
    assert Tokens(s, fd) <= 1;
    EventsNonNegative(s.batch, fd);
    EventsNonNegative(s.queue, fd);
    TotalBounds(s.pcs, t, t, Holding(fd));
    forall u | 0 <= u < |s.pcs| && u != t ensures Holds(s.pcs[u], fd) == 0 {
      TotalBounds(s.pcs, t, u, Holding(fd));
    }
  }

  // ---- each step moves at most one token ----------------------------------------

  /** One thread moves; queues and registrations stay. */
  lemma ThreadMoves(s: Pool, t: nat, r: Pool)
    requires OneToken(s) && t < |s.pcs| && |r.pcs| == |s.pcs| && r.pcs == s.pcs[t := r.pcs[t]]
    requires r.batch == s.batch && r.queue == s.queue
    requires forall fd :: Arming(r, fd) <= Arming(s, fd)
    requires forall fd :: Holds(r.pcs[t], fd) <= Holds(s.pcs[t], fd)
    requires forall fd :: fd in r.table ==>
               fd in s.table && Arming(r, fd) == Arming(s, fd) && Holds(r.pcs[t], fd) == Holds(s.pcs[t], fd)
    ensures OneToken(r)
  {
    forall fd
      ensures Tokens(r, fd) <= 1
      ensures fd in r.table ==> Tokens(r, fd) == 1
    {
      assert Tokens(s, fd) <= 1;
      assert fd in s.table ==> Tokens(s, fd) == 1;
      TotalUpdate(s.pcs, t, r.pcs[t], Holding(fd));
    }
  }

  /** Nothing but the table and the registrations shrink. */
  lemma StopShrinks(s: Pool, r: Pool)
    requires OneToken(s) && r.pcs == s.pcs && r.batch == s.batch && r.queue == s.queue
    requires forall fd :: Arming(r, fd) <= Arming(s, fd)
    requires forall fd :: fd in r.table ==> fd in s.table && Arming(r, fd) == Arming(s, fd)
    ensures OneToken(r)
  {
    forall fd
      ensures Tokens(r, fd) <= 1
      ensures fd in r.table ==> Tokens(r, fd) == 1
    {
      assert Tokens(s, fd) <= 1;
      assert fd in s.table ==> Tokens(s, fd) == 1;
    }
  }

  lemma ReportMoves(s: Pool, ev: Event)
    requires OneToken(s) && Arming(s, ev.fd) == 1
    ensures OneToken(Reported(s, ev))
  {
    var r := Reported(s, ev);
    forall fd
      ensures Tokens(r, fd) == Tokens(s, fd)
    {
      TotalAppend(s.batch, ev, Naming(fd));
    }
  }

  lemma EnqueueMoves(s: Pool)
    requires OneToken(s) && s.batch != []
    ensures OneToken(Enqueued(s))
  {
    var r := Enqueued(s);
    forall fd
      ensures Tokens(r, fd) == Tokens(s, fd)
    {
      TotalAppend(s.queue, s.batch[0], Naming(fd));
    }
  }

  lemma AcceptMoves(s: Pool, k: Sock)
    requires OneToken(s) && Thread(s, 0) && s.pcs[0] == Idle && Tokens(s, k.fd) == 0 && k.fd !in s.table
    ensures OneToken(AcceptedAs(s, k))
  {
    var r := AcceptedAs(s, k);
    forall fd
      ensures Tokens(r, fd) <= 1
      ensures fd in r.table ==> Tokens(r, fd) == 1
    {
      assert Tokens(s, fd) <= 1;
      assert fd in s.table ==> Tokens(s, fd) == 1;
      TotalUpdate(s.pcs, 0, Accepted(k), Holding(fd));
    }
  }

  lemma InsertMovesToken(s: Pool, k: Sock)
    requires OneToken(s) && Thread(s, 0) && s.pcs[0] == Accepted(k)
    ensures OneToken(InsertedAs(s, k))
  {
    var r := InsertedAs(s, k);
    SoleHolder(s, 0, k.fd);
    forall fd
      ensures Tokens(r, fd) <= 1
      ensures fd in r.table ==> Tokens(r, fd) == 1
    {
      assert Tokens(s, fd) <= 1;
      assert fd in s.table ==> Tokens(s, fd) == 1;
      TotalUpdate(s.pcs, 0, Inserted(k), Holding(fd));
    }
  }

  /** The token goes from a thread to the kernel: EPOLL_CTL_ADD and EPOLL_CTL_MOD. */
  lemma ArmMoves(s: Pool, t: nat, fd: Fd, w: Wait)
    requires OneToken(s) && t < |s.pcs| && Holds(s.pcs[t], fd) == 1
    requires forall d :: d != fd ==> Holds(s.pcs[t], d) == 0
    ensures OneToken(At(s, t, Idle).(epoll := s.epoll[fd := Armed(w)]))
  {
    var r := At(s, t, Idle).(epoll := s.epoll[fd := Armed(w)]);
    SoleHolder(s, t, fd);
    forall d
      ensures Tokens(r, d) == Tokens(s, d)
    {
      TotalUpdate(s.pcs, t, Idle, Holding(d));
    }
  }

  lemma PopMoves(s: Pool, t: nat)
    requires OneToken(s) && t < |s.pcs| && s.pcs[t] == Idle && s.queue != []
    ensures OneToken(PoppedBy(s, t))
  {
    var r := PoppedBy(s, t);
    forall fd
      ensures Tokens(r, fd) == Tokens(s, fd)
    {
      TotalUpdate(s.pcs, t, Popped(s.queue[0]), Holding(fd));
    }
  }

  lemma LookupMoves(s: Pool, t: nat, ev: Event)
    requires OneToken(s) && t < |s.pcs| && s.pcs[t] == Popped(ev)
    ensures OneToken(LookedUp(s, t, ev))
  {
    hide OneToken, Tokens;
    ThreadMoves(s, t, LookedUp(s, t, ev));
  }

  lemma HandleMoves(s: Pool, t: nat, ev: Event, k: Sock, call: Call)
    requires OneToken(s) && t < |s.pcs| && s.pcs[t] == Handling(ev, k) && k.fd == ev.fd
    ensures OneToken(HandledBy(s, t, ev, k, call))
  {
    hide OneToken, Tokens, ActionOf;
    ThreadMoves(s, t, HandledBy(s, t, ev, k, call));
  }

  lemma ReleaseMoves(s: Pool, t: nat, k: Sock, action: Action)
    requires OneToken(s) && t < |s.pcs| && s.pcs[t] == Decided(k, action)
    ensures OneToken(Released(s, t, k, action))
  {
    hide OneToken, Tokens;
    ThreadMoves(s, t, Released(s, t, k, action));
  }

  lemma EraseMovesToken(s: Pool, t: nat, fd: Fd)
    requires OneToken(s) && t < |s.pcs| && (s.pcs[t] == Closing(fd) || s.pcs[t] == Sweeping(fd))
    ensures OneToken(ErasedBy(s, t, fd))
  {
    hide OneToken, Tokens;
    ThreadMoves(s, t, ErasedBy(s, t, fd));
  }

  lemma OtherMoves(s: Pool, a: Act, t: nat)
    requires OneToken(s) && Enabled(s, a)
    requires a.Record? || a.Count? || a.Sweep? || a.SweepNext?
    requires t == if a.Record? then a.t else 0
    ensures OneToken(Apply(s, a))
  {
    hide OneToken, Tokens;
    ThreadMoves(s, t, Apply(s, a));
  }

  lemma DetachStep(s: Pool, t: nat, k: Sock)
    requires Accounts(s) && OneToken(s) && t < |s.pcs| && (s.pcs[t] == Erased(k) || s.pcs[t] == Deleted(k))
    ensures OneToken(DeletedBy(s, t, k))
    ensures OneToken(ClosedBy(s, t, k))
  {
    hide OneToken, Tokens, Ledger.Partition, Balanced;
    LimboIsLoose(s, t);
    ThreadMoves(s, t, DeletedBy(s, t, k));
    ThreadMoves(s, t, ClosedBy(s, t, k));
  }

  lemma StopStep(s: Pool, a: Act)
    requires Accounts(s) && OneToken(s) && Enabled(s, a)
    requires a.Stop? || a.StopClear? || a.StopClose? || a.StopRecord?
    ensures OneToken(Apply(s, a))
  {
    hide OneToken, Tokens, Ledger.Partition, Balanced;
    if a.StopClose? {
      StopListIsLoose(s);
    }
    StopShrinks(s, Apply(s, a));
  }

  lemma StopListIsLoose(s: Pool)
    requires Ledger.Partition(Books(s)) && Ledger.Keyed(s.table)
    ensures forall k :: k in s.stopList ==> k.fd in s.open && s.open[k.fd] == k && k.fd !in s.table
  {
    var places := Books(s).places;
    assert places[0] !! places[1];
    assert forall k :: k in s.stopList ==> k in places[1];
    assert forall fd :: fd in s.table ==> s.table[fd] in places[0];
  }

  lemma StepKeepsOneToken(s: Pool, a: Act)
    requires Accounts(s) && OneToken(s) && Enabled(s, a) && Assumed(s, a)
    requires a.Handle? ==> s.pcs[a.t].sock.fd == s.pcs[a.t].ev.fd
    ensures OneToken(Apply(s, a))
  {
    hide Reported, Enqueued, AcceptedAs, InsertedAs, Added, PoppedBy, LookedUp, HandledBy, Released;
    hide Rearmed, ErasedBy, DeletedBy, ClosedBy;
    hide OneToken, Ledger.Partition, Balanced, Places, Total, ActionOf, Dispatches;
    match a
    case Report(ev) => ReportMoves(s, ev);
    case Enqueue => EnqueueMoves(s);
    case Accept(fd) => AcceptStepToken(s, fd);
    case Insert => InsertMovesToken(s, s.pcs[0].sock);
    case Add(ok) => AddStep(s, s.pcs[0].sock, ok);
    case Pop(t) => PopMoves(s, t);
    case Rearm(t, ok) => RearmStepToken(s, t, s.pcs[t].fd, s.pcs[t].w, ok);
    case Delete(t) => DetachStep(s, t, s.pcs[t].sock);
    case CloseFd(t) => DetachStep(s, t, s.pcs[t].sock);
    case Lookup(t) => LookupMoves(s, t, s.pcs[t].ev);
    case Handle(t, call) => HandleMoves(s, t, s.pcs[t].ev, s.pcs[t].sock, call);
    case Release(t) => ReleaseMoves(s, t, s.pcs[t].sock, s.pcs[t].action);
    case Erase(t) => EraseMovesToken(s, t, s.pcs[t].fd);
    case Record(t) => OtherMoves(s, a, t);
    case Count => OtherMoves(s, a, 0);
    case Sweep(_) => OtherMoves(s, a, 0);
    case SweepNext => OtherMoves(s, a, 0);
    case _ => StopStep(s, a);
  }

  lemma AcceptStepToken(s: Pool, fd: Fd)
    requires Accounts(s) && OneToken(s) && s.pcs[0] == Idle && fd !in s.open && Named(s, fd) == 0
    ensures OneToken(AcceptedAs(s, Sock(fd, s.serial)))
  {
    hide Named, OneToken, Balanced;
    assert Arming(s, fd) == 0;
    assert s.table.Values == Books(s).places[0];
    assert forall d :: d in s.table ==> s.table[d] in s.table.Values;
    AcceptMoves(s, Sock(fd, s.serial));
  }

  lemma AddStep(s: Pool, k: Sock, ok: bool)
    requires OneToken(s) && Thread(s, 0) && s.pcs[0] == Counted(k) && (!ok ==> k.fd !in s.table)
    ensures OneToken(Added(s, k.fd, ok))
  {
    if ok {
      ArmMoves(s, 0, k.fd, In);
    } else {
      ThreadMoves(s, 0, Added(s, k.fd, ok));
    }
  }

  lemma RearmStepToken(s: Pool, t: nat, fd: Fd, w: Wait, ok: bool)
    requires OneToken(s) && t < |s.pcs| && s.pcs[t] == Rearming(fd, w)
    ensures OneToken(Rearmed(s, t, fd, w, ok))
  {
    if ok {
      ArmMoves(s, t, fd, w);
    } else {
      ThreadMoves(s, t, Rearmed(s, t, fd, w, ok));
    }
  }
}
