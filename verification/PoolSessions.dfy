/** Any interleaving of the pool, seen from one connection, is a legal run of that
    connection (src/pool_loop.cpp:147-195), so what holds of one connection's runs holds in
    the concurrent server. */
module PoolSessions {
  import opened ConnectionHandling
  import opened ConnectionRuns
  import opened Fragmentation
  import opened Kernel
  import Ledger
  import opened Sequences
  import opened PoolLoop
  import opened PoolAccounting
  import opened PoolTokens

  /** A registration agrees with what the connection's last action asked for. */
  ghost predicate Matches(s: Pool, fd: Fd, w: Wait) {
    fd in s.table ==>
      ActionOf(CallsOn(s, s.table[fd])) != Close && WaitFor(ActionOf(CallsOn(s, s.table[fd]))) == w
  }

  ghost predicate EventFits(s: Pool, ev: Event) {
    ev.fd in s.table ==> Fits(ev, CallsOn(s, s.table[ev.fd]))
  }

  ghost predicate StillIts(s: Pool, k: Sock) {
    k.fd in s.table ==> s.table[k.fd] == k
  }

  ghost predicate PcFits(s: Pool, pc: Pc) {
    match pc
    case Inserted(k) => StillIts(s, k) && CallsOn(s, k) == []
    case Counted(k) => StillIts(s, k) && CallsOn(s, k) == []
    case Popped(ev) => EventFits(s, ev)
    case Handling(ev, k) => k.fd == ev.fd && StillIts(s, k) && Fits(ev, CallsOn(s, k))
    case Decided(k, a) => StillIts(s, k) && (a == Close || a == ActionOf(CallsOn(s, k)))
    case Rearming(fd, w) => Matches(s, fd, w)
    case _ => true
  }

  ghost predicate Sessions(s: Pool) {
    && (forall k :: k in s.history ==> Legal(s.history[k]))
    && (forall t :: 0 <= t < |s.pcs| ==> PcFits(s, s.pcs[t]))
    && (forall ev :: ev in s.batch || ev in s.queue ==> EventFits(s, ev))
    && (forall fd :: fd in s.epoll && s.epoll[fd].Armed? ==> Matches(s, fd, s.epoll[fd].w))
  }

  /** A step that makes no handler call and adds no connection. */
  lemma QuietFits(s: Pool, t: nat, r: Pool)
    requires Sessions(s) && t < |s.pcs| && |r.pcs| == |s.pcs| && r.pcs == s.pcs[t := r.pcs[t]]
    requires r.history == s.history
    requires forall fd :: fd in r.table ==> fd in s.table && r.table[fd] == s.table[fd]
    requires PcFits(r, r.pcs[t])
    requires forall ev :: ev in r.batch || ev in r.queue ==> ev in s.batch || ev in s.queue || EventFits(s, ev)
    requires forall fd :: fd in r.epoll && r.epoll[fd].Armed? ==>
               (fd in s.epoll && s.epoll[fd] == r.epoll[fd]) || Matches(s, fd, r.epoll[fd].w)
    ensures Sessions(r)
  {
    hide Legal, Fits, ActionOf;
    forall u | 0 <= u < |r.pcs| ensures PcFits(r, r.pcs[u]) {
      assert u != t ==> r.pcs[u] == s.pcs[u];
      assert PcFits(s, s.pcs[u]);
    }
  }

  /** Two states that differ, as far as connections go, only under one descriptor. */
  ghost predicate DiffersOnlyAt(s: Pool, r: Pool, fd: Fd) {
    && (forall d :: d != fd ==> (d in r.table <==> d in s.table))
    && (forall d :: d != fd && d in s.table ==> r.table[d] == s.table[d])
    && (forall k: Sock :: k.fd != fd ==> CallsOn(r, k) == CallsOn(s, k))
  }

  lemma OtherPcFits(s: Pool, r: Pool, fd: Fd, pc: Pc)
    requires DiffersOnlyAt(s, r, fd) && Ledger.Keyed(s.table)
    requires PcFits(s, pc) && Holds(pc, fd) == 0
    ensures PcFits(r, pc)
  {
    hide ActionOf, Fits, CallsOn;
  }

  /** The step of the thread that holds the only token of a descriptor disturbs nobody else. */
  lemma HolderFits(s: Pool, r: Pool, t: nat, fd: Fd)
    requires Sessions(s) && OneToken(s) && Ledger.Keyed(s.table)
    requires t < |s.pcs| && Holds(s.pcs[t], fd) == 1
    requires |r.pcs| == |s.pcs| && r.pcs == s.pcs[t := r.pcs[t]] && PcFits(r, r.pcs[t])
    requires r.batch == s.batch && r.queue == s.queue && r.epoll == s.epoll
    requires DiffersOnlyAt(s, r, fd)
    requires forall k :: k in r.history ==> Legal(r.history[k])
    ensures Sessions(r)
  {
    hide ActionOf, Fits, CallsOn, OneToken, Legal, PcFits;
    SoleHolder(s, t, fd);
    forall u | 0 <= u < |r.pcs| ensures PcFits(r, r.pcs[u]) {
      if u != t {
        assert r.pcs[u] == s.pcs[u];
        OtherPcFits(s, r, fd, s.pcs[u]);
      }
    }
  }

  lemma InsertFits(s: Pool, k: Sock)
    requires Sessions(s) && OneToken(s) && Ledger.Keyed(s.table) && Thread(s, 0) && s.pcs[0] == Accepted(k)
    ensures Sessions(InsertedAs(s, k))
  {
    hide Fits, ActionOf, OneToken;
    HolderFits(s, InsertedAs(s, k), 0, k.fd);
  }

  lemma HandleFits(s: Pool, t: nat, ev: Event, k: Sock, call: Call)
    requires Sessions(s) && OneToken(s) && Ledger.Keyed(s.table)
    requires t < |s.pcs| && s.pcs[t] == Handling(ev, k) && (Broken(ev) || Dispatches(ev, call))
    ensures Sessions(HandledBy(s, t, ev, k, call))
  {
    hide ActionOf, OneToken, Legal, Fits;
    var r := HandledBy(s, t, ev, k, call);
    assert PcFits(s, s.pcs[t]);
    if Broken(ev) {
      QuietFits(s, t, r);
    } else {
      CallLegal(s, ev, k, call);
      HolderFits(s, r, t, k.fd);
    }
  }

  lemma CallLegal(s: Pool, ev: Event, k: Sock, call: Call)
    requires Sessions(s) && Fits(ev, CallsOn(s, k)) && !Broken(ev) && Dispatches(ev, call)
    ensures Legal(CallsOn(s, k) + [call])
  {
    FittingCallIsLegal(ev, CallsOn(s, k), call);
  }

  lemma ReportFits(s: Pool, ev: Event)
    requires Sessions(s) && Thread(s, 0)
    requires ev.fd in s.epoll && s.epoll[ev.fd].Armed? && Reportable(ev, s.epoll[ev.fd].w)
    ensures Sessions(Reported(s, ev))
  {
    hide ActionOf, Legal, PcFits;
    assert Matches(s, ev.fd, s.epoll[ev.fd].w);
    assert EventFits(s, ev);
    assert PcFits(s, s.pcs[0]);
    StillFits(s, Reported(s, ev), s.pcs[0]);
    QuietFits(s, 0, Reported(s, ev));
  }

  lemma StillFits(s: Pool, r: Pool, pc: Pc)
    requires PcFits(s, pc) && r.table == s.table && r.history == s.history
    ensures PcFits(r, pc)
  {
    hide ActionOf, Fits;
  }

  lemma PollerFits(s: Pool, a: Act)
    requires Sessions(s) && Enabled(s, a)
    requires a.Enqueue? || a.Accept? || a.Count? || a.Sweep? || a.SweepNext?
    ensures Sessions(Apply(s, a))
  {
    hide ActionOf, Legal, Fits;
    assert PcFits(s, s.pcs[0]);
    QuietFits(s, 0, Apply(s, a));
  }

  lemma AddFits(s: Pool, k: Sock, ok: bool)
    requires Sessions(s) && Thread(s, 0) && s.pcs[0] == Counted(k)
    ensures Sessions(Added(s, k.fd, ok))
  {
    hide Legal;
    assert PcFits(s, s.pcs[0]);
    assert Matches(s, k.fd, In);
    QuietFits(s, 0, Added(s, k.fd, ok));
  }

  lemma PopFits(s: Pool, t: nat)
    requires Sessions(s) && Thread(s, t) && s.pcs[t] == Idle && s.queue != []
    ensures Sessions(PoppedBy(s, t))
  {
    hide ActionOf, Legal, Fits;
    assert EventFits(s, s.queue[0]);
    QuietFits(s, t, PoppedBy(s, t));
  }

  lemma LookupFits(s: Pool, t: nat, ev: Event)
    requires Sessions(s) && Ledger.Keyed(s.table) && Thread(s, t) && s.pcs[t] == Popped(ev)
    ensures Sessions(LookedUp(s, t, ev))
  {
    hide ActionOf, Legal, Fits;
    assert PcFits(s, s.pcs[t]);
    QuietFits(s, t, LookedUp(s, t, ev));
  }

  lemma ReleaseFits(s: Pool, t: nat, k: Sock, action: Action)
    requires Sessions(s) && Thread(s, t) && s.pcs[t] == Decided(k, action)
    ensures Sessions(Released(s, t, k, action))
  {
    hide ActionOf, Legal, Fits;
    assert PcFits(s, s.pcs[t]);
    QuietFits(s, t, Released(s, t, k, action));
  }

  lemma RearmFits(s: Pool, t: nat, fd: Fd, w: Wait, ok: bool)
    requires Sessions(s) && Thread(s, t) && s.pcs[t] == Rearming(fd, w)
    ensures Sessions(Rearmed(s, t, fd, w, ok))
  {
    hide ActionOf, Legal, Fits;
    assert PcFits(s, s.pcs[t]);
    QuietFits(s, t, Rearmed(s, t, fd, w, ok));
  }

  lemma CloserFits(s: Pool, t: nat, fd: Fd, k: Sock)
    requires Sessions(s) && Thread(s, t)
    ensures Sessions(ErasedBy(s, t, fd))
    ensures Sessions(DeletedBy(s, t, k))
  {
    hide ActionOf, Legal, Fits, Sessions;
    QuietFits(s, t, ErasedBy(s, t, fd));
    QuietFits(s, t, DeletedBy(s, t, k));
  }

  lemma ClosedFits(s: Pool, t: nat, k: Sock)
    requires Sessions(s) && Thread(s, t)
    ensures Sessions(ClosedBy(s, t, k))
    ensures Sessions(At(s, t, Idle).(active := s.active - 1))
  {
    hide ActionOf, Legal, Fits, Sessions;
    QuietFits(s, t, ClosedBy(s, t, k));
    QuietFits(s, t, At(s, t, Idle).(active := s.active - 1));
  }

  lemma StopFits(s: Pool, r: Pool)
    requires Sessions(s) && r.pcs == s.pcs && r.history == s.history && r.batch == s.batch && r.queue == s.queue
    requires forall fd :: fd in r.table ==> fd in s.table && r.table[fd] == s.table[fd]
    requires forall fd :: fd in r.epoll ==> fd in s.epoll && r.epoll[fd] == s.epoll[fd]
    ensures Sessions(r)
  {
    hide ActionOf, Legal, Fits;
    forall u | 0 <= u < |r.pcs| ensures PcFits(r, r.pcs[u]) {
      assert PcFits(s, s.pcs[u]);
    }
  }

  lemma StepKeepsSessions(s: Pool, a: Act)
    requires Accounts(s) && OneToken(s) && Sessions(s) && Enabled(s, a)
    ensures Sessions(Apply(s, a))
  {
    hide Reported, InsertedAs, Added, PoppedBy, LookedUp, HandledBy, Released, Rearmed, ErasedBy, DeletedBy, ClosedBy;
    hide Sessions, OneToken, Ledger.Partition, Balanced, Places, ActionOf;
    match a
    case Report(ev) => ReportFits(s, ev);
    case Insert => InsertFits(s, s.pcs[0].sock);
    case Add(ok) => AddFits(s, s.pcs[0].sock, ok);
    case Pop(t) => PopFits(s, t);
    case Lookup(t) => LookupFits(s, t, s.pcs[t].ev);
    case Handle(t, call) => HandleFits(s, t, s.pcs[t].ev, s.pcs[t].sock, call);
    case Release(t) => ReleaseFits(s, t, s.pcs[t].sock, s.pcs[t].action);
    case Rearm(t, ok) => RearmFits(s, t, s.pcs[t].fd, s.pcs[t].w, ok);
    case Erase(t) => CloserFits(s, t, s.pcs[t].fd, Sock(0, 0));
    case Delete(t) => CloserFits(s, t, 0, s.pcs[t].sock);
    case CloseFd(t) => ClosedFits(s, t, s.pcs[t].sock);
    case Record(t) => ClosedFits(s, t, Sock(0, 0));
    case Stop => StopFits(s, Apply(s, a));
    case StopClear(_) => StopFits(s, Apply(s, a));
    case StopClose => StopFits(s, Apply(s, a));
    case StopRecord => StopFits(s, Apply(s, a));
    case _ => PollerFits(s, a);
  }

  // ---- over whole runs ------------------------------------------------------------

  /** The kernel kept to its assumptions throughout. */
  ghost predicate Tame(workers: nat, acts: seq<Act>) {
    |acts| == 0 ||
    (var front, a := acts[..|acts| - 1], acts[|acts| - 1];
     Tame(workers, front) && (Enabled(After(workers, front), a) ==> Assumed(After(workers, front), a)))
  }

  /** Only an accept or a failed EPOLL_CTL_ADD can break the assumptions. */
  predicate HarmlessAct(a: Act) { !a.Accept? && (a.Add? ==> a.ok) }

  ghost predicate Harmless(acts: seq<Act>) { forall a :: a in acts ==> HarmlessAct(a) }

  lemma HarmlessAssumes(s: Pool, a: Act)
    requires HarmlessAct(a)
    ensures Enabled(s, a) ==> Assumed(s, a)
  {
    hide Enabled;
  }

  lemma {:induction false} HarmlessIsTame(workers: nat, acts: seq<Act>, more: seq<Act>)
    requires Tame(workers, acts) && Harmless(more)
    ensures Tame(workers, acts + more)
    decreases |more|
  {
    hide After, Enabled, Assumed, HarmlessAct;
    if |more| == 0 {
      assert acts + more == acts;
    } else {
      var front, all := more[..|more| - 1], acts + more;
      HarmlessIsTame(workers, acts, front);
      HarmlessAssumes(After(workers, acts + front), more[|more| - 1]);
      assert all[..|all| - 1] == acts + front && all[|all| - 1] == more[|more| - 1];
    }
  }

  lemma StartSound(workers: nat)
    ensures OneToken(Start(workers)) && Sessions(Start(workers))
  {
    forall fd ensures Tokens(Start(workers), fd) == 0 {
      NobodyHolds(workers + 1, fd);
    }
  }

  lemma {:induction false} NobodyHolds(n: nat, fd: Fd)
    ensures Total(seq(n, i => Idle), Holding(fd)) == 0
  {
    if n > 0 {
      NobodyHolds(n - 1, fd);
      assert seq(n, i => Idle)[1..] == seq(n - 1, i => Idle);
    }
  }

  /** Token conservation and sequential legality. In every state an interleaving reaches,
      each descriptor in the table has exactly one token, and the handler calls made on each
      connection so far form a legal run of it. */
  lemma {:induction false} TokenConservation(workers: nat, acts: seq<Act>)
    requires Tame(workers, acts)
    ensures var s := After(workers, acts);
            Accounts(s) && OneToken(s) && Sessions(s)
    decreases |acts|
  {
    hide Accounts, OneToken, Sessions, Apply, Enabled, Assumed;
    DescriptorAccounting(workers, acts);
    if |acts| == 0 {
      StartSound(workers);
    } else {
      var front := acts[..|acts| - 1];
      TokenConservation(workers, front);
      var s, a := After(workers, front), acts[|acts| - 1];
      if Enabled(s, a) {
        HandlingKeyed(s, a);
        StepKeepsOneToken(s, a);
        StepKeepsSessions(s, a);
      }
    }
  }

  lemma HandlingKeyed(s: Pool, a: Act)
    requires Sessions(s) && Enabled(s, a)
    ensures a.Handle? ==> s.pcs[a.t].sock.fd == s.pcs[a.t].ev.fd
  {
    hide ActionOf, Legal, Fits;
    assert a.Handle? ==> PcFits(s, s.pcs[a.t]);
  }

  /** No two workers ever run the handler on one connection, nor is a connection being
      handled while its event is anywhere else. */
  lemma HandlersAreExclusive(s: Pool, t: nat, u: nat)
    requires OneToken(s) && Sessions(s)
    requires t < |s.pcs| && u < |s.pcs| && t != u && s.pcs[t].Handling? && s.pcs[u].Handling?
    ensures s.pcs[t].sock != s.pcs[u].sock
    ensures Arming(s, s.pcs[t].sock.fd) == 0
    ensures forall ev :: ev in s.batch || ev in s.queue ==> ev.fd != s.pcs[t].sock.fd
  {
    hide OneToken, ActionOf, Legal, Fits;
    assert PcFits(s, s.pcs[t]) && PcFits(s, s.pcs[u]);
    SoleHolder(s, t, s.pcs[t].ev.fd);
  }

  /** What this means for the clients of the concurrent server: on every connection a read
      never follows the decision to close, a closing response is the last one queued, what
      the client has been given is a prefix of its responses in order, and it is answered as
      if its bytes had arrived at once. */
  lemma ClientsAreServed(workers: nat, acts: seq<Act>, k: Sock, router: Router)
    requires Tame(workers, acts) && k in After(workers, acts).history
    requires Uses(After(workers, acts).history[k], router)
    ensures var calls := After(workers, acts).history[k];
            var conn := Run(calls).conn;
            && Legal(calls)
            && CloseOnlyLast(conn.core)
            && conn.sent <= AllBytes(conn.core.log)
            && conn.core.log <= AtOnce(StreamOf(calls), router).log
            && (conn.core.log == AtOnce(StreamOf(calls), router).log <==> EndSpares(calls, router))
            && (Run(calls).action != Close ==> Settled(conn.core))
  {
    hide After, Tame, Run, Legal, Bytes, Serve;
    TokenConservation(workers, acts);
    var calls := After(workers, acts).history[k];
    CloseIsLast(calls);
    OutputIntegrity(calls);
    RunFollowsStream(calls, router);
    LegalRunsSettle(calls);
  }
}
