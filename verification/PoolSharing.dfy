/** When exactly a reused descriptor number can bring two workers into one connection's handler
    (src/pool_loop.cpp:88-121, 131-207). */
module PoolSharing {
  import opened ConnectionHandling
  import opened ConnectionRuns
  import opened Kernel
  import Ledger
  import opened Sequences
  import opened PoolLoop
  import opened PoolAccounting
  import opened PoolTokens
  import opened PoolSessions
  import opened PoolRuns
  import opened PoolStaff
  import opened PoolReuse

  /** What every tame state satisfies. */
  ghost predicate Good(s: Pool) { Accounts(s) && OneToken(s) && Sessions(s) }

  lemma GoodStep(s: Pool, a: Act)
    requires Good(s) && Enabled(s, a) && Assumed(s, a)
    ensures Good(Apply(s, a))
  {
    hide Accounts, OneToken, Sessions, Enabled, Apply, Assumed;
    HandlingKeyed(s, a);
    StepAccounts(s, a);
    StepKeepsOneToken(s, a);
    StepKeepsSessions(s, a);
  }

  // ---- a worker bound to close the number ------------------------------------------------

  /** All this worker will do with the number is close what is open under it. */
  predicate Doomed(pc: Pc, fd: Fd) {
    match pc
    case Handling(ev, k) => ev.fd == fd && k.fd == fd && Broken(ev)
    case Decided(k, action) => k.fd == fd && action == Close
    case Closing(d) => d == fd
    case _ => false
  }

  /** The state with that worker taken for the idle sweep, which also closes numbers whose
      token is elsewhere; and with no flags. */
  function Masked(s: Pool, w: nat, fd: Fd): Pool
    requires Thread(s, w)
  {
    s.(pcs := s.pcs[w := Sweeping(fd)], busy := {})
  }

  function Unflagged(s: Pool): Pool { s.(busy := {}) }

  /** The invariants do not look at the flags. */
  lemma FlagsUnseen(s: Pool)
    ensures Good(Unflagged(s)) <==> Good(s)
  {
    hide Ledger.Partition, Legal, ActionOf, Fits;
    var r := Unflagged(s);
    assert Places(r) == Places(s) by { SamePlaces(s); }
    assert forall fd :: Tokens(r, fd) == Tokens(s, fd);
    SessionsUnseen(s);
  }

  lemma SamePlaces(s: Pool)
    ensures Places(Unflagged(s)) == Places(s)
  {
  }

  lemma SessionsUnseen(s: Pool)
    ensures Sessions(Unflagged(s)) <==> Sessions(s)
  {
    hide Legal, ActionOf, Fits;
    var r := Unflagged(s);
    assert forall t :: 0 <= t < |s.pcs| ==> (PcFits(r, s.pcs[t]) <==> PcFits(s, s.pcs[t]));
    assert forall ev :: EventFits(r, ev) <==> EventFits(s, ev);
    assert forall fd, w :: Matches(r, fd, w) <==> Matches(s, fd, w);
  }

  // ---- steps of everyone else -------------------------------------------------------------

  /** The step is not one of this thread. */
  predicate Elsewhere(a: Act, w: nat) {
    match a
    case Pop(t) => t != w
    case Lookup(t) => t != w
    case Handle(t, _) => t != w
    case Release(t) => t != w
    case Rearm(t, _) => t != w
    case Erase(t) => t != w
    case Delete(t) => t != w
    case CloseFd(t) => t != w
    case Record(t) => t != w
    case _ => true
  }

  /** The effect on the state is the effect on the masked state, masked. */
  ghost predicate SameEffect(s: Pool, w: nat, fd: Fd, r: Pool, masked: Pool)
    requires Thread(s, w)
  {
    Thread(r, w) && r.pcs[w] == s.pcs[w] && Masked(r, w, fd) == Unflagged(masked)
  }

  lemma EnabledMasked(s: Pool, a: Act, w: nat, fd: Fd)
    requires Worker(s, w) && Enabled(s, a) && Elsewhere(a, w)
    ensures Enabled(Masked(s, w, fd), a)
  {
    hide Reportable, Dispatches, Broken, Distinct;
  }

  lemma PopCommutes(s: Pool, w: nat, fd: Fd, t: nat)
    requires Thread(s, w) && t != w && Thread(s, t) && s.queue != []
    ensures SameEffect(s, w, fd, PoppedBy(s, t), PoppedBy(Masked(s, w, fd), t))
  {
    assert s.pcs[w := Sweeping(fd)][t] == s.pcs[t];
    assert PoppedBy(Masked(s, w, fd), t).pcs == PoppedBy(s, t).pcs[w := Sweeping(fd)];
  }

  lemma LookupCommutes(s: Pool, w: nat, fd: Fd, t: nat, ev: Event)
    requires Thread(s, w) && t != w && Thread(s, t)
    ensures SameEffect(s, w, fd, LookedUp(s, t, ev), LookedUp(Masked(s, w, fd), t, ev))
  {
    assert s.pcs[w := Sweeping(fd)][t] == s.pcs[t];
    assert LookedUp(Masked(s, w, fd), t, ev).pcs == LookedUp(s, t, ev).pcs[w := Sweeping(fd)];
  }

  lemma HandleCommutes(s: Pool, w: nat, fd: Fd, t: nat, ev: Event, k: Sock, call: Call)
    requires Thread(s, w) && t != w && Thread(s, t)
    ensures SameEffect(s, w, fd, HandledBy(s, t, ev, k, call), HandledBy(Masked(s, w, fd), t, ev, k, call))
  {
    hide ActionOf;
    assert s.pcs[w := Sweeping(fd)][t] == s.pcs[t];
    assert HandledBy(Masked(s, w, fd), t, ev, k, call).pcs == HandledBy(s, t, ev, k, call).pcs[w := Sweeping(fd)];
  }

  lemma ReleaseCommutes(s: Pool, w: nat, fd: Fd, t: nat, k: Sock, action: Action)
    requires Thread(s, w) && t != w && Thread(s, t)
    ensures SameEffect(s, w, fd, Released(s, t, k, action), Released(Masked(s, w, fd), t, k, action))
  {
    assert s.pcs[w := Sweeping(fd)][t] == s.pcs[t];
    assert Released(Masked(s, w, fd), t, k, action).pcs == Released(s, t, k, action).pcs[w := Sweeping(fd)];
  }

  lemma RearmCommutes(s: Pool, w: nat, fd: Fd, t: nat, d: Fd, wait: Wait, ok: bool)
    requires Thread(s, w) && t != w && Thread(s, t)
    ensures SameEffect(s, w, fd, Rearmed(s, t, d, wait, ok), Rearmed(Masked(s, w, fd), t, d, wait, ok))
  {
    assert s.pcs[w := Sweeping(fd)][t] == s.pcs[t];
    assert Rearmed(Masked(s, w, fd), t, d, wait, ok).pcs == Rearmed(s, t, d, wait, ok).pcs[w := Sweeping(fd)];
  }

  lemma EraseCommutes(s: Pool, w: nat, fd: Fd, t: nat, d: Fd)
    requires Thread(s, w) && t != w && Thread(s, t)
    ensures SameEffect(s, w, fd, ErasedBy(s, t, d), ErasedBy(Masked(s, w, fd), t, d))
  {
    assert s.pcs[w := Sweeping(fd)][t] == s.pcs[t];
    assert ErasedBy(Masked(s, w, fd), t, d).pcs == ErasedBy(s, t, d).pcs[w := Sweeping(fd)];
  }

  lemma DeleteCommutes(s: Pool, w: nat, fd: Fd, t: nat, k: Sock)
    requires Thread(s, w) && t != w && Thread(s, t)
    ensures SameEffect(s, w, fd, DeletedBy(s, t, k), DeletedBy(Masked(s, w, fd), t, k))
  {
    assert s.pcs[w := Sweeping(fd)][t] == s.pcs[t];
    assert DeletedBy(Masked(s, w, fd), t, k).pcs == DeletedBy(s, t, k).pcs[w := Sweeping(fd)];
  }

  lemma CloseCommutes(s: Pool, w: nat, fd: Fd, t: nat, k: Sock)
    requires Thread(s, w) && t != w && Thread(s, t)
    ensures SameEffect(s, w, fd, ClosedBy(s, t, k), ClosedBy(Masked(s, w, fd), t, k))
  {
    assert s.pcs[w := Sweeping(fd)][t] == s.pcs[t];
    assert ClosedBy(Masked(s, w, fd), t, k).pcs == ClosedBy(s, t, k).pcs[w := Sweeping(fd)];
  }

  lemma RecordCommutes(s: Pool, w: nat, fd: Fd, t: nat)
    requires Thread(s, w) && t != w && Thread(s, t)
    ensures var m := Masked(s, w, fd);
            SameEffect(s, w, fd, At(s, t, Idle).(active := s.active - 1), At(m, t, Idle).(active := m.active - 1))
  {
    assert At(Masked(s, w, fd), t, Idle).pcs == At(s, t, Idle).pcs[w := Sweeping(fd)];
  }

  lemma PollerCommutes(s: Pool, a: Act, w: nat, fd: Fd)
    requires Worker(s, w) && Enabled(s, a) && Enabled(Masked(s, w, fd), a)
    requires a.Report? || a.Enqueue? || a.Accept? || a.Insert? || a.Count? || a.Add? || a.Sweep? || a.SweepNext?
    ensures SameEffect(s, w, fd, Apply(s, a), Apply(Masked(s, w, fd), a))
  {
    hide Reportable;
    var m := Masked(s, w, fd);
    assert m.pcs[0] == s.pcs[0];
    assert Apply(m, a).pcs == Apply(s, a).pcs[w := Sweeping(fd)];
  }

  lemma StopCommutes(s: Pool, a: Act, w: nat, fd: Fd)
    requires Worker(s, w) && Enabled(s, a) && Enabled(Masked(s, w, fd), a)
    requires a.Stop? || a.StopClear? || a.StopClose? || a.StopRecord?
    ensures SameEffect(s, w, fd, Apply(s, a), Apply(Masked(s, w, fd), a))
  {
    hide Enabled;
  }

  lemma StepCommutes(s: Pool, a: Act, w: nat, fd: Fd)
    requires Worker(s, w) && Enabled(s, a) && Elsewhere(a, w)
    ensures Enabled(Masked(s, w, fd), a)
    ensures SameEffect(s, w, fd, Apply(s, a), Apply(Masked(s, w, fd), a))
  {
    hide SameEffect, Reported, AcceptedAs, InsertedAs, Added, Swept, PoppedBy, LookedUp, HandledBy, Released;
    hide Rearmed, ErasedBy, DeletedBy, ClosedBy, StopClosed, Reportable, Dispatches, Distinct;
    EnabledMasked(s, a, w, fd);
    match a
    case Pop(t) => PopCommutes(s, w, fd, t);
    case Lookup(t) => LookupCommutes(s, w, fd, t, s.pcs[t].ev);
    case Handle(t, call) =>
      HandleCommutes(s, w, fd, t, s.pcs[t].ev, s.pcs[t].sock, call);
    case Release(t) => ReleaseCommutes(s, w, fd, t, s.pcs[t].sock, s.pcs[t].action);
    case Rearm(t, ok) => RearmCommutes(s, w, fd, t, s.pcs[t].fd, s.pcs[t].w, ok);
    case Erase(t) => EraseCommutes(s, w, fd, t, s.pcs[t].fd);
    case Delete(t) => DeleteCommutes(s, w, fd, t, s.pcs[t].sock);
    case CloseFd(t) => CloseCommutes(s, w, fd, t, s.pcs[t].sock);
    case Record(t) => RecordCommutes(s, w, fd, t);
    case Stop => StopCommutes(s, a, w, fd);
    case StopClear(_) => StopCommutes(s, a, w, fd);
    case StopClose => StopCommutes(s, a, w, fd);
    case StopRecord => StopCommutes(s, a, w, fd);
    case _ => PollerCommutes(s, a, w, fd);
  }

  /** Masking takes away what the worker names, and nothing else. */
  lemma MaskedNames(s: Pool, w: nat, fd: Fd, d: Fd)
    requires Thread(s, w)
    ensures 0 <= Named(Masked(s, w, fd), d) == Named(s, d) - Holds(s.pcs[w], d)
  {
    EventsNonNegative(s.batch, d);
    EventsNonNegative(s.queue, d);
    TotalUpdate(s.pcs, w, Sweeping(fd), Holding(d));
    var pcs := s.pcs[w := Sweeping(fd)];
    TotalBounds(pcs, w, w, Holding(d));
  }

  lemma AssumedMasked(s: Pool, a: Act, w: nat, fd: Fd)
    requires Worker(s, w) && Enabled(s, a) && Enabled(Masked(s, w, fd), a) && Assumed(s, a)
    ensures Assumed(Masked(s, w, fd), a)
  {
    hide Enabled, Named;
    if a.Accept? {
      MaskedNames(s, w, fd, a.fd);
      assert Holds(s.pcs[w], a.fd) >= 0;
    }
  }

  /** The worker is all that is wrong, and it is not handling the new connection. */
  ghost predicate Apart(s: Pool, fd: Fd, k: Sock) {
    exists w: nat :: Worker(s, w) && Doomed(s.pcs[w], fd) && (s.pcs[w].Handling? ==> s.pcs[w].sock != k)
      && Good(Masked(s, w, fd))
  }

  lemma ElsewhereStep(s: Pool, a: Act, w: nat, fd: Fd)
    requires Worker(s, w) && Good(Masked(s, w, fd)) && Enabled(s, a) && Elsewhere(a, w)
    requires Assumed(s, a) || (Enabled(Masked(s, w, fd), a) && Assumed(Masked(s, w, fd), a))
    ensures var r := Apply(s, a); Thread(r, w) && r.pcs[w] == s.pcs[w] && Good(Masked(r, w, fd))
  {
    hide Good, Enabled, Apply, Assumed;
    StepCommutes(s, a, w, fd);
    if Assumed(s, a) {
      AssumedMasked(s, a, w, fd);
    }
    GoodStep(Masked(s, w, fd), a);
    FlagsUnseen(Apply(Masked(s, w, fd), a));
  }

  lemma ErasedBehindMask(s: Pool, w: nat, fd: Fd)
    requires Thread(s, w) && Good(Masked(s, w, fd))
    ensures Good(ErasedBy(s, w, fd))
  {
    hide Good;
    var m := Masked(s, w, fd);
    EraseIsGood(m, w, fd);
    assert ErasedBy(s, w, fd).pcs == ErasedBy(m, w, fd).pcs;
    assert Unflagged(ErasedBy(s, w, fd)) == Unflagged(ErasedBy(m, w, fd));
    FlagsUnseen(ErasedBy(s, w, fd));
    FlagsUnseen(ErasedBy(m, w, fd));
  }

  lemma EraseIsGood(s: Pool, w: nat, fd: Fd)
    requires Thread(s, w) && s.pcs[w] == Sweeping(fd) && Good(s)
    ensures Good(ErasedBy(s, w, fd))
  {
    hide Good, ErasedBy, Assumed;
    assert Assumed(s, Erase(w)) by { HarmlessAssumes(s, Erase(w)); }
    GoodStep(s, Erase(w));
  }

  lemma StaysMasked(s: Pool, w: nat, fd: Fd, r: Pool, pc: Pc)
    requires Thread(s, w) && r == s.(pcs := s.pcs[w := pc], busy := r.busy)
    ensures Masked(r, w, fd) == Masked(s, w, fd)
  {
    assert s.pcs[w := pc][w := Sweeping(fd)] == s.pcs[w := Sweeping(fd)];
  }

  /** The worker's own steps change nothing behind the mask, until it closes. */
  lemma OwnStep(s: Pool, a: Act, w: nat, fd: Fd, k: Sock)
    requires Worker(s, w) && Doomed(s.pcs[w], fd) && (s.pcs[w].Handling? ==> s.pcs[w].sock != k)
    requires Good(Masked(s, w, fd)) && Enabled(s, a) && !Elsewhere(a, w)
    ensures Apart(Apply(s, a), fd, k) || Good(Apply(s, a))
  {
    hide Good, ActionOf, Reportable, Dispatches, ErasedBy;
    match s.pcs[w]
    case Closing(_) => ErasedBehindMask(s, w, fd);
    case Handling(ev, j) => StaysMasked(s, w, fd, Apply(s, a), Decided(j, Close));
    case Decided(j, _) => StaysMasked(s, w, fd, Apply(s, a), Closing(fd));
  }

  lemma ApartStep(s: Pool, a: Act, fd: Fd, k: Sock)
    requires Apart(s, fd, k) && Enabled(s, a) && Assumed(s, a)
    ensures Apart(Apply(s, a), fd, k) || Good(Apply(s, a))
  {
    hide Good, Enabled, Apply, Assumed, Masked, Doomed;
    var w: nat :| Worker(s, w) && Doomed(s.pcs[w], fd) && (s.pcs[w].Handling? ==> s.pcs[w].sock != k)
      && Good(Masked(s, w, fd));
    if Elsewhere(a, w) {
      ElsewhereStep(s, a, w, fd);
    } else {
      OwnStep(s, a, w, fd, k);
    }
  }

  // ---- no sharing --------------------------------------------------------------------------

  lemma GoodIsUnshared(s: Pool, k: Sock)
    requires Good(s)
    ensures !Shared(s, k)
  {
    hide Accounts, OneToken, Sessions;
    forall t, u | 0 <= t < |s.pcs| && 0 <= u < |s.pcs| && t != u && s.pcs[t].Handling? && s.pcs[u].Handling?
      ensures s.pcs[t].sock != s.pcs[u].sock
    {
      HandlersAreExclusive(s, t, u);
    }
  }

  lemma ApartIsUnshared(s: Pool, fd: Fd, k: Sock)
    requires Apart(s, fd, k)
    ensures !Shared(s, k)
  {
    hide Good, Doomed;
    var w: nat :| Worker(s, w) && Doomed(s.pcs[w], fd) && (s.pcs[w].Handling? ==> s.pcs[w].sock != k)
      && Good(Masked(s, w, fd));
    var m := Masked(s, w, fd);
    GoodIsUnshared(m, k);
    forall t, u | 0 <= t < |s.pcs| && 0 <= u < |s.pcs| && t != u && s.pcs[t].Handling? && s.pcs[u].Handling?
      ensures !(s.pcs[t].sock == k && s.pcs[u].sock == k)
    {
      assert t != w && u != w ==> m.pcs[t] == s.pcs[t] && m.pcs[u] == s.pcs[u];
    }
  }

  /** From here on the kernel keeps to its assumptions. */
  ghost predicate TameFrom(s: Pool, acts: seq<Act>)
    decreases |acts|
  {
    |acts| == 0 || ((Enabled(s, acts[0]) ==> Assumed(s, acts[0])) && TameFrom(Next(s, acts[0]), acts[1..]))
  }

  lemma {:induction false} HarmlessFollows(s: Pool, acts: seq<Act>)
    requires Harmless(acts)
    ensures TameFrom(s, acts)
    decreases |acts|
  {
    hide Enabled, Apply, Assumed, HarmlessAct;
    if |acts| > 0 {
      HarmlessAssumes(s, acts[0]);
      HarmlessFollows(Next(s, acts[0]), acts[1..]);
    }
  }

  lemma {:induction false} NeverShares(s: Pool, fd: Fd, k: Sock, acts: seq<Act>)
    requires (Good(s) || Apart(s, fd, k)) && TameFrom(s, acts)
    ensures !Shared(Follow(s, acts), k)
    decreases |acts|
  {
    hide Good, Apart, Enabled, Apply, Assumed, Shared;
    if |acts| == 0 {
      if Good(s) {
        GoodIsUnshared(s, k);
      } else {
        ApartIsUnshared(s, fd, k);
      }
    } else {
      if Enabled(s, acts[0]) {
        if Good(s) {
          GoodStep(s, acts[0]);
        } else {
          ApartStep(s, acts[0], fd, k);
        }
      }
      NeverShares(Next(s, acts[0]), fd, k, acts[1..]);
    }
  }

  // ---- the accept itself -------------------------------------------------------------------

  lemma {:induction false} SomeoneHolds(pcs: seq<Pc>, fd: Fd) returns (t: nat)
    requires Total(pcs, Holding(fd)) > 0
    ensures t < |pcs| && Holds(pcs[t], fd) == 1
  {
    if Holds(pcs[0], fd) == 1 {
      t := 0;
    } else {
      var u := SomeoneHolds(pcs[1..], fd);
      t := u + 1;
    }
  }

  /** A number named by nobody who could share it is named by one doomed worker at most. */
  lemma OnlyDoomed(s: Pool, workers: nat, fd: Fd) returns (w: nat)
    requires Good(s) && Staffed(s, workers) && Poller(s, Idle) && !CanShare(s, fd) && Named(s, fd) != 0
    ensures Worker(s, w) && Doomed(s.pcs[w], fd) && Named(s, fd) == 1 && Holds(s.pcs[w], fd) == 1
    ensures s.pcs[w].Handling? ==> s.pcs[w].sock.serial < s.serial
  {
    hide Accounts, Sessions, Legal, ActionOf, Fits;
    assert Tokens(s, fd) <= 1;
    NothingQueued(s, fd);
    EventsNonNegative(s.batch, fd);
    EventsNonNegative(s.queue, fd);
    TotalBounds(s.pcs, 0, 0, Holding(fd));
    w := SomeoneHolds(s.pcs, fd);
    HolderIsDoomed(s, workers, w, fd);
  }

  lemma NothingQueued(s: Pool, fd: Fd)
    requires !Waiting(s, fd)
    ensures Total(s.batch, Naming(fd)) == 0 && Total(s.queue, Naming(fd)) == 0
  {
    NothingNamed(s.batch, fd);
    NothingNamed(s.queue, fd);
  }

  lemma {:induction false} NothingNamed(evs: seq<Event>, fd: Fd)
    requires forall ev :: ev in evs ==> ev.fd != fd
    ensures Total(evs, Naming(fd)) == 0
  {
    if |evs| > 0 {
      NothingNamed(evs[1..], fd);
    }
  }

  lemma HolderIsDoomed(s: Pool, workers: nat, w: nat, fd: Fd)
    requires Sessions(s) && Staffed(s, workers) && Poller(s, Idle) && !CanShare(s, fd)
    requires w < |s.pcs| && Holds(s.pcs[w], fd) == 1
    ensures Worker(s, w) && Doomed(s.pcs[w], fd)
    ensures s.pcs[w].Handling? ==> s.pcs[w].sock.serial < s.serial
  {
    hide Legal, ActionOf, Fits;
    assert PcFits(s, s.pcs[w]);
    assert w != 0;
    assert !MayRearm(s.pcs[w], fd);
  }

  /** Behind the mask the number is free, so accepting it is what the kernel may do. */
  lemma MaskedIsGood(s: Pool, w: nat, fd: Fd)
    requires Good(s) && Worker(s, w) && Doomed(s.pcs[w], fd) && fd !in s.open
    ensures Good(Masked(s, w, fd))
  {
    hide Ledger.Partition, Balanced, Places, Legal, ActionOf, Fits, OneToken, Sessions;
    var m := s.(pcs := s.pcs[w := Sweeping(fd)]);
    QuietStep(s, w, m);
    MaskedTokens(s, w, fd, m);
    MaskedFits(s, w, fd, m);
    assert Unflagged(m) == Masked(s, w, fd);
    FlagsUnseen(m);
  }

  lemma MaskedFits(s: Pool, w: nat, fd: Fd, m: Pool)
    requires Sessions(s) && Thread(s, w) && m == s.(pcs := s.pcs[w := Sweeping(fd)])
    ensures Sessions(m)
  {
    hide Legal, ActionOf, Fits;
    QuietFits(s, w, m);
  }

  lemma MaskedTokens(s: Pool, w: nat, fd: Fd, m: Pool)
    requires Accounts(s) && OneToken(s) && Thread(s, w) && Doomed(s.pcs[w], fd) && fd !in s.open
    requires m == s.(pcs := s.pcs[w := Sweeping(fd)])
    ensures OneToken(m)
  {
    hide OneToken, Ledger.Partition, Balanced;
    assert fd !in s.table by {
      if fd in s.table {
        assert s.table[fd] in Books(s).places[0];
        OpenTable(s, fd);
      }
    }
    ThreadMoves(s, w, m);
  }

  lemma OpenTable(s: Pool, fd: Fd)
    requires Ledger.Partition(Books(s)) && Ledger.Keyed(s.table) && fd in s.table
    ensures fd in s.open
  {
    assert s.table[fd] in Books(s).places[0];
  }

  lemma AcceptApart(s: Pool, workers: nat, fd: Fd)
    requires Good(s) && Staffed(s, workers) && Enabled(s, Accept(fd)) && !CanShare(s, fd)
    ensures var r := Apply(s, Accept(fd)); Good(r) || Apart(r, fd, Sock(fd, s.serial))
  {
    hide Good, Staffed, CanShare, Named, Holds, Doomed, Masked;
    if Named(s, fd) == 0 {
      GoodStep(s, Accept(fd));
    } else {
      var w := OnlyDoomed(s, workers, fd);
      MaskedIsGood(s, w, fd);
      MaskedNames(s, w, fd, fd);
      EnabledMasked(s, Accept(fd), w, fd);
      ElsewhereStep(s, Accept(fd), w, fd);
    }
  }

  /** Sharing is exact. With two workers or more, accepting a free number can be followed, the
      kernel keeping to its assumptions from then on, by two workers holding the new connection
      in their handlers if and only if the number is still named by an event no worker has
      looked up or by a worker that may register it again. */
  lemma SharingIsExact(workers: nat, acts: seq<Act>, fd: Fd)
    requires workers >= 2 && Tame(workers, acts) && Enabled(After(workers, acts), Accept(fd))
    ensures var s := After(workers, acts);
            (exists more :: TameFrom(Apply(s, Accept(fd)), more) &&
                            Shared(Follow(Apply(s, Accept(fd)), more), Sock(fd, s.serial)))
            <==> CanShare(s, fd)
  {
    hide After, Tame, Good, Staffed, CanShare, Shared, TameFrom, Apart, Enabled, Apply, Follow;
    hide Accounts, OneToken, Sessions;
    var s := After(workers, acts);
    TokenConservation(workers, acts);
    AlwaysStaffed(workers, acts);
    assert Good(s) by { GoodIs(s); }
    var r, k := Apply(s, Accept(fd)), Sock(fd, s.serial);
    if CanShare(s, fd) {
      var more := ReuseCanShare(workers, acts, fd);
      HarmlessFollows(r, more);
      AfterFollows(workers, acts, [Accept(fd)] + more);
      FollowCons(s, Accept(fd), more);
    } else {
      AcceptApart(s, workers, fd);
      forall more | TameFrom(r, more) ensures !Shared(Follow(r, more), k) {
        NeverShares(r, fd, k, more);
      }
    }
  }

  lemma GoodIs(s: Pool)
    requires Accounts(s) && OneToken(s) && Sessions(s)
    ensures Good(s)
  {
  }
}
