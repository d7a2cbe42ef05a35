/** N reactors, each with its own epoll instance and connection table, sharing one
    descriptor space (src/reactor_loop.cpp:76-174). */
module ReactorLoop {
  import opened ConnectionHandling
  import opened ConnectionRuns
  import opened Kernel
  import Ledger
  import opened Sequences

  datatype Pc =
    | Idle
    | Accepted(sock: Sock) | Inserted(sock: Sock) | Counted(sock: Sock)
    | Erased(sock: Sock) | Deleted(sock: Sock) | Unrecorded

  /** An event with the socket it was reported for, which the code cannot see. */
  datatype Flagged = Flagged(ev: Event, sock: Sock)

  datatype Reactor = Reactor(
    table: map<Fd, Sock>, epoll: map<Fd, Wait>, batch: seq<Flagged>, expired: seq<Fd>, pc: Pc)

  datatype System = System(
    open: map<Fd, Sock>, serial: nat, loops: seq<Reactor>, active: int, history: map<Sock, seq<Call>>)

  const NEW_REACTOR := Reactor(map[], map[], [], [], Idle)

  function Start(n: nat): System { System(map[], 0, seq(n, i => NEW_REACTOR), 0, map[]) }

  datatype Act =
    | Poll(evs: seq<Event>)                // epoll_wait returns these
    | Accept(fd: Fd) | Insert | Count | Add(ok: bool)
    | Skip                                 // the event's descriptor is not in the table
    | Handle(call: Call, rearmed: bool)    // the handler, then EPOLL_CTL_MOD or closeConnection
    | Sweep(fds: seq<Fd>) | SweepNext
    | Delete | CloseFd | Record

  predicate DistinctFds(batch: seq<Flagged>) {
    forall i, j :: 0 <= i < j < |batch| ==> batch[i].ev.fd != batch[j].ev.fd
  }

  ghost function CallsOn(s: System, k: Sock): seq<Call> {
    if k in s.history then s.history[k] else []
  }

  /** epoll reports each descriptor at most once, for the socket now open under it. */
  ghost predicate Reported(s: System, l: Reactor, evs: seq<Event>) {
    && (forall i, j :: 0 <= i < j < |evs| ==> evs[i].fd != evs[j].fd)
    && (forall i :: 0 <= i < |evs| ==>
          evs[i].fd in l.epoll && evs[i].fd in s.open && Reportable(evs[i], l.epoll[evs[i].fd]))
  }

  ghost predicate Enabled(s: System, i: nat, a: Act) {
    i < |s.loops| &&
    var l := s.loops[i];
    match a
    case Poll(evs) => l.pc == Idle && l.batch == [] && l.expired == [] && Reported(s, l, evs)
    case Accept(fd) => l.pc == Idle && l.expired == [] && fd !in s.open
    case Insert => l.pc.Accepted?
    case Count => l.pc.Inserted?
    case Add(_) => l.pc.Counted?
    case Skip => l.pc == Idle && l.batch != [] && l.batch[0].ev.fd !in l.table
    case Handle(call, rearmed) =>
      l.pc == Idle && l.batch != [] && l.batch[0].ev.fd in l.table &&
      (Broken(l.batch[0].ev) || Dispatches(l.batch[0].ev, call)) &&
      (rearmed ==> l.batch[0].ev.fd in l.epoll)
    case Sweep(fds) =>
      l.pc == Idle && l.batch == [] && l.expired == [] && Distinct(fds) && forall fd :: fd in fds ==> fd in l.table
    case SweepNext => l.pc == Idle && l.expired != []
    case Delete => l.pc.Erased?
    case CloseFd => l.pc.Deleted?
    case Record => l.pc.Unrecorded?
  }

  function Put(s: System, i: nat, l: Reactor): System
    requires i < |s.loops|
  {
    s.(loops := s.loops[i := l])
  }

  /** closeConnection up to the erase. */
  function Drop(l: Reactor, fd: Fd): Reactor {
    if fd !in l.table then l else l.(table := l.table - {fd}, pc := Erased(l.table[fd]))
  }

  function Flag(s: System, evs: seq<Event>): seq<Flagged>
    requires forall i :: 0 <= i < |evs| ==> evs[i].fd in s.open
  {
    seq(|evs|, i requires 0 <= i < |evs| => Flagged(evs[i], s.open[evs[i].fd]))
  }

  function AcceptedAs(s: System, i: nat, k: Sock): System
    requires i < |s.loops|
  {
    Put(s, i, s.loops[i].(pc := Accepted(k))).(open := s.open[k.fd := k], serial := s.serial + 1)
  }

  ghost function InsertedAs(s: System, i: nat, k: Sock): System
    requires i < |s.loops|
  {
    var l := s.loops[i];
    Put(s, i, l.(pc := Inserted(k), table := l.table[k.fd := k])).(history := s.history[k := []])
  }

  ghost function HandledBy(s: System, i: nat, call: Call, rearmed: bool): System
    requires i < |s.loops| && s.loops[i].batch != [] && s.loops[i].batch[0].ev.fd in s.loops[i].table
  {
    var l := s.loops[i].(batch := s.loops[i].batch[1..]);
    var ev := s.loops[i].batch[0].ev;
    var k := l.table[ev.fd];
    if Broken(ev) then Put(s, i, Drop(l, ev.fd))
    else
      var calls := CallsOn(s, k) + [call];
      Put(s, i, if ActionOf(calls) != Close && rearmed
                then l.(epoll := l.epoll[ev.fd := WaitFor(ActionOf(calls))])
                else Drop(l, ev.fd)).(history := s.history[k := calls])
  }

  function ClosedBy(s: System, i: nat, k: Sock): System
    requires i < |s.loops|
  {
    var l := s.loops[i];
    Put(s, i, l.(pc := Unrecorded, epoll := l.epoll - {k.fd})).(open := s.open - {k.fd})
  }

  ghost function Apply(s: System, i: nat, a: Act): System
    requires Enabled(s, i, a)
  {
    var l := s.loops[i];
    match a
    case Poll(evs) => Put(s, i, l.(batch := Flag(s, evs)))
    case Accept(fd) => AcceptedAs(s, i, Sock(fd, s.serial))
    case Insert => InsertedAs(s, i, l.pc.sock)
    case Count => Put(s, i, l.(pc := Counted(l.pc.sock))).(active := s.active + 1)
    case Add(ok) =>
      Put(s, i, l.(pc := Idle, epoll := if ok then l.epoll[l.pc.sock.fd := In] else l.epoll))
    case Skip => Put(s, i, l.(batch := l.batch[1..]))
    case Handle(call, rearmed) => HandledBy(s, i, call, rearmed)
    case Sweep(fds) => Put(s, i, l.(expired := fds))
    case SweepNext => Put(s, i, Drop(l.(expired := l.expired[1..]), l.expired[0]))
    case Delete => Put(s, i, l.(pc := Deleted(l.pc.sock), epoll := l.epoll - {l.pc.sock.fd}))
    case CloseFd => ClosedBy(s, i, l.pc.sock)
    case Record => Put(s, i, l.(pc := Idle)).(active := s.active - 1)
  }

  datatype Turn = Turn(i: nat, act: Act)

  /** `n` reactors after the given steps, in any order; a step not enabled is not taken. */
  ghost function After(n: nat, turns: seq<Turn>): System {
    if |turns| == 0 then Start(n)
    else
      var s, x := After(n, turns[..|turns| - 1]), turns[|turns| - 1];
      if Enabled(s, x.i, x.act) then Apply(s, x.i, x.act) else s
  }

  // ---- accounting ---------------------------------------------------------------

  function Limbo(pc: Pc): set<Sock> {
    if pc.Accepted? || pc.Erased? || pc.Deleted? then {pc.sock} else {}
  }

  /** The tables, then what each reactor has in hand. */
  ghost function Places(s: System): seq<set<Sock>> {
    seq(|s.loops|, i requires 0 <= i < |s.loops| => s.loops[i].table.Values)
    + seq(|s.loops|, i requires 0 <= i < |s.loops| => Limbo(s.loops[i].pc))
  }

  ghost function Books(s: System): Ledger.Ledger {
    Ledger.Ledger(s.open, s.serial, Places(s))
  }

  function Pending(pc: Pc): int {
    if pc.Inserted? then -1 else if pc.Erased? || pc.Deleted? || pc.Unrecorded? then 1 else 0
  }

  /** What one reactor contributes to the gauge. */
  function Load(l: Reactor): int { |l.table| + Pending(l.pc) }

  ghost predicate Accounts(s: System) {
    && Ledger.Partition(Books(s))
    && s.active == Total(s.loops, Load)
    && (forall i :: 0 <= i < |s.loops| ==> Ledger.Keyed(s.loops[i].table))
  }

  lemma PlacesAfter(s: System, i: nat, r: System)
    requires i < |s.loops| && |r.loops| == |s.loops| && r.loops == s.loops[i := r.loops[i]]
    ensures Places(r) == Places(s)[i := r.loops[i].table.Values][|s.loops| + i := Limbo(r.loops[i].pc)]
  {
  }

  lemma GaugePut(s: System, i: nat, l: Reactor)
    requires i < |s.loops|
    ensures Total(Put(s, i, l).loops, Load) == Total(s.loops, Load) - Load(s.loops[i]) + Load(l)
  {
    TotalUpdate(s.loops, i, l, Load);
  }

  /** A step that moves no socket. */
  lemma QuietStep(s: System, i: nat, r: System)
    requires Accounts(s) && i < |s.loops| && |r.loops| == |s.loops|
    requires r.loops == s.loops[i := r.loops[i]] && r.open == s.open && r.serial == s.serial
    requires r.loops[i].table == s.loops[i].table && Limbo(r.loops[i].pc) == Limbo(s.loops[i].pc)
    requires r.active - s.active == Pending(r.loops[i].pc) - Pending(s.loops[i].pc)
    ensures Accounts(r)
  {
    hide Ledger.Partition;
    PlacesAfter(s, i, r);
    GaugePut(s, i, r.loops[i]);
    assert Places(r) == Places(s);
  }

  /** A step whose effect on the books is already known to be a move. */
  lemma MoverStep(s: System, i: nat, r: System)
    requires Accounts(s) && i < |s.loops| && |r.loops| == |s.loops| && r.loops == s.loops[i := r.loops[i]]
    requires Ledger.Partition(Books(r)) && Ledger.Keyed(r.loops[i].table)
    requires r.active - s.active == Load(r.loops[i]) - Load(s.loops[i])
    ensures Accounts(r)
  {
    hide Ledger.Partition, Places, Load;
    GaugePut(s, i, r.loops[i]);
  }

  lemma AcceptMoves(s: System, i: nat, k: Sock)
    requires Ledger.Partition(Books(s)) && i < |s.loops| && s.loops[i].pc == Idle
    requires k.fd !in s.open && k.serial == s.serial
    ensures Ledger.Partition(Books(AcceptedAs(s, i, k)))
  {
    hide Ledger.Partition;
    var at := |s.loops| + i;
    Ledger.AcceptKeeps(Books(s), at, k.fd);
    PlacesAfter(s, i, AcceptedAs(s, i, k));
    assert Places(s)[at] == {} && {} + {k} == {k};
    assert Places(AcceptedAs(s, i, k)) == Places(s)[at := {k}];
  }

  lemma AcceptStep(s: System, i: nat, k: Sock)
    requires Accounts(s) && i < |s.loops| && s.loops[i].pc == Idle && k.fd !in s.open && k.serial == s.serial
    ensures Accounts(AcceptedAs(s, i, k))
  {
    AcceptMoves(s, i, k);
    MoverStep(s, i, AcceptedAs(s, i, k));
  }

  /** What a reactor has in hand is open, and in no table. */
  lemma InHand(s: System, i: nat)
    requires Accounts(s) && i < |s.loops| && Limbo(s.loops[i].pc) != {}
    ensures var k := s.loops[i].pc.sock;
            && k.fd in s.open && s.open[k.fd] == k && k in Places(s)[|s.loops| + i]
            && forall j :: 0 <= j < |s.loops| ==> k.fd !in s.loops[j].table
  {
    var k, places := s.loops[i].pc.sock, Books(s).places;
    assert k in places[|s.loops| + i];
    forall j | 0 <= j < |s.loops| ensures k.fd !in s.loops[j].table {
      assert places[j] !! places[|s.loops| + i];
      assert forall fd :: fd in s.loops[j].table ==> s.loops[j].table[fd] in places[j];
    }
  }

  lemma InsertMoves(s: System, i: nat, k: Sock)
    requires Ledger.Partition(Books(s)) && i < |s.loops| && s.loops[i].pc == Accepted(k)
    requires Ledger.Keyed(s.loops[i].table) && k.fd !in s.loops[i].table
    ensures Ledger.Partition(Books(InsertedAs(s, i, k)))
  {
    hide Ledger.Partition, Places;
    var n := |s.loops|;
    Ledger.TableInsert(s.loops[i].table, k);
    PlacesOf(s, i);
    PlacesAfter(s, i, InsertedAs(s, i, k));
    Ledger.MoveKeeps(Books(s), n + i, i, {k});
    assert {k} - {k} == {};
    assert Places(InsertedAs(s, i, k)) == Ledger.Move(Books(s), n + i, i, {k}).places;
  }

  lemma InsertStep(s: System, i: nat, k: Sock)
    requires Accounts(s) && i < |s.loops| && s.loops[i].pc == Accepted(k)
    ensures Accounts(InsertedAs(s, i, k))
  {
    hide Ledger.Partition;
    InHand(s, i);
    InsertMoves(s, i, k);
    Ledger.TableInsert(s.loops[i].table, k);
    MoverStep(s, i, InsertedAs(s, i, k));
  }

  lemma DropMoves(s: System, i: nat, fd: Fd, r: System)
    requires Ledger.Partition(Books(s)) && i < |s.loops| && s.loops[i].pc == Idle
    requires Ledger.Keyed(s.loops[i].table) && fd in s.loops[i].table
    requires |r.loops| == |s.loops| && r.loops == s.loops[i := r.loops[i]] && r.open == s.open && r.serial == s.serial
    requires r.loops[i].table == s.loops[i].table - {fd} && r.loops[i].pc == Erased(s.loops[i].table[fd])
    ensures Ledger.Partition(Books(r))
  {
    hide Ledger.Partition, Places;
    var k, n := s.loops[i].table[fd], |s.loops|;
    Ledger.TableErase(s.loops[i].table, fd);
    PlacesOf(s, i);
    PlacesAfter(s, i, r);
    Ledger.MoveKeeps(Books(s), i, n + i, {k});
    assert {} + {k} == {k};
  }

  lemma PlacesOf(s: System, i: nat)
    requires i < |s.loops|
    ensures |Places(s)| == 2 * |s.loops|
    ensures Places(s)[i] == s.loops[i].table.Values && Places(s)[|s.loops| + i] == Limbo(s.loops[i].pc)
  {
  }

  /** Taking a connection out of a table, whatever else the step does. */
  lemma DropStep(s: System, i: nat, fd: Fd, r: System)
    requires Accounts(s) && i < |s.loops| && s.loops[i].pc == Idle && fd in s.loops[i].table
    requires |r.loops| == |s.loops| && r.loops == s.loops[i := r.loops[i]] && r.open == s.open && r.serial == s.serial
    requires r.loops[i].table == s.loops[i].table - {fd} && r.loops[i].pc == Erased(s.loops[i].table[fd])
    requires r.active == s.active
    ensures Accounts(r)
  {
    hide Ledger.Partition;
    Ledger.TableErase(s.loops[i].table, fd);
    DropMoves(s, i, fd, r);
    MoverStep(s, i, r);
  }

  lemma CloseMoves(s: System, i: nat, k: Sock)
    requires Ledger.Partition(Books(s)) && i < |s.loops| && s.loops[i].pc == Deleted(k)
    ensures Ledger.Partition(Books(ClosedBy(s, i, k)))
  {
    hide Ledger.Partition;
    var at := |s.loops| + i;
    PlacesAfter(s, i, ClosedBy(s, i, k));
    assert k in Places(s)[at];
    Ledger.CloseKeeps(Books(s), at, k);
    assert Places(s)[at] - {k} == {};
    assert Places(ClosedBy(s, i, k)) == Places(s)[at := {}];
  }

  lemma CloseStep(s: System, i: nat, k: Sock)
    requires Accounts(s) && i < |s.loops| && s.loops[i].pc == Deleted(k)
    ensures Accounts(ClosedBy(s, i, k))
  {
    hide Ledger.Partition;
    CloseMoves(s, i, k);
    MoverStep(s, i, ClosedBy(s, i, k));
  }

  lemma HandleStep(s: System, i: nat, call: Call, rearmed: bool)
    requires Accounts(s) && i < |s.loops| && s.loops[i].pc == Idle
    requires s.loops[i].batch != [] && s.loops[i].batch[0].ev.fd in s.loops[i].table
    ensures Accounts(HandledBy(s, i, call, rearmed))
  {
    hide Accounts, ActionOf;
    var r, fd := HandledBy(s, i, call, rearmed), s.loops[i].batch[0].ev.fd;
    if fd in r.loops[i].table {
      QuietStep(s, i, r);
    } else {
      DropStep(s, i, fd, r);
    }
  }

  lemma SweepStep(s: System, i: nat)
    requires Accounts(s) && i < |s.loops| && s.loops[i].pc == Idle && s.loops[i].expired != []
    ensures var l := s.loops[i];
            Accounts(Put(s, i, Drop(l.(expired := l.expired[1..]), l.expired[0])))
  {
    hide Accounts;
    var l := s.loops[i];
    var r := Put(s, i, Drop(l.(expired := l.expired[1..]), l.expired[0]));
    if l.expired[0] in l.table {
      DropStep(s, i, l.expired[0], r);
    } else {
      QuietStep(s, i, r);
    }
  }

  lemma OtherStep(s: System, i: nat, a: Act)
    requires Accounts(s) && Enabled(s, i, a)
    requires a.Poll? || a.Count? || a.Add? || a.Skip? || a.Sweep? || a.Delete? || a.Record?
    ensures Accounts(Apply(s, i, a))
  {
    hide Accounts, Reported, Flag;
    QuietStep(s, i, Apply(s, i, a));
  }

  lemma StepAccounts(s: System, i: nat, a: Act)
    requires Accounts(s) && Enabled(s, i, a)
    ensures Accounts(Apply(s, i, a))
  {
    hide Accounts, AcceptedAs, InsertedAs, HandledBy, ClosedBy, Drop, Flag;
    match a
    case Accept(fd) => AcceptStep(s, i, Sock(fd, s.serial));
    case Insert => InsertStep(s, i, s.loops[i].pc.sock);
    case Handle(call, rearmed) => HandleStep(s, i, call, rearmed);
    case SweepNext => SweepStep(s, i);
    case CloseFd => CloseStep(s, i, s.loops[i].pc.sock);
    case _ => OtherStep(s, i, a);
  }

  lemma {:induction false} StartGauge(n: nat)
    ensures Total(seq(n, i => NEW_REACTOR), Load) == 0
  {
    if n > 0 {
      StartGauge(n - 1);
      assert seq(n, i => NEW_REACTOR)[1..] == seq(n - 1, i => NEW_REACTOR);
    }
  }

  lemma StartAccounts(n: nat)
    ensures Accounts(Start(n))
  {
    StartGauge(n);
    assert forall i :: 0 <= i < |Places(Start(n))| ==> Places(Start(n))[i] == {};
  }

  /** The connection tables of the reactors and what each has in hand partition the open
      sockets in every interleaving, and the shared gauge is exact. */
  lemma {:induction false} TablesPartition(n: nat, turns: seq<Turn>)
    ensures Accounts(After(n, turns))
    decreases |turns|
  {
    hide Accounts, Apply, Enabled;
    if |turns| == 0 {
      StartAccounts(n);
    } else {
      var front := turns[..|turns| - 1];
      TablesPartition(n, front);
      var s, x := After(n, front), turns[|turns| - 1];
      if Enabled(s, x.i, x.act) {
        StepAccounts(s, x.i, x.act);
      }
    }
  }

  /** In particular no descriptor is in two tables. */
  lemma TablesAreDisjoint(s: System, i: nat, j: nat)
    requires Accounts(s) && i < j < |s.loops|
    ensures s.loops[i].table.Keys !! s.loops[j].table.Keys
  {
    var places := Books(s).places;
    assert places[i] !! places[j];
    assert forall fd :: fd in s.loops[i].table ==> s.loops[i].table[fd] in places[i];
    assert forall fd :: fd in s.loops[j].table ==> s.loops[j].table[fd] in places[j];
  }
}
