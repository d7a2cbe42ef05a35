/** What a reactor does with a connection, turn by turn, and that it forgets none
    (src/reactor_loop.cpp:96-144, 154-174). */
module ReactorTurns {
  import opened ConnectionHandling
  import opened ConnectionRuns
  import opened Kernel
  import opened ReactorLoop

  /** The turn that handles an event: the connection leaves the table if and only if the event
      is a hang-up or an error, the handler asks to close, or the registration fails; otherwise
      it is registered for output if the handler waits to write and for input if it waits to
      read. The handler is called on that connection and no other, and not on a hang-up. */
  lemma TurnDecides(s: System, i: nat, call: Call, rearmed: bool)
    requires Enabled(s, i, Handle(call, rearmed))
    ensures var l, r := s.loops[i], Apply(s, i, Handle(call, rearmed));
            var ev := l.batch[0].ev;
            var k := l.table[ev.fd];
            var calls := (if k in s.history then s.history[k] else []) + [call];
            var action := Run(calls).action;
            var closes := ev.hup || ev.err || action == Close || !rearmed;
            && |r.loops| == |s.loops| && (forall j :: 0 <= j < |s.loops| && j != i ==> r.loops[j] == s.loops[j])
            && (ev.fd !in r.loops[i].table <==> closes)
            && (forall fd :: fd != ev.fd ==>
                  (fd in r.loops[i].table <==> fd in l.table) &&
                  (fd in l.table ==> r.loops[i].table[fd] == l.table[fd]))
            && (if closes then r.loops[i].pc == Erased(k) && r.loops[i].epoll == l.epoll
                else r.loops[i].pc == Idle && r.loops[i].table == l.table
                     && r.loops[i].epoll == l.epoll[ev.fd := if action == WaitWrite then Out else In])
            && r.history == (if ev.hup || ev.err then s.history else s.history[k := calls])
            && r.loops[i].batch == l.batch[1..] && r.open == s.open && r.active == s.active
  {
    hide Run, Dispatches;
  }

  /** The sweep takes out the connections it listed. */
  lemma SweepDecides(s: System, i: nat)
    requires Enabled(s, i, SweepNext)
    ensures var l, r := s.loops[i], Apply(s, i, SweepNext);
            var fd := l.expired[0];
            && fd !in r.loops[i].table && r.loops[i].expired == l.expired[1..]
            && (fd in l.table ==> r.loops[i].pc == Erased(l.table[fd]))
            && (fd !in l.table ==> r.loops[i].pc == Idle && r.loops[i].table == l.table)
  {
  }

  /** And a connection taken out leaves the epoll set, then the kernel's table, then the gauge. */
  lemma CloserDecides(s: System, i: nat, a: Act)
    requires Enabled(s, i, a) && (a.Delete? || a.CloseFd? || a.Record?)
    ensures var l, r := s.loops[i], Apply(s, i, a);
            && r.loops[i].table == l.table && r.loops[i].batch == l.batch
            && (a.Delete? ==> l.pc.sock.fd !in r.loops[i].epoll && r.loops[i].pc == Deleted(l.pc.sock) &&
                              r.open == s.open)
            && (a.CloseFd? ==> r.open == s.open - {l.pc.sock.fd} && r.loops[i].pc == Unrecorded)
            && (a.Record? ==> r.active == s.active - 1 && r.loops[i].pc == Idle && r.open == s.open)
  {
  }

  // ---- nobody is forgotten --------------------------------------------------------------

  /** Every connection in the table is registered, or about to be. */
  predicate Watched(l: Reactor) {
    forall fd :: fd in l.table ==>
      fd in l.epoll || ((l.pc.Inserted? || l.pc.Counted?) && l.pc.sock.fd == fd)
  }

  ghost predicate AllWatched(s: System) { forall i :: 0 <= i < |s.loops| ==> Watched(s.loops[i]) }

  /** EPOLL_CTL_ADD never failed. */
  predicate AllAdded(turns: seq<Turn>) {
    forall i :: 0 <= i < |turns| ==> turns[i].act.Add? ==> turns[i].act.ok
  }

  lemma StepWatches(s: System, i: nat, a: Act)
    requires Accounts(s) && AllWatched(s) && Enabled(s, i, a) && (a.Add? ==> a.ok)
    ensures AllWatched(Apply(s, i, a))
  {
    hide Accounts, ActionOf, Dispatches, Reported, Flag;
    var r := Apply(s, i, a);
    assert Watched(s.loops[i]);
    if a.Delete? || a.CloseFd? {
      InHand(s, i);
    }
    assert Watched(r.loops[i]);
    assert forall j :: 0 <= j < |s.loops| && j != i ==> r.loops[j] == s.loops[j];
  }

  /** In every interleaving of N reactors in which registrations succeed, no connection in a
      table is forgotten: each is registered or being added. */
  lemma {:induction false} NoneForgotten(n: nat, turns: seq<Turn>)
    requires AllAdded(turns)
    ensures AllWatched(After(n, turns))
    decreases |turns|
  {
    hide Accounts, Apply, Enabled, Watched;
    if |turns| == 0 {
      NewIsWatched();
    } else {
      var front, x := turns[..|turns| - 1], turns[|turns| - 1];
      NoneForgotten(n, front);
      TablesPartition(n, front);
      var s := After(n, front);
      if Enabled(s, x.i, x.act) {
        StepWatches(s, x.i, x.act);
      }
    }
  }

  lemma NewIsWatched()
    ensures Watched(NEW_REACTOR)
  {
  }
}
