/** Events in a reactor reach the connection they were reported for, and each connection
    sees a legal run (src/reactor_loop.cpp:80-161). */
module ReactorSessions {
  import opened ConnectionHandling
  import opened ConnectionRuns
  import opened Fragmentation
  import opened Kernel
  import Ledger
  import opened Sequences
  import opened ReactorLoop

  /** What holds of one reactor between its steps. */
  ghost predicate LoopOk(s: System, l: Reactor) {
    && Ledger.Keyed(l.table)
    && (forall fd :: fd in l.epoll ==> fd in l.table || (l.pc.Erased? && l.pc.sock.fd == fd))
    && (forall fd :: fd in l.epoll && fd in l.table ==> Wants(s, l.table[fd], l.epoll[fd]))
    && DistinctFds(l.batch)
    && (forall x :: x in l.batch ==> InPlace(s, l, x))
    && Distinct(l.expired)
    && (forall fd :: fd in l.expired ==> fd in l.table)
    && (l.expired != [] ==> l.batch == [])
    && (l.pc.Accepted? ==> l.pc.sock.fd !in l.table)
    && (l.pc.Inserted? || l.pc.Counted? ==>
          var k := l.pc.sock;
          k.fd in l.table && l.table[k.fd] == k && CallsOn(s, k) == [] && k.fd !in l.epoll)
  }

  ghost predicate Wants(s: System, k: Sock, w: Wait) {
    ActionOf(CallsOn(s, k)) != Close && WaitFor(ActionOf(CallsOn(s, k))) == w
  }

  /** An event still in the batch names the socket it was reported for, and says what that
      connection's last action asked for. */
  ghost predicate InPlace(s: System, l: Reactor, x: Flagged) {
    x.ev.fd in l.table && l.table[x.ev.fd] == x.sock && Fits(x.ev, CallsOn(s, x.sock))
  }

  ghost predicate Sessions(s: System) {
    && (forall k :: k in s.history ==> Legal(s.history[k]))
    && (forall i :: 0 <= i < |s.loops| ==> LoopOk(s, s.loops[i]))
  }

  /** A reactor is untouched by what happens to sockets it does not have. */
  lemma OtherLoopOk(s: System, r: System, l: Reactor)
    requires LoopOk(s, l)
    requires forall k :: k in l.table.Values ==> CallsOn(r, k) == CallsOn(s, k)
    ensures LoopOk(r, l)
  {
    hide ActionOf, Fits, CallsOn;
    assert forall fd :: fd in l.table ==> l.table[fd] in l.table.Values;
  }

  /** One reactor steps; at most the history of a socket in its own places changes. */
  lemma LoopSteps(s: System, i: nat, r: System)
    requires Sessions(s) && Accounts(s) && i < |s.loops|
    requires |r.loops| == |s.loops| && r.loops == s.loops[i := r.loops[i]]
    requires LoopOk(r, r.loops[i])
    requires forall k :: k in r.history ==> Legal(r.history[k])
    requires forall k :: k !in s.loops[i].table.Values && k !in Limbo(s.loops[i].pc) ==> CallsOn(r, k) == CallsOn(s, k)
    ensures Sessions(r)
  {
    hide LoopOk, Legal, CallsOn;
    forall j | 0 <= j < |r.loops| ensures LoopOk(r, r.loops[j]) {
      if j != i {
        assert r.loops[j] == s.loops[j];
        SeparatePlaces(s, i, j);
        OtherLoopOk(s, r, s.loops[j]);
      }
    }
  }

  lemma SeparatePlaces(s: System, i: nat, j: nat)
    requires Accounts(s) && i < |s.loops| && j < |s.loops| && i != j
    ensures s.loops[j].table.Values !! s.loops[i].table.Values
    ensures s.loops[j].table.Values !! Limbo(s.loops[i].pc)
  {
    var places, n := Books(s).places, |s.loops|;
    assert places[i] == s.loops[i].table.Values && places[j] == s.loops[j].table.Values;
    assert places[n + i] == Limbo(s.loops[i].pc);
    assert places[if i < j then i else j] !! places[if i < j then j else i];
    assert places[j] !! places[n + i];
  }

  lemma PollOk(s: System, i: nat, evs: seq<Event>)
    requires Sessions(s) && Accounts(s) && i < |s.loops|
    requires s.loops[i].pc == Idle && s.loops[i].batch == [] && s.loops[i].expired == [] && Reported(s, s.loops[i], evs)
    ensures Sessions(Put(s, i, s.loops[i].(batch := Flag(s, evs))))
  {
    hide ActionOf, Legal;
    var l := s.loops[i];
    var m := l.(batch := Flag(s, evs));
    assert LoopOk(s, l);
    TableIsOpen(s, i);
    forall x | x in m.batch ensures InPlace(s, m, x) {
      var j :| 0 <= j < |evs| && m.batch[j] == x;
      assert evs[j].fd in l.epoll && evs[j].fd in l.table;
      assert Wants(s, l.table[evs[j].fd], l.epoll[evs[j].fd]);
    }
    SameHistory(s, Put(s, i, m), m);
    LoopSteps(s, i, Put(s, i, m));
  }

  lemma TableIsOpen(s: System, i: nat)
    requires Accounts(s) && i < |s.loops|
    ensures forall fd :: fd in s.loops[i].table ==> fd in s.open && s.open[fd] == s.loops[i].table[fd]
  {
    var places := Books(s).places;
    assert forall fd :: fd in s.loops[i].table ==> s.loops[i].table[fd] in places[i];
  }

  lemma SameHistory(s: System, r: System, l: Reactor)
    requires LoopOk(s, l) && r.history == s.history
    ensures LoopOk(r, l)
  {
    hide ActionOf, Fits;
  }

  lemma InsertOk(s: System, i: nat, k: Sock)
    requires Sessions(s) && Accounts(s) && i < |s.loops| && s.loops[i].pc == Accepted(k)
    ensures Sessions(InsertedAs(s, i, k))
  {
    hide ActionOf, Fits, Accounts, LoopOk;
    InsertedLoopOk(s, i, k);
    assert Legal([]);
    LoopSteps(s, i, InsertedAs(s, i, k));
  }

  lemma InsertedLoopOk(s: System, i: nat, k: Sock)
    requires i < |s.loops| && LoopOk(s, s.loops[i]) && s.loops[i].pc == Accepted(k)
    ensures var r := InsertedAs(s, i, k); LoopOk(r, r.loops[i])
  {
    hide ActionOf, Fits, Legal;
    var l, r := s.loops[i], InsertedAs(s, i, k);
    assert forall fd :: fd in l.table ==> l.table[fd].fd == fd;
    assert forall fd :: fd in l.table ==> CallsOn(r, l.table[fd]) == CallsOn(s, l.table[fd]);
  }

  lemma HandleOk(s: System, i: nat, call: Call, rearmed: bool)
    requires Sessions(s) && Accounts(s) && Enabled(s, i, Handle(call, rearmed))
    ensures Sessions(HandledBy(s, i, call, rearmed))
  {
    hide ActionOf, Legal, Fits, Ledger.Partition, Accounts;
    var l, r := s.loops[i], HandledBy(s, i, call, rearmed);
    var x := l.batch[0];
    assert LoopOk(s, l) && InPlace(s, l, x);
    assert forall y :: y in l.batch[1..] ==> y in l.batch && y.ev.fd != x.ev.fd;
    assert x.sock in l.table.Values;
    HandledLoopOk(s, i, call, rearmed);
    if !Broken(x.ev) {
      HandledLegal(s, x, call);
    }
    LoopSteps(s, i, r);
  }

  lemma HandledLegal(s: System, x: Flagged, call: Call)
    requires Sessions(s) && Fits(x.ev, CallsOn(s, x.sock)) && !Broken(x.ev) && Dispatches(x.ev, call)
    ensures Legal(CallsOn(s, x.sock) + [call])
  {
    hide LoopOk;
    FittingCallIsLegal(x.ev, CallsOn(s, x.sock), call);
  }

  lemma HandledLoopOk(s: System, i: nat, call: Call, rearmed: bool)
    requires i < |s.loops| && LoopOk(s, s.loops[i]) && s.loops[i].pc == Idle
    requires s.loops[i].batch != [] && s.loops[i].batch[0].ev.fd in s.loops[i].table
    ensures var r := HandledBy(s, i, call, rearmed); LoopOk(r, r.loops[i])
  {
    hide ActionOf, Fits;
    var l, r := s.loops[i], HandledBy(s, i, call, rearmed);
    var x := l.batch[0];
    var m := r.loops[i];
    assert InPlace(s, l, x);
    forall y | y in m.batch ensures InPlace(r, m, y) {
      assert y in l.batch && y.ev.fd != x.ev.fd;
      assert InPlace(s, l, y);
    }
    forall fd | fd in m.epoll && fd in m.table ensures Wants(r, m.table[fd], m.epoll[fd]) {
      assert fd in l.epoll ==> Wants(s, l.table[fd], l.epoll[fd]);
    }
  }

  /** Steps of one reactor that touch neither its batch's connections nor any history. */
  lemma LocalOk(s: System, i: nat, r: System)
    requires Sessions(s) && Accounts(s) && i < |s.loops|
    requires |r.loops| == |s.loops| && r.loops == s.loops[i := r.loops[i]] && r.history == s.history
    requires LoopOk(s, r.loops[i])
    ensures Sessions(r)
  {
    hide LoopOk, Legal, Accounts;
    SameHistory(s, r, r.loops[i]);
    LoopSteps(s, i, r);
  }

  lemma AcceptOk(s: System, i: nat, fd: Fd)
    requires Sessions(s) && Accounts(s) && i < |s.loops|
    requires s.loops[i].pc == Idle && s.loops[i].expired == [] && fd !in s.open
    ensures Sessions(AcceptedAs(s, i, Sock(fd, s.serial)))
  {
    hide ActionOf, Legal, Fits, Accounts;
    assert LoopOk(s, s.loops[i]);
    TableIsOpen(s, i);
    LocalOk(s, i, AcceptedAs(s, i, Sock(fd, s.serial)));
  }

  lemma CountOk(s: System, i: nat, a: Act)
    requires Sessions(s) && Accounts(s) && Enabled(s, i, a) && (a.Count? || a.Record? || a.Sweep?)
    ensures Sessions(Apply(s, i, a))
  {
    hide ActionOf, Legal, Fits, Accounts, Wants;
    assert LoopOk(s, s.loops[i]);
    LocalOk(s, i, Apply(s, i, a));
  }

  lemma SkipOk(s: System, i: nat)
    requires Sessions(s) && Accounts(s) && i < |s.loops| && s.loops[i].batch != []
    ensures Sessions(Put(s, i, s.loops[i].(batch := s.loops[i].batch[1..])))
  {
    hide ActionOf, Legal, Fits, Accounts, Wants;
    var l := s.loops[i];
    assert LoopOk(s, l);
    var m := l.(batch := l.batch[1..]);
    assert forall x :: x in m.batch ==> x in l.batch;
    assert forall x :: InPlace(s, l, x) ==> InPlace(s, m, x);
    LocalOk(s, i, Put(s, i, m));
  }

  lemma AddOk(s: System, i: nat, a: Act)
    requires Sessions(s) && Accounts(s) && Enabled(s, i, a) && a.Add?
    ensures Sessions(Apply(s, i, a))
  {
    hide Legal, Fits, Accounts;
    assert LoopOk(s, s.loops[i]);
    assert Wants(s, s.loops[i].pc.sock, In);
    LocalOk(s, i, Apply(s, i, a));
  }

  lemma SweepOk(s: System, i: nat)
    requires Sessions(s) && Accounts(s) && i < |s.loops| && s.loops[i].pc == Idle && s.loops[i].expired != []
    ensures var l := s.loops[i];
            Sessions(Put(s, i, Drop(l.(expired := l.expired[1..]), l.expired[0])))
  {
    hide ActionOf, Legal, Fits, Accounts;
    var l := s.loops[i];
    assert LoopOk(s, l);
    assert forall fd :: fd in l.expired[1..] ==> fd in l.expired && fd != l.expired[0];
    LocalOk(s, i, Put(s, i, Drop(l.(expired := l.expired[1..]), l.expired[0])));
  }

  lemma CloserOk(s: System, i: nat, k: Sock)
    requires Sessions(s) && Accounts(s) && i < |s.loops| && (s.loops[i].pc == Erased(k) || s.loops[i].pc == Deleted(k))
    ensures s.loops[i].pc.Erased? ==>
              Sessions(Put(s, i, s.loops[i].(pc := Deleted(k), epoll := s.loops[i].epoll - {k.fd})))
    ensures s.loops[i].pc.Deleted? ==> Sessions(ClosedBy(s, i, k))
  {
    hide ActionOf, Legal, Fits, Accounts;
    assert LoopOk(s, s.loops[i]);
    if s.loops[i].pc.Erased? {
      LocalOk(s, i, Put(s, i, s.loops[i].(pc := Deleted(k), epoll := s.loops[i].epoll - {k.fd})));
    } else {
      LocalOk(s, i, ClosedBy(s, i, k));
    }
  }

  lemma StepKeepsSessions(s: System, i: nat, a: Act)
    requires Sessions(s) && Accounts(s) && Enabled(s, i, a)
    ensures Sessions(Apply(s, i, a))
  {
    hide Sessions, Accounts, AcceptedAs, InsertedAs, HandledBy, ClosedBy, Drop, Flag;
    match a
    case Poll(evs) => PollOk(s, i, evs);
    case Accept(fd) => AcceptOk(s, i, fd);
    case Insert => InsertOk(s, i, s.loops[i].pc.sock);
    case Handle(call, rearmed) => HandleOk(s, i, call, rearmed);
    case Add(_) => AddOk(s, i, a);
    case Skip => SkipOk(s, i);
    case SweepNext => SweepOk(s, i);
    case Delete => CloserOk(s, i, s.loops[i].pc.sock);
    case CloseFd => CloserOk(s, i, s.loops[i].pc.sock);
    case _ => CountOk(s, i, a);
  }

  /** Over every interleaving of N reactors, descriptor reuse included: the tables partition
      the connections, every event in a batch still names the connection it was reported
      for, and every connection sees a legal run. */
  lemma {:induction false} ReactorsKeepSessions(n: nat, turns: seq<Turn>)
    ensures var s := After(n, turns); Accounts(s) && Sessions(s)
    decreases |turns|
  {
    hide Accounts, Sessions, Apply, Enabled;
    TablesPartition(n, turns);
    if |turns| == 0 {
      assert Sessions(Start(n)) by { StartSessions(n); }
    } else {
      var front := turns[..|turns| - 1];
      ReactorsKeepSessions(n, front);
      var s, x := After(n, front), turns[|turns| - 1];
      if Enabled(s, x.i, x.act) {
        StepKeepsSessions(s, x.i, x.act);
      }
    }
  }

  lemma StartSessions(n: nat)
    ensures Sessions(Start(n))
  {
  }

  /** So the branch that skips an event whose descriptor is not in the table is never taken
      for a client, and the connection handled is the one the event was reported for, not
      one accepted later in the batch under the same number. */
  lemma EventsReachTheirConnection(n: nat, turns: seq<Turn>, i: nat, a: Act)
    requires Enabled(After(n, turns), i, a)
    ensures !a.Skip?
    ensures a.Handle? ==> var l := After(n, turns).loops[i]; l.table[l.batch[0].ev.fd] == l.batch[0].sock
  {
    hide ActionOf, Legal, Fits, After;
    ReactorsKeepSessions(n, turns);
    var l := After(n, turns).loops[i];
    assert LoopOk(After(n, turns), l);
    assert l.batch != [] ==> InPlace(After(n, turns), l, l.batch[0]);
  }

  /** What a client of the reactors can rely on, without any assumption on descriptor reuse. */
  lemma ClientsAreServed(n: nat, turns: seq<Turn>, k: Sock, router: Router)
    requires k in After(n, turns).history && Uses(After(n, turns).history[k], router)
    ensures var calls := After(n, turns).history[k];
            var conn := Run(calls).conn;
            && Legal(calls)
            && CloseOnlyLast(conn.core)
            && conn.sent <= AllBytes(conn.core.log)
            && conn.core.log <= AtOnce(StreamOf(calls), router).log
            && (conn.core.log == AtOnce(StreamOf(calls), router).log <==> EndSpares(calls, router))
            && (Run(calls).action != Close ==> Settled(conn.core))
  {
    hide After, Run, Legal, Bytes, Serve, LoopOk;
    ReactorsKeepSessions(n, turns);
    var calls := After(n, turns).history[k];
    CloseIsLast(calls);
    OutputIntegrity(calls);
    RunFollowsStream(calls, router);
    LegalRunsSettle(calls);
  }
}
