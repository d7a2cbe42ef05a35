/** Whole runs of the reactors: every accepted socket is closed exactly once or still open
    (src/reactor_loop.cpp:96-114, 154-161). */
module ReactorRuns {
  import opened Text
  import opened Kernel
  import Ledger
  import opened ReactorLoop

  /** The descriptor number a step passes to close(). */
  ghost function ClosesNumber(s: System, i: nat, a: Act): Option<Fd>
    requires Enabled(s, i, a)
  {
    if a.CloseFd? then Some(s.loops[i].pc.sock.fd) else None
  }

  ghost function Hits(n: nat, turns: seq<Turn>): seq<Ledger.Hit> {
    if |turns| == 0 then []
    else
      var front, x := turns[..|turns| - 1], turns[|turns| - 1];
      var s := After(n, front);
      if Enabled(s, x.i, x.act) && ClosesNumber(s, x.i, x.act).Some?
      then Hits(n, front) + [Ledger.HitBy(s.open, ClosesNumber(s, x.i, x.act).value)]
      else Hits(n, front)
  }

  /** The sockets accept has returned, to any reactor. */
  ghost function Accepts(n: nat, turns: seq<Turn>): seq<Sock> {
    if |turns| == 0 then []
    else
      var front, x := turns[..|turns| - 1], turns[|turns| - 1];
      var s := After(n, front);
      if Enabled(s, x.i, x.act) && x.act.Accept? then Accepts(n, front) + [Sock(x.act.fd, s.serial)]
      else Accepts(n, front)
  }

  lemma OpenStays(s: System, i: nat, a: Act)
    requires Enabled(s, i, a) && !a.Accept? && !a.CloseFd?
    ensures Apply(s, i, a).open == s.open && Apply(s, i, a).serial == s.serial
  {
    hide ActionOf, Dispatches, Reported, Flag, Drop;
  }

  lemma StepConserves(s: System, i: nat, a: Act, accepts: seq<Sock>, hits: seq<Ledger.Hit>)
    requires Accounts(s) && Enabled(s, i, a) && Ledger.Conserved(s.open, s.serial, accepts, hits)
    ensures var r := Apply(s, i, a);
            Ledger.Conserved(r.open, r.serial,
                             if a.Accept? then accepts + [Sock(a.fd, s.serial)] else accepts,
                             if ClosesNumber(s, i, a).Some?
                             then hits + [Ledger.HitBy(s.open, ClosesNumber(s, i, a).value)] else hits)
  {
    hide Ledger.Conserved, Accounts, ActionOf;
    if a.Accept? {
      Ledger.AcceptConserves(s.open, s.serial, a.fd, accepts, hits);
    } else if a.CloseFd? {
      InHand(s, i);
      Ledger.CloseConserves(s.open, s.serial, s.loops[i].pc.sock, accepts, hits);
    } else {
      OpenStays(s, i, a);
    }
  }

  /** Over every interleaving of N reactors, descriptor reuse included: no close misses, none
      hits a socket twice, and the sockets accepted are exactly those closed once and those
      still open. */
  lemma {:induction false} SocketsAreConserved(n: nat, turns: seq<Turn>)
    ensures var s := After(n, turns);
            Ledger.Conserved(s.open, s.serial, Accepts(n, turns), Hits(n, turns))
    decreases |turns|
  {
    hide Ledger.Conserved, Apply, Enabled, Accounts;
    if |turns| == 0 {
      Ledger.NothingConserved(0);
    } else {
      var front, x := turns[..|turns| - 1], turns[|turns| - 1];
      SocketsAreConserved(n, front);
      TablesPartition(n, front);
      var s := After(n, front);
      if Enabled(s, x.i, x.act) {
        StepConserves(s, x.i, x.act, Accepts(n, front), Hits(n, front));
      }
    }
  }
}
