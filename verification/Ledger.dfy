/** Who answers for which open socket. Both event loops keep this ledger; each of their
    steps is one of the moves below, or none. */
module Ledger {
  import opened Kernel
  import opened Sequences

  /** `places[i]` is the set of sockets place `i` answers for. */
  datatype Ledger = Ledger(open: map<Fd, Sock>, serial: nat, places: seq<set<Sock>>)

  /** The open sockets are the disjoint union of the places. */
  ghost predicate Partition(l: Ledger) {
    && (forall fd :: fd in l.open ==> l.open[fd].fd == fd && l.open[fd].serial < l.serial)
    && (forall i, k :: 0 <= i < |l.places| && k in l.places[i] ==> k.fd in l.open && l.open[k.fd] == k)
    && (forall i, j :: 0 <= i < j < |l.places| ==> l.places[i] !! l.places[j])
    && (forall fd :: fd in l.open ==> Placed(l, l.open[fd]))
  }

  ghost predicate Placed(l: Ledger, k: Sock) {
    exists i :: 0 <= i < |l.places| && k in l.places[i]
  }

  /** accept: any number that is not open, with a serial never used before. */
  function Accept(l: Ledger, i: nat, fd: Fd): Ledger
    requires i < |l.places|
  {
    var k := Sock(fd, l.serial);
    Ledger(l.open[fd := k], l.serial + 1, l.places[i := l.places[i] + {k}])
  }

  lemma AcceptKeeps(l: Ledger, i: nat, fd: Fd)
    requires Partition(l) && i < |l.places| && fd !in l.open
    ensures Partition(Accept(l, i, fd))
  {
    var r := Accept(l, i, fd);
    assert forall j :: 0 <= j < |l.places| ==> l.places[j] <= r.places[j];
    assert Sock(fd, l.serial) in r.places[i];
    forall d | d in r.open
      ensures Placed(r, r.open[d])
    {
      if d != fd {
        var j :| 0 <= j < |l.places| && l.open[d] in l.places[j];
        assert r.open[d] in r.places[j];
      }
    }
  }

  function Move(l: Ledger, i: nat, j: nat, ks: set<Sock>): Ledger
    requires i < |l.places| && j < |l.places| && i != j
  {
    l.(places := l.places[i := l.places[i] - ks][j := l.places[j] + ks])
  }

  lemma MoveKeeps(l: Ledger, i: nat, j: nat, ks: set<Sock>)
    requires Partition(l) && i < |l.places| && j < |l.places| && i != j && ks <= l.places[i]
    ensures Partition(Move(l, i, j, ks))
  {
    var r := Move(l, i, j, ks);
    assert forall m :: 0 <= m < |l.places| && m != i && m != j ==> r.places[m] == l.places[m];
    forall d | d in r.open
      ensures Placed(r, r.open[d])
    {
      var m :| 0 <= m < |l.places| && l.open[d] in l.places[m];
      if l.open[d] in ks {
        assert r.open[d] in r.places[j];
      } else {
        assert r.open[d] in r.places[m];
      }
    }
  }

  /** close: the place answers for the socket it closes, and nobody else does. */
  function Close(l: Ledger, i: nat, k: Sock): Ledger
    requires i < |l.places|
  {
    Ledger(l.open - {k.fd}, l.serial, l.places[i := l.places[i] - {k}])
  }

  lemma CloseKeeps(l: Ledger, i: nat, k: Sock)
    requires Partition(l) && i < |l.places| && k in l.places[i]
    ensures k.fd in l.open && l.open[k.fd] == k
    ensures Partition(Close(l, i, k))
  {
    var r := Close(l, i, k);
    assert forall m :: 0 <= m < |l.places| && m != i ==> r.places[m] == l.places[m] && k !in l.places[m];
    forall d | d in r.open
      ensures Placed(r, r.open[d])
    {
      var m :| 0 <= m < |l.places| && l.open[d] in l.places[m];
      assert r.open[d] in r.places[m];
    }
  }

  // ---- tables as places --------------------------------------------------------

  /** A connection table is keyed by the descriptor of the socket it maps to. */
  predicate Keyed(table: map<Fd, Sock>) {
    forall fd :: fd in table ==> table[fd].fd == fd
  }

  lemma TableInsert(table: map<Fd, Sock>, k: Sock)
    requires Keyed(table) && k.fd !in table
    ensures Keyed(table[k.fd := k])
    ensures table[k.fd := k].Values == table.Values + {k}
    ensures |table[k.fd := k]| == |table| + 1
  {
    var r := table[k.fd := k];
    assert forall fd :: fd in table ==> r[fd] == table[fd];
    forall j | j in table.Values + {k} ensures j in r.Values {
      if j != k {
        var fd :| fd in table && table[fd] == j;
        assert r[fd] == j;
      } else {
        assert r[k.fd] == k;
      }
    }
  }

  lemma TableErase(table: map<Fd, Sock>, fd: Fd)
    requires Keyed(table) && fd in table
    ensures Keyed(table - {fd})
    ensures (table - {fd}).Values == table.Values - {table[fd]}
    ensures |table - {fd}| == |table| - 1
  {
    var r := table - {fd};
    forall j | j in table.Values - {table[fd]} ensures j in r.Values {
      var d :| d in table && table[d] == j;
      assert r[d] == j;
    }
    assert table == r[fd := table[fd]];
  }

  /** As many sockets as keys. */
  lemma {:induction false} TableSize(table: map<Fd, Sock>)
    requires Keyed(table)
    ensures |table.Values| == |table|
    decreases |table|
  {
    if |table| == 0 {
      assert table == map[];
    } else {
      var fd :| fd in table;
      TableErase(table, fd);
      TableSize(table - {fd});
      assert table[fd] in table.Values;
    }
  }

  // ---- over whole runs -----------------------------------------------------------

  predicate IsOpen(open: map<Fd, Sock>, k: Sock) { k.fd in open && open[k.fd] == k }

  /** What the kernel makes of a close(): the socket open under that number, or EBADF. */
  datatype Hit = Closed(sock: Sock) | BadDescriptor

  function HitBy(open: map<Fd, Sock>, fd: Fd): Hit { if fd in open then Closed(open[fd]) else BadDescriptor }

  /** No close has missed or hit a socket twice, and the sockets accepted are exactly those
      closed and those still open, which are different ones. */
  ghost predicate Conserved(open: map<Fd, Sock>, serial: nat, accepts: seq<Sock>, hits: seq<Hit>) {
    && Distinct(accepts) && Distinct(hits)
    && BadDescriptor !in hits
    && (forall k :: k in accepts ==> k.serial < serial)
    && (forall k :: k in accepts <==> Closed(k) in hits || IsOpen(open, k))
    && (forall k :: Closed(k) in hits ==> !IsOpen(open, k))
  }

  lemma AcceptConserves(open: map<Fd, Sock>, serial: nat, fd: Fd, accepts: seq<Sock>, hits: seq<Hit>)
    requires Conserved(open, serial, accepts, hits) && fd !in open
    ensures var k := Sock(fd, serial); Conserved(open[fd := k], serial + 1, accepts + [k], hits)
  {
    var k, after := Sock(fd, serial), open[fd := Sock(fd, serial)];
    assert k !in accepts;
    assert forall j :: IsOpen(after, j) <==> IsOpen(open, j) || j == k;
  }

  lemma CloseConserves(open: map<Fd, Sock>, serial: nat, k: Sock, accepts: seq<Sock>, hits: seq<Hit>)
    requires Conserved(open, serial, accepts, hits) && IsOpen(open, k)
    ensures HitBy(open, k.fd) == Closed(k) && Conserved(open - {k.fd}, serial, accepts, hits + [Closed(k)])
  {
    assert Closed(k) !in hits;
    assert forall j :: IsOpen(open - {k.fd}, j) <==> IsOpen(open, j) && j.fd != k.fd;
    assert forall j :: IsOpen(open, j) && j.fd == k.fd ==> j == k;
  }

  lemma NothingConserved(serial: nat)
    ensures Conserved(map[], serial, [], [])
  {
  }
}
