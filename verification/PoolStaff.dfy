/** Who the threads of the pool are (src/pool_loop.cpp:67-145, 197-226). */
module PoolStaff {
  import opened ConnectionHandling
  import opened ConnectionRuns
  import opened Kernel
  import Ledger
  import opened PoolLoop
  import opened PoolAccounting

  /** Where a worker can stand. */
  predicate WorkersPc(pc: Pc) { !pc.Accepted? && !pc.Inserted? && !pc.Counted? && !pc.Sweeping? }

  /** The threads are there, workers do a worker's work, and on sockets accepted so far. */
  ghost predicate Staffed(s: Pool, workers: nat) {
    && |s.pcs| == workers + 1
    && (forall t :: 0 < t < |s.pcs| ==> WorkersPc(s.pcs[t]))
    && (forall t :: 0 <= t < |s.pcs| && s.pcs[t].Handling? ==> s.pcs[t].sock.serial < s.serial)
  }

  lemma PollerStaffs(s: Pool, a: Act, workers: nat)
    requires Staffed(s, workers) && Enabled(s, a)
    requires a.Report? || a.Enqueue? || a.Accept? || a.Insert? || a.Count? || a.Add? || a.Sweep? || a.SweepNext?
    ensures Staffed(Apply(s, a), workers)
  {
    hide Reportable;
  }

  lemma PopStaffs(s: Pool, workers: nat, t: nat)
    requires Staffed(s, workers) && Thread(s, t) && s.queue != []
    ensures Staffed(PoppedBy(s, t), workers)
  {
  }

  lemma LookupStaffs(s: Pool, workers: nat, t: nat, ev: Event)
    requires Staffed(s, workers) && Thread(s, t) && Ledger.Partition(Books(s))
    ensures Staffed(LookedUp(s, t, ev), workers)
  {
    hide Ledger.Partition;
    if ev.fd in s.table {
      TableIsOld(s, ev.fd);
    }
  }

  lemma TableIsOld(s: Pool, fd: Fd)
    requires Ledger.Partition(Books(s)) && fd in s.table
    ensures s.table[fd].serial < s.serial
  {
    assert s.table[fd] in Books(s).places[0];
  }

  lemma HandlerStaffs(s: Pool, workers: nat, t: nat, ev: Event, k: Sock, call: Call)
    requires Staffed(s, workers) && Thread(s, t)
    ensures Staffed(HandledBy(s, t, ev, k, call), workers)
  {
    hide ActionOf;
  }

  lemma ReleaseStaffs(s: Pool, workers: nat, t: nat, k: Sock, action: Action)
    requires Staffed(s, workers) && Thread(s, t)
    ensures Staffed(Released(s, t, k, action), workers)
  {
  }

  lemma RearmStaffs(s: Pool, workers: nat, t: nat, fd: Fd, w: Wait, ok: bool)
    requires Staffed(s, workers) && Thread(s, t)
    ensures Staffed(Rearmed(s, t, fd, w, ok), workers)
  {
  }

  lemma EraseStaffs(s: Pool, workers: nat, t: nat, fd: Fd)
    requires Staffed(s, workers) && Thread(s, t)
    ensures Staffed(ErasedBy(s, t, fd), workers)
    ensures Staffed(At(s, t, Idle).(active := s.active - 1), workers)
  {
  }

  lemma CloserStaffs(s: Pool, a: Act, workers: nat)
    requires Staffed(s, workers) && Enabled(s, a) && (a.Delete? || a.CloseFd?)
    ensures Staffed(Apply(s, a), workers)
  {
  }

  lemma StepStaffs(s: Pool, a: Act, workers: nat)
    requires Accounts(s) && Staffed(s, workers) && Enabled(s, a)
    ensures Staffed(Apply(s, a), workers)
  {
    hide Reported, AcceptedAs, InsertedAs, Added, Swept, PoppedBy, LookedUp, HandledBy, Released, Rearmed;
    hide ErasedBy, DeletedBy, ClosedBy, Staffed, Ledger.Partition, Balanced;
    match a
    case Pop(t) => PopStaffs(s, workers, t);
    case Lookup(t) => LookupStaffs(s, workers, t, s.pcs[t].ev);
    case Handle(t, call) => HandlerStaffs(s, workers, t, s.pcs[t].ev, s.pcs[t].sock, call);
    case Release(t) => ReleaseStaffs(s, workers, t, s.pcs[t].sock, s.pcs[t].action);
    case Rearm(t, ok) => RearmStaffs(s, workers, t, s.pcs[t].fd, s.pcs[t].w, ok);
    case Erase(t) => EraseStaffs(s, workers, t, s.pcs[t].fd);
    case Record(t) => EraseStaffs(s, workers, t, 0);
    case Delete(_) => CloserStaffs(s, a, workers);
    case CloseFd(_) => CloserStaffs(s, a, workers);
    case Stop => StopStaffs(s, a, workers);
    case StopClear(_) => StopStaffs(s, a, workers);
    case StopClose => StopStaffs(s, a, workers);
    case StopRecord => StopStaffs(s, a, workers);
    case _ => PollerStaffs(s, a, workers);
  }

  lemma StopStaffs(s: Pool, a: Act, workers: nat)
    requires Staffed(s, workers) && Enabled(s, a)
    requires a.Stop? || a.StopClear? || a.StopClose? || a.StopRecord?
    ensures Staffed(Apply(s, a), workers)
  {
    hide Enabled;
  }

  lemma {:induction false} AlwaysStaffed(workers: nat, acts: seq<Act>)
    ensures Staffed(After(workers, acts), workers)
    decreases |acts|
  {
    hide Enabled, Apply, Accounts;
    if |acts| > 0 {
      var front := acts[..|acts| - 1];
      AlwaysStaffed(workers, front);
      DescriptorAccounting(workers, front);
      var s, a := After(workers, front), acts[|acts| - 1];
      if Enabled(s, a) {
        StepStaffs(s, a, workers);
      }
    }
  }
}
