/** The thread-pool event loop as interleaved atomic steps, split at lock boundaries and
    system calls (src/pool_loop.cpp:67-254). */
module PoolLoop {
  import opened Sequences
  import opened ConnectionHandling
  import opened ConnectionRuns
  import opened Kernel

  datatype Arm = Disarmed | Armed(w: Wait)

  /** Where a thread stands. Thread 0 accepts, polls and sweeps; the others are workers. */
  datatype Pc =
    | Idle
    | Accepted(sock: Sock)                // accept returned, not yet in the table
    | Inserted(sock: Sock)                // in the table, connectionOpened pending
    | Counted(sock: Sock)                 // EPOLL_CTL_ADD pending
    | Popped(ev: Event)                   // taken from the work queue
    | Handling(ev: Event, sock: Sock)     // found in the table, marked busy
    | Decided(sock: Sock, action: Action) // the handler has returned
    | Rearming(fd: Fd, w: Wait)           // no longer busy, EPOLL_CTL_MOD pending
    | Closing(fd: Fd)                     // a worker about to lock in closeConnection
    | Sweeping(fd: Fd)                    // the sweep about to lock in closeConnection
    | Erased(sock: Sock)                  // out of the table, EPOLL_CTL_DEL pending
    | Deleted(sock: Sock)                 // close pending
    | Unrecorded                          // connectionClosed pending

  datatype StopPc = Running | Exchanged | Draining

  datatype Pool = Pool(
    open: map<Fd, Sock>,                  // kernel: open client descriptors
    serial: nat,                          // kernel: sockets accepted so far
    epoll: map<Fd, Arm>,                  // kernel: registrations, one-shot
    table: map<Fd, Sock>,                 // connections
    busy: set<Sock>,
    batch: seq<Event>,                    // events of the current epoll_wait not yet handed over
    expired: seq<Fd>,                     // left to close in the current sweep
    queue: seq<Event>,                    // workQueue
    pcs: seq<Pc>,
    stop: StopPc,
    stopList: seq<Sock>,                  // taken out of the table by stop(), not yet closed
    stopUnrecorded: bool,
    active: int,                          // metrics.activeConnections
    history: map<Sock, seq<Call>>)        // handler calls made on each connection

  function Start(workers: nat): Pool {
    Pool(map[], 0, map[], map[], {}, [], [], [], seq(workers + 1, i => Idle),
         Running, [], false, 0, map[])
  }

  datatype Act =
    | Report(ev: Event) | Enqueue
    | Accept(fd: Fd) | Insert | Count | Add(ok: bool)
    | Sweep(fds: seq<Fd>) | SweepNext
    | Pop(t: nat) | Lookup(t: nat) | Handle(t: nat, call: Call) | Release(t: nat) | Rearm(t: nat, ok: bool)
    | Erase(t: nat) | Delete(t: nat) | CloseFd(t: nat) | Record(t: nat)
    | Stop | StopClear(order: seq<Sock>) | StopClose | StopRecord

  predicate Thread(s: Pool, t: nat) { t < |s.pcs| }
  predicate Worker(s: Pool, t: nat) { 0 < t < |s.pcs| }
  predicate Poller(s: Pool, pc: Pc) { |s.pcs| > 0 && s.pcs[0] == pc }

  ghost predicate Enabled(s: Pool, a: Act) {
    match a
    case Report(ev) =>
      Poller(s, Idle) && s.expired == [] &&
      ev.fd in s.epoll && s.epoll[ev.fd].Armed? && Reportable(ev, s.epoll[ev.fd].w)
    case Enqueue => Poller(s, Idle) && s.expired == [] && s.batch != []
    case Accept(fd) => Poller(s, Idle) && s.expired == [] && fd !in s.open
    case Insert => |s.pcs| > 0 && s.pcs[0].Accepted?
    case Count => |s.pcs| > 0 && s.pcs[0].Inserted?
    case Add(ok) =>
      |s.pcs| > 0 && s.pcs[0].Counted? &&
      (ok ==> s.pcs[0].sock.fd in s.open && s.open[s.pcs[0].sock.fd] == s.pcs[0].sock)
    case Sweep(fds) =>
      Poller(s, Idle) && s.expired == [] &&
      forall fd :: fd in fds ==> fd in s.table && s.table[fd] !in s.busy
    case SweepNext => Poller(s, Idle) && s.expired != []
    case Pop(t) => Worker(s, t) && s.pcs[t] == Idle && s.queue != []
    case Lookup(t) => Worker(s, t) && s.pcs[t].Popped?
    case Handle(t, call) =>
      Worker(s, t) && s.pcs[t].Handling? && (Broken(s.pcs[t].ev) || Dispatches(s.pcs[t].ev, call))
    case Release(t) => Worker(s, t) && s.pcs[t].Decided?
    case Rearm(t, ok) => Worker(s, t) && s.pcs[t].Rearming? && (ok ==> s.pcs[t].fd in s.epoll)
    case Erase(t) => Thread(s, t) && (s.pcs[t].Closing? || s.pcs[t].Sweeping?)
    case Delete(t) => Thread(s, t) && s.pcs[t].Erased?
    case CloseFd(t) => Thread(s, t) && s.pcs[t].Deleted?
    case Record(t) => Thread(s, t) && s.pcs[t].Unrecorded?
    case Stop => s.stop == Running
    case StopClear(order) =>
      s.stop == Exchanged && Distinct(order) && forall k :: k in order <==> k in s.table.Values
    case StopClose => s.stop == Draining && s.stopList != [] && !s.stopUnrecorded
    case StopRecord => s.stopUnrecorded
  }

  function At(s: Pool, t: nat, pc: Pc): Pool
    requires Thread(s, t)
  {
    s.(pcs := s.pcs[t := pc])
  }

  ghost function CallsOn(s: Pool, k: Sock): seq<Call> {
    if k in s.history then s.history[k] else []
  }

  // ---- the effect of each step -------------------------------------------------

  /** epoll_wait reports a descriptor, and one-shot disarms it. */
  function Reported(s: Pool, ev: Event): Pool {
    s.(epoll := s.epoll[ev.fd := Disarmed], batch := s.batch + [ev])
  }

  function Enqueued(s: Pool): Pool
    requires s.batch != []
  {
    s.(batch := s.batch[1..], queue := s.queue + [s.batch[0]])
  }

  function AcceptedAs(s: Pool, k: Sock): Pool
    requires Thread(s, 0)
  {
    At(s, 0, Accepted(k)).(open := s.open[k.fd := k], serial := s.serial + 1)
  }

  ghost function InsertedAs(s: Pool, k: Sock): Pool
    requires Thread(s, 0)
  {
    At(s, 0, Inserted(k)).(table := s.table[k.fd := k], history := s.history[k := []])
  }

  function Added(s: Pool, fd: Fd, ok: bool): Pool
    requires Thread(s, 0)
  {
    At(s, 0, Idle).(epoll := if ok then s.epoll[fd := Armed(In)] else s.epoll)
  }

  function Swept(s: Pool): Pool
    requires Thread(s, 0) && s.expired != []
  {
    At(s, 0, Sweeping(s.expired[0])).(expired := s.expired[1..])
  }

  function PoppedBy(s: Pool, t: nat): Pool
    requires Thread(s, t) && s.queue != []
  {
    At(s, t, Popped(s.queue[0])).(queue := s.queue[1..])
  }

  function LookedUp(s: Pool, t: nat, ev: Event): Pool
    requires Thread(s, t)
  {
    if ev.fd !in s.table then At(s, t, Idle)
    else At(s, t, Handling(ev, s.table[ev.fd])).(busy := s.busy + {s.table[ev.fd]})
  }

  ghost function HandledBy(s: Pool, t: nat, ev: Event, k: Sock, call: Call): Pool
    requires Thread(s, t)
  {
    if Broken(ev) then At(s, t, Decided(k, Close))
    else
      var calls := CallsOn(s, k) + [call];
      At(s, t, Decided(k, ActionOf(calls))).(history := s.history[k := calls])
  }

  function Released(s: Pool, t: nat, k: Sock, action: Action): Pool
    requires Thread(s, t)
  {
    At(s, t, if action == Close then Closing(k.fd) else Rearming(k.fd, WaitFor(action))).(busy := s.busy - {k})
  }

  function Rearmed(s: Pool, t: nat, fd: Fd, w: Wait, ok: bool): Pool
    requires Thread(s, t)
  {
    if ok then At(s, t, Idle).(epoll := s.epoll[fd := Armed(w)]) else At(s, t, Closing(fd))
  }

  function ErasedBy(s: Pool, t: nat, fd: Fd): Pool
    requires Thread(s, t)
  {
    if fd !in s.table then At(s, t, Idle)
    else At(s, t, Erased(s.table[fd])).(table := s.table - {fd})
  }

  function DeletedBy(s: Pool, t: nat, k: Sock): Pool
    requires Thread(s, t)
  {
    At(s, t, Deleted(k)).(epoll := s.epoll - {k.fd})
  }

  function ClosedBy(s: Pool, t: nat, k: Sock): Pool
    requires Thread(s, t)
  {
    At(s, t, Unrecorded).(open := s.open - {k.fd}, epoll := s.epoll - {k.fd})
  }

  function Cleared(s: Pool, order: seq<Sock>): Pool {
    s.(stop := Draining, table := map[], stopList := order)
  }

  function StopClosed(s: Pool): Pool
    requires s.stopList != []
  {
    var fd := s.stopList[0].fd;
    s.(open := s.open - {fd}, epoll := s.epoll - {fd}, stopList := s.stopList[1..], stopUnrecorded := true)
  }

  ghost function Apply(s: Pool, a: Act): Pool
    requires Enabled(s, a)
  {
    match a
    case Report(ev) => Reported(s, ev)
    case Enqueue => Enqueued(s)
    case Accept(fd) => AcceptedAs(s, Sock(fd, s.serial))
    case Insert => InsertedAs(s, s.pcs[0].sock)
    case Count => At(s, 0, Counted(s.pcs[0].sock)).(active := s.active + 1)
    case Add(ok) => Added(s, s.pcs[0].sock.fd, ok)
    case Sweep(fds) => s.(expired := fds)
    case SweepNext => Swept(s)
    case Pop(t) => PoppedBy(s, t)
    case Lookup(t) => LookedUp(s, t, s.pcs[t].ev)
    case Handle(t, call) => HandledBy(s, t, s.pcs[t].ev, s.pcs[t].sock, call)
    case Release(t) => Released(s, t, s.pcs[t].sock, s.pcs[t].action)
    case Rearm(t, ok) => Rearmed(s, t, s.pcs[t].fd, s.pcs[t].w, ok)
    case Erase(t) => ErasedBy(s, t, s.pcs[t].fd)
    case Delete(t) => DeletedBy(s, t, s.pcs[t].sock)
    case CloseFd(t) => ClosedBy(s, t, s.pcs[t].sock)
    case Record(t) => At(s, t, Idle).(active := s.active - 1)
    case Stop => s.(stop := Exchanged)
    case StopClear(order) => Cleared(s, order)
    case StopClose => StopClosed(s)
    case StopRecord => s.(stopUnrecorded := false, active := s.active - 1)
  }

  /** The pool after the given steps; a step that is not enabled is not taken, so these are
      exactly the states reached by the interleavings of `workers` workers with the polling
      thread and stop(). */
  ghost function After(workers: nat, acts: seq<Act>): Pool {
    if |acts| == 0 then Start(workers)
    else
      var s, a := After(workers, acts[..|acts| - 1]), acts[|acts| - 1];
      if Enabled(s, a) then Apply(s, a) else s
  }
}
