/** The little of the kernel that both event loops rely on: a descriptor space and epoll. */
module Kernel {
  import opened ConnectionHandling
  import opened ConnectionRuns

  type Fd = nat

  /** An accepted socket. The descriptor number may be used again; the serial is not. */
  datatype Sock = Sock(fd: Fd, serial: nat)

  /** What a descriptor is registered for. */
  datatype Wait = In | Out

  datatype Event = Event(fd: Fd, input: bool, output: bool, hup: bool, err: bool)

  /** epoll reports only what was asked for, plus hang-ups and errors, and never nothing. */
  predicate Reportable(ev: Event, w: Wait) {
    && (ev.input ==> w == In)
    && (ev.output ==> w == Out)
    && (ev.input || ev.output || ev.hup || ev.err)
  }

  predicate Broken(ev: Event) { ev.hup || ev.err }

  /** What an action other than Close registers the descriptor for. */
  function WaitFor(a: Action): Wait { if a == WaitWrite then Out else In }

  /** Which handler the loops call for an event that is not a hang-up or an error. */
  ghost predicate Dispatches(ev: Event, call: Call) {
    if ev.output then call.Writable? else call.Readable?
  }

  ghost function ActionOf(calls: seq<Call>): Action { Run(calls).action }

  /** An event in flight for a connection reports what its last action asked for. */
  ghost predicate Fits(ev: Event, calls: seq<Call>) {
    ActionOf(calls) != Close && Reportable(ev, WaitFor(ActionOf(calls)))
  }

  /** So the call it dispatches to is the one that was asked for. */
  lemma FittingCallIsLegal(ev: Event, calls: seq<Call>, call: Call)
    requires Legal(calls) && Fits(ev, calls) && !Broken(ev) && Dispatches(ev, call)
    ensures Legal(calls + [call])
  {
    var all := calls + [call];
    assert all[..|all| - 1] == calls;
  }
}
