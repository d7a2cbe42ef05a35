/** What a worker does with an event, turn by turn, and in which order events are handed over
    (src/pool_loop.cpp:80-121, 131-195). */
module PoolTurns {
  import opened ConnectionHandling
  import opened ConnectionRuns
  import opened Kernel
  import opened PoolLoop

  /** The handler runs on the connection found, but not on a hang-up, and decides. */
  lemma HandleDecides(s: Pool, t: nat, call: Call)
    requires Enabled(s, Handle(t, call))
    ensures var ev, k, r := s.pcs[t].ev, s.pcs[t].sock, Apply(s, Handle(t, call));
            var calls := (if k in s.history then s.history[k] else []) + [call];
            && r.history == (if ev.hup || ev.err then s.history else s.history[k := calls])
            && r.table == s.table && r.epoll == s.epoll && r.busy == s.busy
            && r.pcs == s.pcs[t := Decided(k, if ev.hup || ev.err then Close else Run(calls).action)]
  {
    hide Run, Dispatches, Reportable;
  }

  lemma ReleaseDecides(s: Pool, t: nat, k: Sock, action: Action)
    requires Worker(s, t) && s.pcs[t] == Decided(k, action)
    ensures Enabled(s, Release(t))
    ensures var r := Apply(s, Release(t));
            && r.table == s.table && r.epoll == s.epoll && r.busy == s.busy - {k}
            && r.pcs == s.pcs[t := if action == Close then Closing(k.fd)
                                   else Rearming(k.fd, if action == WaitWrite then Out else In)]
  {
  }

  lemma RearmDecides(s: Pool, t: nat, fd: Fd, w: Wait, ok: bool)
    requires Worker(s, t) && s.pcs[t] == Rearming(fd, w) && (ok ==> fd in s.epoll)
    ensures Enabled(s, Rearm(t, ok))
    ensures var r := Apply(s, Rearm(t, ok));
            && r.table == s.table
            && (ok ==> r.pcs == s.pcs[t := Idle] && r.epoll == s.epoll[fd := Armed(w)])
            && (!ok ==> r.pcs == s.pcs[t := Closing(fd)] && r.epoll == s.epoll)
  {
  }

  /** From the handler to the registration: the worker goes on to close the number if and only
      if the event is a hang-up or an error, the handler asks to close, or the registration
      fails; otherwise the descriptor is armed for output if the handler waits to write and for
      input if it waits to read, and the worker is free. */
  lemma WorkerDecides(s: Pool, t: nat, call: Call, ok: bool)
    requires Enabled(s, Handle(t, call)) && Worker(s, t) && s.pcs[t].Handling?
    requires ok ==> s.pcs[t].sock.fd in s.epoll
    ensures var ev, k := s.pcs[t].ev, s.pcs[t].sock;
            var action := Run((if k in s.history then s.history[k] else []) + [call]).action;
            var closes := ev.hup || ev.err || action == Close;
            var handled := Apply(s, Handle(t, call));
            && Enabled(handled, Release(t))
            && var released := Apply(handled, Release(t));
               && (closes ==> released.pcs == s.pcs[t := Closing(k.fd)] && released.epoll == s.epoll)
               && (!closes ==>
                     && Enabled(released, Rearm(t, ok))
                     && var armed := Apply(released, Rearm(t, ok));
                        if ok then
                          && armed.pcs == s.pcs[t := Idle]
                          && armed.epoll == s.epoll[k.fd := Armed(if action == WaitWrite then Out else In)]
                        else armed.pcs == s.pcs[t := Closing(k.fd)] && armed.epoll == s.epoll)
  {
    hide Run, Enabled, Apply;
    var ev, k := s.pcs[t].ev, s.pcs[t].sock;
    var action := Run((if k in s.history then s.history[k] else []) + [call]).action;
    var decided := if ev.hup || ev.err then Close else action;
    HandleDecides(s, t, call);
    var handled := Apply(s, Handle(t, call));
    ReleaseDecides(handled, t, k, decided);
    if decided != Close {
      RearmDecides(Apply(handled, Release(t)), t, k.fd, if action == WaitWrite then Out else In, ok);
    }
  }

  /** Closing, step by step: what is in the table under the number leaves it, then the epoll set,
      then the kernel's table, then the gauge; if nothing is there, nothing happens. */
  lemma CloserDecides(s: Pool, t: nat, fd: Fd)
    requires Thread(s, t) && (s.pcs[t] == Closing(fd) || s.pcs[t] == Sweeping(fd))
    ensures Enabled(s, Erase(t))
    ensures var erased := Apply(s, Erase(t));
            if fd !in s.table then erased == s.(pcs := s.pcs[t := Idle])
            else
              var k := s.table[fd];
              erased == s.(pcs := s.pcs[t := Erased(k)], table := s.table - {fd})
  {
  }

  lemma DetachDecides(s: Pool, t: nat, k: Sock)
    requires Thread(s, t)
    ensures s.pcs[t] == Erased(k) ==>
              Enabled(s, Delete(t)) &&
              Apply(s, Delete(t)) == s.(pcs := s.pcs[t := Deleted(k)], epoll := s.epoll - {k.fd})
    ensures s.pcs[t] == Deleted(k) ==>
              Enabled(s, CloseFd(t)) &&
              Apply(s, CloseFd(t)) ==
                s.(pcs := s.pcs[t := Unrecorded], open := s.open - {k.fd}, epoll := s.epoll - {k.fd})
    ensures s.pcs[t] == Unrecorded ==>
              Enabled(s, Record(t)) && Apply(s, Record(t)) == s.(pcs := s.pcs[t := Idle], active := s.active - 1)
  {
  }

  // ---- first come, first served ---------------------------------------------------------

  /** The events epoll has reported. */
  ghost function Reports(workers: nat, acts: seq<Act>): seq<Event> {
    if |acts| == 0 then []
    else
      var front, a := acts[..|acts| - 1], acts[|acts| - 1];
      if Enabled(After(workers, front), a) && a.Report? then Reports(workers, front) + [a.ev]
      else Reports(workers, front)
  }

  /** The events workers have taken. */
  ghost function Taken(workers: nat, acts: seq<Act>): seq<Event> {
    if |acts| == 0 then []
    else
      var front, a := acts[..|acts| - 1], acts[|acts| - 1];
      var s := After(workers, front);
      if Enabled(s, a) && a.Pop? && Apply(s, a).pcs[a.t].Popped?
      then Taken(workers, front) + [Apply(s, a).pcs[a.t].ev]
      else Taken(workers, front)
  }

  lemma StepInOrder(s: Pool, a: Act)
    requires Enabled(s, a)
    ensures var r := Apply(s, a);
            && (a.Report? ==> r.queue + r.batch == s.queue + s.batch + [a.ev])
            && (a.Pop? ==> Thread(r, a.t) && r.pcs[a.t].Popped? &&
                           [r.pcs[a.t].ev] + r.queue == s.queue && r.batch == s.batch)
            && (a.Enqueue? ==> r.queue + r.batch == s.queue + s.batch)
            && (!a.Report? && !a.Pop? && !a.Enqueue? ==> r.queue == s.queue && r.batch == s.batch)
  {
    hide Dispatches, Reportable, HandledBy, LookedUp, Released, Rearmed;
    if a.Handle? {
      HandlePasses(s, a.t, s.pcs[a.t].ev, s.pcs[a.t].sock, a.call);
    } else if a.Lookup? {
      LookupPasses(s, a.t, s.pcs[a.t].ev);
    } else if a.Release? {
      ReleasePasses(s, a.t, s.pcs[a.t].sock, s.pcs[a.t].action);
    } else if a.Rearm? {
      RearmPasses(s, a.t, s.pcs[a.t].fd, s.pcs[a.t].w, a.ok);
    } else if a.Erase? || a.Delete? || a.CloseFd? || a.Record? {
      CloserPasses(s, a);
    }
  }

  lemma HandlePasses(s: Pool, t: nat, ev: Event, k: Sock, call: Call)
    requires Thread(s, t)
    ensures HandledBy(s, t, ev, k, call).queue == s.queue && HandledBy(s, t, ev, k, call).batch == s.batch
  {
    hide ActionOf;
  }

  lemma LookupPasses(s: Pool, t: nat, ev: Event)
    requires Thread(s, t)
    ensures LookedUp(s, t, ev).queue == s.queue && LookedUp(s, t, ev).batch == s.batch
  {
  }

  lemma ReleasePasses(s: Pool, t: nat, k: Sock, action: Action)
    requires Thread(s, t)
    ensures Released(s, t, k, action).queue == s.queue && Released(s, t, k, action).batch == s.batch
  {
  }

  lemma RearmPasses(s: Pool, t: nat, fd: Fd, w: Wait, ok: bool)
    requires Thread(s, t)
    ensures Rearmed(s, t, fd, w, ok).queue == s.queue && Rearmed(s, t, fd, w, ok).batch == s.batch
  {
  }

  lemma CloserPasses(s: Pool, a: Act)
    requires Enabled(s, a) && (a.Erase? || a.Delete? || a.CloseFd? || a.Record?)
    ensures Apply(s, a).queue == s.queue && Apply(s, a).batch == s.batch
  {
    hide Reportable, Dispatches;
  }

  /** Events reach the workers in the order epoll reported them, and none is lost or made up. */
  lemma {:induction false} EventsInOrder(workers: nat, acts: seq<Act>)
    ensures Reports(workers, acts) == Taken(workers, acts) + After(workers, acts).queue + After(workers, acts).batch
    decreases |acts|
  {
    hide Apply, Enabled;
    if |acts| > 0 {
      var front, a := acts[..|acts| - 1], acts[|acts| - 1];
      EventsInOrder(workers, front);
      var s := After(workers, front);
      if Enabled(s, a) {
        StepInOrder(s, a);
        var taken, r := Taken(workers, front), Apply(s, a);
        if a.Pop? {
          assert taken + s.queue + s.batch == taken + [r.pcs[a.t].ev] + r.queue + r.batch;
        } else if a.Report? || a.Enqueue? {
          assert taken + s.queue + s.batch == taken + (s.queue + s.batch);
          assert taken + r.queue + r.batch == taken + (r.queue + r.batch);
        }
      }
    }
  }
}
