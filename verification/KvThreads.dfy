/** The store under threads (src/api.cpp:159-216): bodies are read and some requests refused
    outside the mutex, the map is touched inside it. Every interleaving is a sequence of whole
    operations, each at one moment between its call and its return. */
module KvThreads {
  import opened Text
  import opened Http
  import opened Sequences
  import FlatJson
  import opened KvStore

  /** Where a thread stands; `since` is how many operations had taken effect at the call, `at`
      how many before its own moment. */
  datatype Pc =
    | Free
    | Asked(op: Op, since: nat)
    | BodyRead(op: Op, since: nat, wanted: Wanted)
    | Answered(reply: Reply)

  datatype Reply = Reply(op: Op, since: nat, at: nat, response: HttpResponse)

  datatype Shop = Shop(entries: Entries, commits: seq<Op>, threads: seq<Pc>, replies: seq<Reply>)

  function Open(threads: nat): Shop { Shop(map[], [], seq(threads, i => Free), []) }

  datatype Act = Ask(t: nat, op: Op) | ReadBody(t: nat) | Refuse(t: nat) | Commit(t: nat) | Return(t: nat)

  /** What is turned down before the mutex is taken. */
  function Early(pc: Pc): Option<HttpResponse> {
    match pc
    case BodyRead(_, _, Malformed) => Some(JsonResponse("{\"error\":\"malformed JSON body\"}", 400))
    case BodyRead(_, _, Wanted(key, value)) =>
      if key == "" then Some(JsonResponse("{\"error\":\"key is required\"}", 400))
      else if |key| > MAX_KEY_LENGTH || |value| > MAX_VALUE_LENGTH then
        Some(JsonResponse("{\"error\":\"key or value too long\"}", 413))
      else None
    case Asked(GetOp(key), _) =>
      if key == "" then Some(JsonResponse("{\"error\":\"missing key parameter\"}", 400)) else None
    case Asked(RemoveOp(key), _) =>
      if key == "" then Some(JsonResponse("{\"error\":\"missing key parameter\"}", 400)) else None
    case _ => None
  }

  /** Ready to do its work, outside the mutex or inside. */
  predicate Prepared(pc: Pc) { pc.BodyRead? || (pc.Asked? && !pc.op.PutOp?) }

  predicate Enabled(s: Shop, a: Act) {
    a.t < |s.threads| &&
    var pc := s.threads[a.t];
    match a
    case Ask(_, _) => pc.Free?
    case ReadBody(_) => pc.Asked? && pc.op.PutOp?
    case Refuse(_) => Prepared(pc) && Early(pc).Some?
    case Commit(_) => Prepared(pc) && Early(pc).None?
    case Return(_) => pc.Answered?
  }

  /** The response made under the mutex, and the map left behind. */
  function Locked(entries: Entries, pc: Pc): (HttpResponse, Entries)
    requires Prepared(pc)
  {
    if pc.BodyRead? then (PutResponse(entries, pc.wanted), AfterPut(entries, pc.wanted))
    else if pc.op.GetOp? then (GetResponse(entries, pc.op.key), entries)
    else (RemoveResponse(entries, pc.op.key), AfterRemove(entries, pc.op.key))
  }

  function Apply(s: Shop, a: Act): Shop
    requires Enabled(s, a)
  {
    var pc := s.threads[a.t];
    match a
    case Ask(t, op) => s.(threads := s.threads[t := Asked(op, |s.commits|)])
    case ReadBody(t) => s.(threads := s.threads[t := BodyRead(pc.op, pc.since, WantedBy(pc.op.request))])
    case Refuse(t) => s.(threads := s.threads[t := Answered(Reply(pc.op, pc.since, |s.commits|, Early(pc).value))])
    case Commit(t) =>
      var (response, entries) := Locked(s.entries, pc);
      Shop(entries, s.commits + [pc.op],
           s.threads[t := Answered(Reply(pc.op, pc.since, |s.commits|, response))], s.replies)
    case Return(t) => s.(threads := s.threads[t := Free], replies := s.replies + [pc.reply])
  }

  function After(threads: nat, acts: seq<Act>): Shop {
    if |acts| == 0 then Open(threads)
    else
      var s, a := After(threads, acts[..|acts| - 1]), acts[|acts| - 1];
      if Enabled(s, a) then Apply(s, a) else s
  }

  // ---- whole operations ------------------------------------------------------------------

  /** The operation gets past the refusals made before the mutex is taken. */
  predicate Locks(op: Op) {
    match op
    case PutOp(request) =>
      var w := WantedBy(request);
      w.Wanted? && 1 <= |w.key| <= MAX_KEY_LENGTH && |w.value| <= MAX_VALUE_LENGTH
    case GetOp(key) => key != ""
    case RemoveOp(key) => key != ""
  }

  /** The reply is that of the whole operation at a moment between its call and now; there it
      is the operation committed, or it never takes the mutex and changes nothing. */
  predicate AtItsMoment(commits: seq<Op>, reply: Reply) {
    && reply.since <= reply.at <= |commits|
    && var entries := StoreAfter(commits[..reply.at]);
       && reply.response == ResponseTo(entries, reply.op)
       && if Locks(reply.op) then reply.at < |commits| && commits[reply.at] == reply.op
          else Effect(entries, reply.op) == entries
  }

  /** A reply, or a thread that has its reply, whose moment is the j-th commit. */
  function Claims(reply: Reply, j: nat): int { if Locks(reply.op) && reply.at == j then 1 else 0 }

  function ClaimedBy(j: nat): Reply -> int { (reply: Reply) => Claims(reply, j) }

  function HeldBy(j: nat): Pc -> int { (pc: Pc) => if pc.Answered? then Claims(pc.reply, j) else 0 }

  function Claimants(s: Shop, j: nat): int { Total(s.threads, HeldBy(j)) + Total(s.replies, ClaimedBy(j)) }

  /** Every commit is claimed by exactly one reply, and nothing else is. */
  ghost predicate ExactlyOnce(s: Shop) {
    forall j: nat :: Claimants(s, j) == if j < |s.commits| then 1 else 0
  }

  predicate PcOk(commits: seq<Op>, pc: Pc) {
    match pc
    case Free => true
    case Asked(_, since) => since <= |commits|
    case BodyRead(op, since, wanted) => since <= |commits| && op.PutOp? && wanted == WantedBy(op.request)
    case Answered(reply) => AtItsMoment(commits, reply)
  }

  predicate Consistent(s: Shop) {
    && s.entries == StoreAfter(s.commits)
    && (forall t :: 0 <= t < |s.threads| ==> PcOk(s.commits, s.threads[t]))
    && (forall i :: 0 <= i < |s.replies| ==> AtItsMoment(s.commits, s.replies[i]))
  }

  lemma StoreCommits(commits: seq<Op>, op: Op)
    ensures StoreAfter(commits + [op]) == Effect(StoreAfter(commits), op)
  {
    assert (commits + [op])[..|commits|] == commits;
  }

  /** A reply keeps its moment when others commit. */
  lemma MomentStays(commits: seq<Op>, op: Op, reply: Reply)
    requires AtItsMoment(commits, reply)
    ensures AtItsMoment(commits + [op], reply)
  {
    hide StoreAfter, ResponseTo, Effect, Locks;
    assert (commits + [op])[..reply.at] == commits[..reply.at];
  }

  /** What is refused early would be refused the same way at any time, and changes nothing. */
  lemma EarlyNeverLocks(commits: seq<Op>, pc: Pc)
    requires PcOk(commits, pc) && Prepared(pc)
    ensures Early(pc).None? <==> Locks(pc.op)
  {
    hide WantedBy;
  }

  lemma EarlyIsWhole(entries: Entries, commits: seq<Op>, pc: Pc)
    requires PcOk(commits, pc) && Prepared(pc) && Early(pc).Some?
    ensures ResponseTo(entries, pc.op) == Early(pc).value && Effect(entries, pc.op) == entries
  {
    hide WantedBy, PairBody;
  }

  lemma LockedIsWhole(entries: Entries, commits: seq<Op>, pc: Pc)
    requires PcOk(commits, pc) && Prepared(pc)
    ensures Locked(entries, pc) == (ResponseTo(entries, pc.op), Effect(entries, pc.op))
  {
    hide WantedBy, PairBody;
  }

  lemma QuietStep(s: Shop, t: nat, r: Shop)
    requires Consistent(s) && t < |s.threads| && |r.threads| == |s.threads|
    requires r.threads == s.threads[t := r.threads[t]] && r.entries == s.entries && r.commits == s.commits
    requires PcOk(s.commits, r.threads[t])
    requires forall i :: 0 <= i < |r.replies| ==> AtItsMoment(s.commits, r.replies[i])
    ensures Consistent(r)
  {
    hide StoreAfter, AtItsMoment, PcOk;
  }

  lemma RefuseStep(s: Shop, t: nat)
    requires Consistent(s) && Enabled(s, Refuse(t))
    ensures Consistent(Apply(s, Refuse(t)))
  {
    hide StoreAfter, ResponseTo, Effect, Early, Locks;
    var pc := s.threads[t];
    EarlyIsWhole(s.entries, s.commits, pc);
    EarlyNeverLocks(s.commits, pc);
    assert s.commits[..|s.commits|] == s.commits;
    QuietStep(s, t, Apply(s, Refuse(t)));
  }

  lemma CommitStep(s: Shop, t: nat)
    requires Consistent(s) && Enabled(s, Commit(t))
    ensures Consistent(Apply(s, Commit(t)))
  {
    hide StoreAfter, ResponseTo, Effect, Early, Locked, Locks, AtItsMoment;
    var pc, r := s.threads[t], Apply(s, Commit(t));
    LockedIsWhole(s.entries, s.commits, pc);
    EarlyNeverLocks(s.commits, pc);
    StoreCommits(s.commits, pc.op);
    OwnMoment(s.commits, pc.op, pc.since);
    forall u | 0 <= u < |r.threads| ensures PcOk(r.commits, r.threads[u]) {
      if u != t {
        assert PcOk(s.commits, s.threads[u]) && r.threads[u] == s.threads[u];
        PcStays(s.commits, pc.op, s.threads[u]);
      }
    }
    forall i | 0 <= i < |r.replies| ensures AtItsMoment(r.commits, r.replies[i]) {
      MomentStays(s.commits, pc.op, s.replies[i]);
    }
  }

  lemma OwnMoment(commits: seq<Op>, op: Op, since: nat)
    requires since <= |commits| && Locks(op)
    ensures AtItsMoment(commits + [op], Reply(op, since, |commits|, ResponseTo(StoreAfter(commits), op)))
  {
    hide StoreAfter, ResponseTo, Effect, Locks;
    assert (commits + [op])[..|commits|] == commits;
  }

  lemma PcStays(commits: seq<Op>, op: Op, pc: Pc)
    requires PcOk(commits, pc)
    ensures PcOk(commits + [op], pc)
  {
    hide AtItsMoment, WantedBy;
    if pc.Answered? {
      MomentStays(commits, op, pc.reply);
    }
  }

  lemma StepConsistent(s: Shop, a: Act)
    requires Consistent(s) && Enabled(s, a)
    ensures Consistent(Apply(s, a))
  {
    hide StoreAfter, AtItsMoment, Early, Locked, WantedBy;
    match a
    case Refuse(t) => RefuseStep(s, t);
    case Commit(t) => CommitStep(s, t);
    case _ =>
      assert PcOk(s.commits, s.threads[a.t]);
      QuietStep(s, a.t, Apply(s, a));
  }

  // ---- one reply for each commit -----------------------------------------------------------

  lemma QuietClaims(s: Shop, t: nat, r: Shop)
    requires ExactlyOnce(s) && t < |s.threads| && |r.threads| == |s.threads|
    requires r.threads == s.threads[t := r.threads[t]] && r.commits == s.commits && r.replies == s.replies
    requires forall j: nat :: HeldBy(j)(r.threads[t]) == HeldBy(j)(s.threads[t])
    ensures ExactlyOnce(r)
  {
    forall j: nat ensures Claimants(r, j) == Claimants(s, j) {
      TotalUpdate(s.threads, t, r.threads[t], HeldBy(j));
    }
  }

  lemma RefuseClaims(s: Shop, t: nat)
    requires Consistent(s) && ExactlyOnce(s) && Enabled(s, Refuse(t))
    ensures ExactlyOnce(Apply(s, Refuse(t)))
  {
    hide Early, Locks, WantedBy, AtItsMoment, ExactlyOnce, StoreAfter;
    EarlyNeverLocks(s.commits, s.threads[t]);
    QuietClaims(s, t, Apply(s, Refuse(t)));
  }

  lemma CommitClaims(s: Shop, t: nat)
    requires Consistent(s) && ExactlyOnce(s) && Enabled(s, Commit(t))
    ensures ExactlyOnce(Apply(s, Commit(t)))
  {
    hide Early, Locks, Locked, WantedBy, AtItsMoment, StoreAfter;
    var r := Apply(s, Commit(t));
    EarlyNeverLocks(s.commits, s.threads[t]);
    forall j: nat
      ensures Claimants(r, j) == Claimants(s, j) + if j == |s.commits| then 1 else 0
    {
      TotalUpdate(s.threads, t, r.threads[t], HeldBy(j));
    }
  }

  lemma ReturnClaims(s: Shop, t: nat)
    requires ExactlyOnce(s) && Enabled(s, Return(t))
    ensures ExactlyOnce(Apply(s, Return(t)))
  {
    hide Locks;
    var r := Apply(s, Return(t));
    forall j: nat ensures Claimants(r, j) == Claimants(s, j) {
      TotalUpdate(s.threads, t, Free, HeldBy(j));
      TotalAppend(s.replies, s.threads[t].reply, ClaimedBy(j));
    }
  }

  lemma StepClaims(s: Shop, a: Act)
    requires Consistent(s) && ExactlyOnce(s) && Enabled(s, a)
    ensures ExactlyOnce(Apply(s, a))
  {
    hide Consistent, ExactlyOnce, Early, Locked, WantedBy, Locks;
    match a
    case Refuse(t) => RefuseClaims(s, t);
    case Commit(t) => CommitClaims(s, t);
    case Return(t) => ReturnClaims(s, t);
    case _ => QuietClaims(s, a.t, Apply(s, a));
  }

  lemma {:induction false} NobodyClaims(n: nat, j: nat)
    ensures Total(seq(n, i => Free), HeldBy(j)) == 0
  {
    if n > 0 {
      NobodyClaims(n - 1, j);
      assert seq(n, i => Free)[1..] == seq(n - 1, i => Free);
    }
  }

  /** The store is atomic. In every interleaving of any number of threads the map is what the
      operations committed so far make of it one after another; every reply is that of its
      whole operation at one moment between its call and its return; and every commit is the
      moment of exactly one reply, given or about to be. */
  lemma {:induction false} StoreIsAtomic(threads: nat, acts: seq<Act>)
    ensures Consistent(After(threads, acts)) && ExactlyOnce(After(threads, acts))
    decreases |acts|
  {
    hide Consistent, ExactlyOnce, Apply, Enabled;
    if |acts| == 0 {
      OpenConsistent(threads);
    } else {
      var front := acts[..|acts| - 1];
      StoreIsAtomic(threads, front);
      var s, a := After(threads, front), acts[|acts| - 1];
      if Enabled(s, a) {
        StepConsistent(s, a);
        StepClaims(s, a);
      }
    }
  }

  lemma OpenConsistent(threads: nat)
    ensures Consistent(Open(threads)) && ExactlyOnce(Open(threads))
  {
    forall j: nat ensures Claimants(Open(threads), j) == 0 {
      NobodyClaims(threads, j);
    }
  }

  /** So a get that has returned says what was last put before its moment, and its body parses
      to it exactly when key and value are clean; and the store is bounded at all times. */
  lemma ThreadsSeeLastStored(threads: nat, acts: seq<Act>, i: nat)
    requires i < |After(threads, acts).replies| && After(threads, acts).replies[i].op.GetOp?
    ensures var s := After(threads, acts);
            var reply, key := s.replies[i], s.replies[i].op.key;
            && Bounded(s.entries) && reply.at <= |s.commits|
            && var last := LastStored(s.commits[..reply.at], key);
               && (reply.response.status == 200 <==> last.Some?)
               && (last.Some? ==>
                     (FlatJson.ScanObject(reply.response.body) == Some(map["key" := key, "value" := last.value])
                      <==> FlatJson.Clean(key) && FlatJson.Clean(last.value)))
  {
    hide After, StoreAfter, LastStored, FlatJson.ScanObject, FlatJson.Clean, ExactlyOnce;
    StoreIsAtomic(threads, acts);
    var s := After(threads, acts);
    StoreStaysBounded(s.commits);
    GetReturnsLastStored(s.commits[..s.replies[i].at], s.replies[i].op.key);
  }
}
