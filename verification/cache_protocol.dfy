/** The cache of one query shape as a transition system over any number of
    concurrent requests: queue on the slot lock, stamp the requested keys, then
    replay the cached listing or fetch a new one, or be cancelled.

    Every action carries the reading of the clock at which it happens. The part of
    the state after `recent` is history: nothing the cache decides depends on it. */
module CacheProtocol {
  import opened Wrappers
  import opened JobKeys
  import opened Dispatch
  import opened QueryShapes

  type Time = nat
  type TaskId = nat

  /** `inner(t, argv, out)` says that the wrapped dispatcher may answer `argv` with
      `out` when it is asked about the state of the world at time `t`. */
  datatype Env = Env(shape: Shape, ttl: nat, inner: (Time, Argv, Capture) -> bool)

  datatype Entry = Entry(at: Time, keys: set<JobKey>, result: Capture)

  datatype Phase =
    | Waiting(keys: seq<JobKey>)
    | Holding(keys: seq<JobKey>)
    | Fetching(keys: seq<JobKey>, query: Query)
    | Answered(keys: seq<JobKey>, answer: Capture, source: int, at: Time)
    | Cancelled(keys: seq<JobKey>)

  /** One live query: the batch it asks for, when the entry was checked, when the
      registry had been pruned, and how many requests had been stamped by then. */
  datatype Query = Query(batch: seq<JobKey>, checkedAt: Time, prunedAt: Time, seen: nat)

  /** A completed live query. `asOf` is the moment the answer speaks about. */
  datatype Fetch = Fetch(task: TaskId, keys: seq<JobKey>, query: Query, asOf: Time, at: Time, result: Capture)

  datatype Stamp = Stamp(keys: seq<JobKey>, at: Time)

  datatype State = State(
    clock: Time,
    queue: seq<TaskId>,
    holder: Option<TaskId>,
    tasks: map<TaskId, Phase>,
    entry: Option<Entry>,
    recent: map<JobKey, Time>,
    stamps: seq<Stamp>,
    fetches: seq<Fetch>)

  const Init := State(0, [], None, map[], None, map[], [], [])

  datatype Action =
    | Arrive(task: TaskId, keys: seq<JobKey>, at: Time)
    | Acquire(at: Time)
    | Hit(at: Time)
    | Start(checkedAt: Time, readAt: map<JobKey, Time>, kept: seq<JobKey>, at: Time)
    | Complete(asOf: Time, result: Capture, at: Time)
    | CancelWaiting(task: TaskId, at: Time)
    | CancelFetch(at: Time)

  // ---------------------------------------------------------------- the steps

  /** The replay rule: young enough, and every requested key was asked about. */
  predicate Replayable(ttl: nat, entry: Option<Entry>, keys: seq<JobKey>, now: Time) {
    && entry.Some?
    && now < entry.value.at + ttl
    && Elements(keys) <= entry.value.keys
  }

  function StampAll(recent: map<JobKey, Time>, keys: seq<JobKey>, now: Time): map<JobKey, Time> {
    map k | k in recent.Keys + Elements(keys) :: if k in keys then now else recent[k]
  }

  /** The registry after pruning, each key judged at its own clock reading. */
  function Prune(ttl: nat, recent: map<JobKey, Time>, readAt: map<JobKey, Time>): map<JobKey, Time>
    requires readAt.Keys == recent.Keys
  {
    map k | k in recent && readAt[k] < recent[k] + 2 * ttl :: recent[k]
  }

  predicate HolderIn(s: State, fetching: bool) {
    && s.holder.Some?
    && s.holder.value in s.tasks
    && if fetching then s.tasks[s.holder.value].Fetching? else s.tasks[s.holder.value].Holding?
  }

  predicate Enabled(env: Env, s: State, a: Action) {
    && s.clock <= a.at
    && match a
       case Arrive(task, _, _) => task !in s.tasks
       case Acquire(_) => s.holder.None? && s.queue != [] && s.queue[0] in s.tasks
       case Hit(at) =>
         HolderIn(s, false) && Replayable(env.ttl, s.entry, s.tasks[s.holder.value].keys, at)
       case Start(checkedAt, readAt, kept, at) =>
         && HolderIn(s, false)
         && s.clock <= checkedAt <= at
         && !Replayable(env.ttl, s.entry, s.tasks[s.holder.value].keys, checkedAt)
         && readAt.Keys == s.recent.Keys
         && (forall k :: k in readAt ==> checkedAt <= readAt[k] <= at)
         && Elements(kept) == Prune(env.ttl, s.recent, readAt).Keys
       case Complete(asOf, result, at) =>
         && HolderIn(s, true)
         && s.tasks[s.holder.value].query.prunedAt <= asOf <= at
         && env.inner(asOf, Build(env.shape, s.tasks[s.holder.value].query.batch), result)
       case CancelWaiting(task, _) => task in s.tasks && s.tasks[task].Waiting?
       case CancelFetch(_) => HolderIn(s, true)
  }

  function Remove(queue: seq<TaskId>, task: TaskId): seq<TaskId> {
    if queue == [] then []
    else if queue[0] == task then Remove(queue[1..], task)
    else [queue[0]] + Remove(queue[1..], task)
  }

  function Apply(env: Env, s: State, a: Action): State
    requires Enabled(env, s, a)
  {
    match a
    case Arrive(task, keys, at) =>
      s.(clock := at, queue := s.queue + [task], tasks := s.tasks[task := Waiting(keys)])
    case Acquire(at) =>
      var keys := s.tasks[s.queue[0]].keys;
      s.(clock := at, queue := s.queue[1..], holder := Some(s.queue[0]),
         tasks := s.tasks[s.queue[0] := Holding(keys)],
         recent := StampAll(s.recent, keys, at),
         stamps := s.stamps + [Stamp(keys, at)])
    case Hit(at) =>
      var keys := s.tasks[s.holder.value].keys;
      s.(clock := at, holder := None,
         tasks := s.tasks[s.holder.value := Answered(keys, Replay(env.shape, s.entry.value.result), |s.fetches| - 1, at)])
    case Start(checkedAt, readAt, kept, at) =>
      var keys := s.tasks[s.holder.value].keys;
      var query := Query(BatchOf(kept, keys), checkedAt, at, |s.stamps|);
      s.(clock := at,
         tasks := s.tasks[s.holder.value := Fetching(keys, query)],
         recent := Prune(env.ttl, s.recent, readAt))
    case Complete(asOf, result, at) =>
      var p := s.tasks[s.holder.value];
      s.(clock := at, holder := None,
         tasks := s.tasks[s.holder.value := Answered(p.keys, result, |s.fetches|, at)],
         entry := Some(Entry(at, Elements(p.query.batch), result)),
         fetches := s.fetches + [Fetch(s.holder.value, p.keys, p.query, asOf, at, result)])
    case CancelWaiting(task, at) =>
      s.(clock := at, queue := Remove(s.queue, task), tasks := s.tasks[task := Cancelled(s.tasks[task].keys)])
    case CancelFetch(at) =>
      s.(clock := at, holder := None,
         tasks := s.tasks[s.holder.value := Cancelled(s.tasks[s.holder.value].keys)])
  }

  /** The states that `actions` lead to, one after the other, from `s`. */
  predicate Run(env: Env, s: State, actions: seq<Action>, end: State)
    decreases |actions|
  {
    if actions == [] then s == end
    else Enabled(env, s, actions[0]) && Run(env, Apply(env, s, actions[0]), actions[1..], end)
  }

  ghost predicate Reaches(env: Env, s: State, end: State) {
    exists actions :: Run(env, s, actions, end)
  }

  ghost predicate Reachable(env: Env, s: State) {
    Reaches(env, Init, s)
  }

  // ---------------------------------------------------------------- the invariant

  /** Some request for `k` was stamped less than `window` before `now`. */
  predicate StampedWithin(stamps: seq<Stamp>, k: JobKey, now: Time, window: nat) {
    exists i :: 0 <= i < |stamps| && k in stamps[i].keys && now < stamps[i].at + window
  }

  /** The batch of a live query is strictly sorted and holds the requested keys and
      the keys stamped less than 2 x ttl ago: all that were at the end of pruning,
      and no key that was not at its start. */
  ghost predicate ExactBatch(env: Env, stamps: seq<Stamp>, keys: seq<JobKey>, q: Query) {
    && q.checkedAt <= q.prunedAt
    && q.seen <= |stamps|
    && (forall i :: 0 <= i < q.seen ==> stamps[i].at <= q.checkedAt)
    && StrictlySorted(q.batch)
    && Elements(keys) <= Elements(q.batch)
    && (forall k :: StampedWithin(stamps[..q.seen], k, q.prunedAt, 2 * env.ttl) ==> k in q.batch)
    && (forall k :: k in q.batch ==> k in keys || StampedWithin(stamps[..q.seen], k, q.checkedAt, 2 * env.ttl))
  }

  /** The last request stamped before a query is its own, and later ones are stamped
      after its pruning. */
  predicate InOrder(stamps: seq<Stamp>, keys: seq<JobKey>, q: Query) {
    && 0 < q.seen <= |stamps|
    && stamps[q.seen - 1].keys == keys
    && forall i :: q.seen <= i < |stamps| ==> q.prunedAt <= stamps[i].at
  }

  /** A live query was started only because the previous completed one was too old
      or had not asked about one of the requested keys. */
  predicate Justified(env: Env, previous: Fetch, keys: seq<JobKey>, q: Query) {
    && previous.at <= q.checkedAt
    && previous.query.seen <= q.seen
    && (previous.at + env.ttl <= q.checkedAt || !(Elements(keys) <= Elements(previous.query.batch)))
  }

  ghost predicate LockInv(s: State) {
    && (forall i, j :: 0 <= i < j < |s.queue| ==> s.queue[i] != s.queue[j])
    && (forall t :: t in s.queue <==> t in s.tasks && s.tasks[t].Waiting?)
    && (forall t :: t in s.tasks && (s.tasks[t].Holding? || s.tasks[t].Fetching?) <==> s.holder == Some(t))
  }

  /** Every registered key was stamped at the moment it is registered with, and every
      stamped key is registered, with no earlier moment, until 2 x ttl after. */
  ghost predicate Registry(ttl: nat, stamps: seq<Stamp>, recent: map<JobKey, Time>, clock: Time) {
    && (forall i :: 0 <= i < |stamps| ==> stamps[i].at <= clock)
    && (forall k :: k in recent ==> exists i :: 0 <= i < |stamps| && k in stamps[i].keys && stamps[i].at == recent[k])
    && (forall i, k :: 0 <= i < |stamps| && k in stamps[i].keys ==>
          (k in recent && stamps[i].at <= recent[k]) || stamps[i].at + 2 * ttl <= clock)
  }

  ghost predicate RegistryInv(env: Env, s: State) {
    Registry(env.ttl, s.stamps, s.recent, s.clock)
  }

  predicate EntryInv(s: State) {
    s.entry ==
      if s.fetches == [] then None
      else
        var last := s.fetches[|s.fetches| - 1];
        Some(Entry(last.at, Elements(last.query.batch), last.result))
  }

  ghost predicate FetchInv(env: Env, s: State, i: nat)
    requires i < |s.fetches|
  {
    var f := s.fetches[i];
    && f.query.prunedAt <= f.asOf <= f.at <= s.clock
    && ExactBatch(env, s.stamps, f.keys, f.query)
    && InOrder(s.stamps, f.keys, f.query)
    && env.inner(f.asOf, Build(env.shape, f.query.batch), f.result)
    && (i > 0 ==> Justified(env, s.fetches[i - 1], f.keys, f.query))
  }

  ghost predicate PhaseInv(env: Env, s: State, t: TaskId)
    requires t in s.tasks
  {
    match s.tasks[t]
    case Holding(keys) => s.stamps != [] && s.stamps[|s.stamps| - 1].keys == keys
    case Fetching(keys, query) =>
      && query.prunedAt <= s.clock
      && ExactBatch(env, s.stamps, keys, query)
      && InOrder(s.stamps, keys, query)
      && (s.fetches != [] ==> Justified(env, s.fetches[|s.fetches| - 1], keys, query))
    case Answered(keys, answer, source, at) =>
      && 0 <= source < |s.fetches|
      && AnswerFrom(env, t, keys, answer, at, s.fetches[source])
    case _ => true
  }

  /** The answer comes from a live query that asked about every requested key: the
      request's own, or one completed less than ttl before the answer. */
  predicate AnswerFrom(env: Env, t: TaskId, keys: seq<JobKey>, answer: Capture, at: Time, f: Fetch) {
    && Elements(keys) <= Elements(f.query.batch)
    && (|| (f.task == t && answer == f.result && at == f.at)
        || (f.at <= at < f.at + env.ttl && answer == Replay(env.shape, f.result)))
  }

  ghost predicate Inv(env: Env, s: State) {
    && LockInv(s)
    && RegistryInv(env, s)
    && EntryInv(s)
    && (forall i :: 0 <= i < |s.fetches| ==> FetchInv(env, s, i))
    && (forall t :: t in s.tasks ==> PhaseInv(env, s, t))
  }

  // ---------------------------------------------------------------- preservation

  lemma {:induction false} RemoveKeeps(queue: seq<TaskId>, task: TaskId)
    requires forall i, j :: 0 <= i < j < |queue| ==> queue[i] != queue[j]
    ensures var r := Remove(queue, task);
            && (forall t :: t in r <==> t in queue && t != task)
            && (forall i, j :: 0 <= i < j < |r| ==> r[i] != r[j])
            && |r| == if task in queue then |queue| - 1 else |queue|
  {
    if queue != [] {
      RemoveKeeps(queue[1..], task);
      assert queue == [queue[0]] + queue[1..];
      var rest := Remove(queue[1..], task);
      forall i | 0 <= i < |rest|
        ensures rest[i] != queue[0]
      {
        assert rest[i] in queue[1..];
      }
    }
  }

  lemma CancellingKeepsLock(env: Env, s: State, task: TaskId, at: Time)
    requires LockInv(s) && Enabled(env, s, CancelWaiting(task, at))
    ensures LockInv(Apply(env, s, CancelWaiting(task, at)))
  {
    RemoveKeeps(s.queue, task);
  }

  lemma AcquiringKeepsLock(env: Env, s: State, at: Time)
    requires LockInv(s) && Enabled(env, s, Acquire(at))
    ensures LockInv(Apply(env, s, Acquire(at)))
  {
    assert s.queue == [s.queue[0]] + s.queue[1..];
  }

  lemma {:induction false} PreservesLock(env: Env, s: State, a: Action)
    requires LockInv(s) && Enabled(env, s, a)
    ensures LockInv(Apply(env, s, a))
  {
    match a {
      case CancelWaiting(task, at) => CancellingKeepsLock(env, s, task, at);
      case Acquire(at) => AcquiringKeepsLock(env, s, at);
      case _ =>
    }
  }

  lemma StampingKeepsRegistry(ttl: nat, stamps: seq<Stamp>, recent: map<JobKey, Time>, clock: Time, keys: seq<JobKey>, now: Time)
    requires Registry(ttl, stamps, recent, clock) && clock <= now
    ensures Registry(ttl, stamps + [Stamp(keys, now)], StampAll(recent, keys, now), now)
  {
    var after := StampAll(recent, keys, now);
    var all := stamps + [Stamp(keys, now)];
    assert all[|stamps|] == Stamp(keys, now);
    forall k | k in after
      ensures exists i :: 0 <= i < |all| && k in all[i].keys && all[i].at == after[k]
    {
      if k !in keys {
        var i :| 0 <= i < |stamps| && k in stamps[i].keys && stamps[i].at == recent[k];
        assert all[i] == stamps[i];
      }
    }
  }

  lemma PruningKeepsRegistry(ttl: nat, stamps: seq<Stamp>, recent: map<JobKey, Time>, clock: Time, readAt: map<JobKey, Time>, now: Time)
    requires Registry(ttl, stamps, recent, clock) && clock <= now
    requires readAt.Keys == recent.Keys && forall k :: k in readAt ==> readAt[k] <= now
    ensures Registry(ttl, stamps, Prune(ttl, recent, readAt), now)
  {
  }

  lemma {:induction false} PreservesRegistry(env: Env, s: State, a: Action)
    requires Inv(env, s) && Enabled(env, s, a)
    ensures RegistryInv(env, Apply(env, s, a))
  {
    match a {
      case Acquire(at) =>
        StampingKeepsRegistry(env.ttl, s.stamps, s.recent, s.clock, s.tasks[s.queue[0]].keys, at);
      case Start(_, readAt, _, at) =>
        PruningKeepsRegistry(env.ttl, s.stamps, s.recent, s.clock, readAt, at);
      case _ =>
    }
  }

  lemma ExactBatchSurvives(env: Env, stamps: seq<Stamp>, more: seq<Stamp>, keys: seq<JobKey>, q: Query)
    requires ExactBatch(env, stamps, keys, q)
    ensures ExactBatch(env, stamps + more, keys, q)
  {
    assert (stamps + more)[..q.seen] == stamps[..q.seen];
  }

  lemma {:induction false} StartIsExact(env: Env, s: State, a: Action)
    requires Inv(env, s) && a.Start? && Enabled(env, s, a)
    ensures var s' := Apply(env, s, a);
            var p := s'.tasks[s.holder.value];
            ExactBatch(env, s.stamps, p.keys, p.query)
  {
    var keys := s.tasks[s.holder.value].keys;
    var window := 2 * env.ttl;
    var kept := Prune(env.ttl, s.recent, a.readAt);
    var batch := BatchOf(a.kept, keys);
    assert forall k :: k in batch <==> k in Elements(batch);
    assert s.stamps[..|s.stamps|] == s.stamps;
    forall k | StampedWithin(s.stamps, k, a.at, window)
      ensures k in batch
    {
      var i :| 0 <= i < |s.stamps| && k in s.stamps[i].keys && a.at < s.stamps[i].at + window;
      assert k in kept;
      assert k in Elements(a.kept);
    }
    forall k | k in batch && k !in keys
      ensures StampedWithin(s.stamps, k, a.checkedAt, window)
    {
      assert k in Elements(a.kept);
      var i :| 0 <= i < |s.stamps| && k in s.stamps[i].keys && s.stamps[i].at == s.recent[k];
    }
  }

  lemma {:induction false} PreservesFetches(env: Env, s: State, a: Action)
    requires Inv(env, s) && Enabled(env, s, a)
    ensures var s' := Apply(env, s, a);
            forall i :: 0 <= i < |s'.fetches| ==> FetchInv(env, s', i)
  {
    var s' := Apply(env, s, a);
    forall i | 0 <= i < |s'.fetches|
      ensures FetchInv(env, s', i)
    {
      if i < |s.fetches| {
        assert FetchInv(env, s, i);
        if a.Acquire? {
          ExactBatchSurvives(env, s.stamps, [Stamp(s.tasks[s.queue[0]].keys, a.at)], s.fetches[i].keys, s.fetches[i].query);
        }
      } else {
        assert PhaseInv(env, s, s.holder.value);
      }
    }
  }

  /** A step of one request leaves what holds of the others. */
  lemma {:induction false} PhaseSurvives(env: Env, s: State, a: Action, t: TaskId)
    requires Inv(env, s) && Enabled(env, s, a)
    requires t in s.tasks && Apply(env, s, a).tasks[t] == s.tasks[t]
    ensures PhaseInv(env, Apply(env, s, a), t)
  {
    assert PhaseInv(env, s, t);
  }

  lemma StartedPhase(env: Env, s: State, a: Action)
    requires Inv(env, s) && Enabled(env, s, a) && a.Start?
    ensures PhaseInv(env, Apply(env, s, a), s.holder.value)
  {
    StartIsExact(env, s, a);
    assert PhaseInv(env, s, s.holder.value);
    if s.fetches != [] {
      assert FetchInv(env, s, |s.fetches| - 1);
    }
  }

  lemma {:induction false} AnsweredPhase(env: Env, s: State, a: Action)
    requires Inv(env, s) && Enabled(env, s, a) && (a.Hit? || a.Complete?)
    ensures PhaseInv(env, Apply(env, s, a), s.holder.value)
  {
    if a.Hit? {
      assert FetchInv(env, s, |s.fetches| - 1);
    } else {
      assert PhaseInv(env, s, s.holder.value);
    }
  }

  lemma {:induction false} PreservesPhases(env: Env, s: State, a: Action)
    requires Inv(env, s) && Enabled(env, s, a)
    ensures var s' := Apply(env, s, a);
            forall t :: t in s'.tasks ==> PhaseInv(env, s', t)
  {
    var s' := Apply(env, s, a);
    forall t | t in s'.tasks
      ensures PhaseInv(env, s', t)
    {
      if t in s.tasks && s'.tasks[t] == s.tasks[t] {
        PhaseSurvives(env, s, a, t);
      } else if a.Start? {
        StartedPhase(env, s, a);
      } else if a.Hit? || a.Complete? {
        AnsweredPhase(env, s, a);
      }
    }
  }

  lemma {:induction false} StepPreserves(env: Env, s: State, a: Action)
    requires Inv(env, s) && Enabled(env, s, a)
    ensures Inv(env, Apply(env, s, a))
  {
    PreservesLock(env, s, a);
    PreservesRegistry(env, s, a);
    PreservesFetches(env, s, a);
    PreservesPhases(env, s, a);
  }

  lemma {:induction false} RunPreserves(env: Env, s: State, actions: seq<Action>, end: State)
    requires Inv(env, s) && Run(env, s, actions, end)
    ensures Inv(env, end)
    decreases |actions|
  {
    if actions != [] {
      StepPreserves(env, s, actions[0]);
      RunPreserves(env, Apply(env, s, actions[0]), actions[1..], end);
    }
  }

  /** Every reachable state satisfies the invariant, whatever the requests, the
      cancellations, the clock readings and the answers of the wrapped dispatcher. */
  lemma ReachableSatisfiesInv(env: Env, s: State)
    requires Reachable(env, s)
    ensures Inv(env, s)
  {
    var actions :| Run(env, Init, actions, s);
    RunPreserves(env, Init, actions, s);
  }
}
