/** The caching dispatcher itself: one slot, its key registry, and `capture`. Each
    call is a run of the protocol, so what holds of every run holds of the object. */
module QueryCache {
  import opened Wrappers
  import opened JobKeys
  import opened Dispatch
  import opened QueryShapes
  import opened CacheProtocol
  import opened CacheGuarantees

  /** A clock that never runs backwards; how far it moves between two readings is
      arbitrary. */
  class Clock {
    const advance: nat -> nat
    var count: nat
    var now: Time

    constructor (advance: nat -> nat)
      ensures this.advance == advance && now == 0
    {
      this.advance := advance;
      count := 0;
      now := 0;
    }

    method Read() returns (t: Time)
      modifies this
      ensures old(now) <= t == now
    {
      now := now + advance(count);
      count := count + 1;
      t := now;
    }
  }

  /** An answer given between `before` and `now` comes from a query for all the requested
      keys: the caller's own, completed in between, or one that was younger than ttl
      when the caller asked. */
  predicate IsFresh(shape: Shape, ttl: nat, f: Fetch, task: TaskId, keys: seq<JobKey>, out: Dispatch.Capture, before: Time, now: Time) {
    && Elements(keys) <= Elements(f.query.batch)
    && f.at <= now
    && (|| (f.task == task && before <= f.at && out == f.result)
        || (before < f.at + ttl && out == Replay(shape, f.result)))
  }

  lemma AnswerIsFresh(env: Env, s: State, task: TaskId, before: Time, now: Time)
    requires Reachable(env, s) && task in s.tasks && s.tasks[task].Answered?
    requires before <= s.tasks[task].at <= now
    ensures exists f :: f in s.fetches && IsFresh(env.shape, env.ttl, f, task, s.tasks[task].keys, s.tasks[task].answer, before, now)
  {
    var f := EveryAnswerWasAskedFor(env, s, task);
    assert IsFresh(env.shape, env.ttl, f, task, s.tasks[task].keys, s.tasks[task].answer, before, now);
  }

  class QueryCachingDispatcher {
    const shape: Shape
    const ttl: nat
    const inner: Dispatcher
    const clock: Clock
    var entry: Option<Entry>
    var recent: map<JobKey, Time>
    ghost var history: State

    /** Any answer of the inner dispatcher may come at any time. */
    ghost function Environment(): Env {
      Env(shape, ttl, (t: Time, argv: Argv, out: Capture) => exists i: nat :: out == inner.answer(i, argv))
    }

    ghost predicate Valid()
      reads this, clock
    {
      && history.entry == entry
      && history.recent == recent
      && history.clock <= clock.now
      && history.queue == [] && history.holder.None?
      && Reachable(Environment(), history)
    }

    constructor (shape: Shape, ttl: nat, inner: Dispatcher, clock: Clock)
      ensures Valid() && this.shape == shape && this.ttl == ttl && this.inner == inner && this.clock == clock
    {
      this.shape, this.ttl, this.inner, this.clock := shape, ttl, inner, clock;
      entry, recent := None, map[];
      history := Init;
      new;
      assert Run(Environment(), Init, [], history);
    }

    /** A task id that no request has used. */
    ghost function FreshTask(tasks: map<TaskId, Phase>): (t: TaskId)
      ensures t !in tasks
    {
      FreshId(tasks.Keys);
      var t :| t !in tasks.Keys;
      t
    }

    /** Any other argument vector goes to the inner dispatcher as it is. A query of
        the shape is a run of the protocol from the arrival of a new request to its
        answer, which is a replay without a query or the result of one query. */
    method Capture(argv: Argv) returns (out: Dispatch.Capture, ghost task: TaskId)
      requires Valid()
      modifies this`entry, this`recent, this`history, inner`calls, clock
      ensures Valid()
      ensures Parse(shape, argv).None? ==>
                && inner.calls == old(inner.calls) + [argv] && out == inner.answer(|old(inner.calls)|, argv)
                && entry == old(entry) && recent == old(recent) && history == old(history)
      ensures Parse(shape, argv).Some? ==>
                && Reaches(Environment(), old(history), history)
                && task !in old(history).tasks && task in history.tasks
                && history.tasks[task].Answered? && history.tasks[task].answer == out
                && history.tasks[task].keys == Parse(shape, argv).value
                && (|| (inner.calls == old(inner.calls) && entry == old(entry) && history.fetches == old(history).fetches)
                    || (&& history.fetches != [] && history.fetches[..|history.fetches| - 1] == old(history).fetches
                        && var f := history.fetches[|history.fetches| - 1];
                           && f.task == task
                           && inner.calls == old(inner.calls) + [Build(shape, f.query.batch)]
                           && out == f.result == inner.answer(|old(inner.calls)|, Build(shape, f.query.batch))))
      ensures Parse(shape, argv).Some? ==> old(clock.now) <= history.tasks[task].at <= clock.now && old(clock.now) <= history.clock
      ensures Parse(shape, argv).Some? ==> exists f :: f in history.fetches && IsFresh(shape, ttl, f, task, Parse(shape, argv).value, out, old(clock.now), clock.now)
    {
      task := FreshTask(history.tasks);
      var parsed := Parse(shape, argv);
      if parsed.None? {
        out := inner.Ask(argv);
        return;
      }
      var requested := parsed.value;
      ghost var env := Environment();
      ghost var s0 := history;
      var now := clock.Read();
      ghost var s2 := ArriveAlone(env, s0, task, requested, now);
      recent := StampAll(recent, requested, now);
      var checkedAt := clock.Read();
      if Replayable(ttl, entry, requested, checkedAt) {
        out := Replay(shape, entry.value.result);
        history := Apply(env, s2, Hit(checkedAt));
        StepReaches(env, s0, s2, Hit(checkedAt));
      } else {
        ghost var stamped := recent;
        ghost var readAt := RetainRecent(checkedAt);
        var kept := ListKeys(recent.Keys);
        var batch := BatchOf(kept, requested);
        ghost var start := Start(checkedAt, readAt, kept, clock.now);
        ghost var s3 := Apply(env, s2, start);
        StepReaches(env, s0, s2, start);
        out := inner.Ask(Build(shape, batch));
        var at := clock.Read();
        ghost var complete := Complete(s3.clock, out, at);
        assert env.inner(s3.clock, Build(shape, batch), out);
        entry := Some(Entry(at, Elements(batch), out));
        history := Apply(env, s3, complete);
        StepReaches(env, s0, s3, complete);
        assert history.fetches[..|history.fetches| - 1] == s0.fetches;
      }
      ReachesIsTransitive(env, Init, s0, history);
      AnswerIsFresh(env, history, task, old(clock.now), clock.now);
    }

    /** `retain`: every key is judged at its own reading of the clock. */
    method RetainRecent(since: Time) returns (ghost readAt: map<JobKey, Time>)
      requires since <= clock.now
      modifies this`recent, clock
      ensures readAt.Keys == old(recent).Keys
      ensures forall k :: k in readAt ==> since <= readAt[k] <= clock.now
      ensures recent == Prune(ttl, old(recent), readAt)
      ensures old(clock.now) <= clock.now
    {
      ghost var before := recent;
      readAt := map[];
      var todo := recent.Keys;
      while todo != {}
        invariant todo <= recent.Keys <= before.Keys
        invariant readAt.Keys == before.Keys - todo
        invariant since <= clock.now && old(clock.now) <= clock.now
        invariant forall k :: k in readAt ==> since <= readAt[k] <= clock.now
        invariant forall k :: k in recent ==> recent[k] == before[k]
        invariant forall k :: k in readAt ==> (k in recent <==> readAt[k] < before[k] + 2 * ttl)
        decreases todo
      {
        var k :| k in todo;
        var t := clock.Read();
        readAt := readAt[k := t];
        if !(t < recent[k] + 2 * ttl) {
          recent := map j | j in recent && j != k :: recent[j];
        }
        todo := todo - {k};
      }
    }
  }

  /** The keys in whatever order the registry yields them. */
  method ListKeys(keys: set<JobKey>) returns (listed: seq<JobKey>)
    ensures Elements(listed) == keys
  {
    listed := [];
    var todo := keys;
    while todo != {}
      invariant todo <= keys
      invariant Elements(listed) == keys - todo
      decreases todo
    {
      var k :| k in todo;
      assert Elements(listed + [k]) == Elements(listed) + {k};
      listed := listed + [k];
      todo := todo - {k};
    }
  }

  lemma FreshId(used: set<TaskId>)
    ensures exists t: TaskId :: t !in used
  {
    var bound := Bound(used);
    assert bound !in used;
  }

  ghost function Bound(used: set<TaskId>): (b: TaskId)
    ensures forall t :: t in used ==> t < b
  {
    if used == {} then 0
    else
      var t :| t in used;
      var rest := Bound(used - {t});
      assert forall x :: x in used ==> x == t || x in used - {t};
      if t < rest then rest else t + 1
  }

  /** A request that finds the slot free takes the lock at once and stamps its keys. */
  lemma ArriveAlone(env: Env, s0: State, task: TaskId, keys: seq<JobKey>, now: Time) returns (s2: State)
    requires s0.queue == [] && s0.holder.None? && task !in s0.tasks && s0.clock <= now
    ensures Reaches(env, s0, s2)
    ensures s2 == s0.(clock := now, holder := Some(task), tasks := s0.tasks[task := Holding(keys)],
                      recent := StampAll(s0.recent, keys, now), stamps := s0.stamps + [Stamp(keys, now)])
  {
    var s1 := Apply(env, s0, Arrive(task, keys, s0.clock));
    StepReaches(env, s0, s0, Arrive(task, keys, s0.clock));
    assert s1.queue == [task];
    s2 := Apply(env, s1, Acquire(now));
    StepReaches(env, s0, s1, Acquire(now));
    assert s2.tasks == s0.tasks[task := Holding(keys)];
  }

  lemma {:induction false} RunThenStep(env: Env, s: State, actions: seq<Action>, m: State, a: Action)
    requires Run(env, s, actions, m) && Enabled(env, m, a)
    ensures Run(env, s, actions + [a], Apply(env, m, a))
    decreases |actions|
  {
    var all := actions + [a];
    if actions != [] {
      assert all[1..] == actions[1..] + [a];
      RunThenStep(env, Apply(env, s, actions[0]), actions[1..], m, a);
    } else {
      assert all[1..] == [];
    }
  }

  lemma StepReaches(env: Env, s: State, m: State, a: Action)
    requires (s == m || Reaches(env, s, m)) && Enabled(env, m, a)
    ensures Reaches(env, s, Apply(env, m, a))
  {
    if s == m {
      assert Run(env, s, [], m);
    }
    var actions :| Run(env, s, actions, m);
    RunThenStep(env, s, actions, m, a);
  }

  lemma {:induction false} RunThenRun(env: Env, s: State, first: seq<Action>, m: State, second: seq<Action>, end: State)
    requires Run(env, s, first, m) && Run(env, m, second, end)
    ensures Run(env, s, first + second, end)
    decreases |first|
  {
    var all := first + second;
    if first != [] {
      assert all[1..] == first[1..] + second;
      RunThenRun(env, Apply(env, s, first[0]), first[1..], m, second, end);
    } else {
      assert all == second;
    }
  }

  lemma ReachesIsTransitive(env: Env, s: State, m: State, end: State)
    requires Reaches(env, s, m) && Reaches(env, m, end)
    ensures Reaches(env, s, end)
  {
    var first :| Run(env, s, first, m);
    var second :| Run(env, m, second, end);
    RunThenRun(env, s, first, m, second, end);
  }
}
