/** What the cache protocol guarantees in every reachable state: single flight, no
    answer without a query that asked for it, exact batches, bounded load, and a
    way forward for every pending request. */
module CacheGuarantees {
  import opened Arithmetic
  import opened Wrappers
  import opened JobKeys
  import opened Dispatch
  import opened QueryShapes
  import opened CacheProtocol

  lemma AtMostOneQueryInFlight(env: Env, s: State, t: TaskId, u: TaskId)
    requires Reachable(env, s)
    requires t in s.tasks && s.tasks[t].Fetching?
    requires u in s.tasks && s.tasks[u].Fetching?
    ensures t == u
  {
    ReachableSatisfiesInv(env, s);
    assert s.holder == Some(t) && s.holder == Some(u);
  }

  /** The stored result is what the wrapped dispatcher answered to the query built
      from the stored key set, and from no other batch. */
  lemma StoredResultAnswersStoredKeys(env: Env, s: State) returns (batch: seq<JobKey>, asOf: Time)
    requires Reachable(env, s) && s.entry.Some?
    ensures Elements(batch) == s.entry.value.keys && StrictlySorted(batch)
    ensures forall b :: StrictlySorted(b) && Elements(b) == s.entry.value.keys ==> b == batch
    ensures env.inner(asOf, Build(env.shape, batch), s.entry.value.result)
    ensures asOf <= s.entry.value.at <= s.clock
  {
    ReachableSatisfiesInv(env, s);
    var last := s.fetches[|s.fetches| - 1];
    assert FetchInv(env, s, |s.fetches| - 1);
    batch, asOf := last.query.batch, last.asOf;
    forall b | StrictlySorted(b) && Elements(b) == s.entry.value.keys
      ensures b == batch
    {
      SortedBatchIsUnique(b, batch);
    }
  }

  /** Every answered request was answered by a completed live query that had asked
      about all its keys: its own, or one younger than ttl. */
  lemma EveryAnswerWasAskedFor(env: Env, s: State, t: TaskId) returns (f: Fetch)
    requires Reachable(env, s)
    requires t in s.tasks && s.tasks[t].Answered?
    ensures f in s.fetches
    ensures var p := s.tasks[t];
            AnswerFrom(env, t, p.keys, p.answer, p.at, f)
    ensures env.inner(f.asOf, Build(env.shape, f.query.batch), f.result)
    ensures f.asOf <= f.at
  {
    ReachableSatisfiesInv(env, s);
    assert PhaseInv(env, s, t);
    f := s.fetches[s.tasks[t].source];
    assert FetchInv(env, s, s.tasks[t].source);
  }

  /** The batch of every completed query, against the history of requests alone. */
  lemma BatchIsExact(env: Env, s: State, i: nat, k: JobKey)
    requires Reachable(env, s) && i < |s.fetches|
    ensures var f := s.fetches[i];
            && f.query.seen <= |s.stamps|
            && var seen := s.stamps[..f.query.seen];
            && StrictlySorted(f.query.batch)
            && (k in f.keys || StampedWithin(seen, k, f.query.prunedAt, 2 * env.ttl) ==> k in f.query.batch)
            && (k in f.query.batch ==> k in f.keys || StampedWithin(seen, k, f.query.checkedAt, 2 * env.ttl))
  {
    ReachableSatisfiesInv(env, s);
    assert FetchInv(env, s, i);
    assert k in s.fetches[i].keys <==> k in Elements(s.fetches[i].keys);
  }

  /** When ttl is zero nothing is shared: a live query asks for exactly the keys
      of its own request, and no request is answered by a replay. */
  lemma {:induction false} ZeroTtlDisablesCaching(env: Env, s: State)
    requires Reachable(env, s) && env.ttl == 0
    ensures forall f :: f in s.fetches ==> Elements(f.query.batch) == Elements(f.keys)
    ensures forall t :: t in s.tasks && s.tasks[t].Answered? ==>
              exists f :: f in s.fetches && f.task == t && s.tasks[t].answer == f.result
  {
    ReachableSatisfiesInv(env, s);
    forall f | f in s.fetches
      ensures Elements(f.query.batch) == Elements(f.keys)
    {
      var i :| 0 <= i < |s.fetches| && s.fetches[i] == f;
      assert FetchInv(env, s, i);
    }
    forall t | t in s.tasks && s.tasks[t].Answered?
      ensures exists f :: f in s.fetches && f.task == t && s.tasks[t].answer == f.result
    {
      var g := EveryAnswerWasAskedFor(env, s, t);
    }
  }

  // ---------------------------------------------------------------- cancellation

  /** Only a completed query writes the entry; a cancelled request, whether it was
      queued or in flight, leaves the entry and the registry as they were, and its
      slot on the lock free. */
  lemma {:induction false} CancellationLeavesTheCache(env: Env, s: State, a: Action)
    requires Reachable(env, s) && Enabled(env, s, a) && (a.CancelWaiting? || a.CancelFetch?)
    ensures var s' := Apply(env, s, a);
            && s'.entry == s.entry && s'.recent == s.recent && s'.fetches == s.fetches
            && (a.CancelFetch? ==> s'.holder.None?)
            && (forall t :: t in s.tasks && s'.tasks[t] != s.tasks[t] ==>
                  s'.tasks[t].Cancelled? && t !in s'.queue && s'.holder != Some(t))
  {
    ReachableSatisfiesInv(env, s);
    StepPreserves(env, s, a);
  }

  // ---------------------------------------------------------------- progress

  predicate Pending(p: Phase) {
    p.Waiting? || p.Holding? || p.Fetching?
  }

  function Measure(s: State): nat {
    3 * |s.queue| +
    if s.holder.None? then 0
    else if HolderIn(s, false) then 2
    else 1
  }

  /** Every step but the arrival of a request shortens what is left to do. */
  lemma StepShortens(env: Env, s: State, a: Action)
    requires Inv(env, s) && Enabled(env, s, a) && !a.Arrive?
    ensures Measure(Apply(env, s, a)) < Measure(s)
  {
    if a.CancelWaiting? {
      RemoveKeeps(s.queue, a.task);
    }
  }

  /** So runs without arrivals are bounded: the cache cannot spin. */
  lemma {:induction false} RunsAreBounded(env: Env, s: State, actions: seq<Action>, end: State)
    requires Inv(env, s) && Run(env, s, actions, end)
    requires forall a :: a in actions ==> !a.Arrive?
    ensures |actions| + Measure(end) <= Measure(s)
    decreases |actions|
  {
    if actions != [] {
      StepShortens(env, s, actions[0]);
      StepPreserves(env, s, actions[0]);
      RunsAreBounded(env, Apply(env, s, actions[0]), actions[1..], end);
    }
  }

  predicate ByItself(a: Action) {
    a.Acquire? || a.Hit? || a.Start? || a.Complete?
  }

  ghost predicate CanAnswer(env: Env, now: Time, argv: Argv) {
    exists out :: env.inner(now, argv, out)
  }

  ghost predicate AnswersEverything(env: Env) {
    forall now, argv :: CanAnswer(env, now, argv)
  }

  /** While a request is pending some step other than an arrival or a cancellation
      is enabled, provided the wrapped dispatcher answers every query. */
  lemma {:induction false} SomeStepIsEnabled(env: Env, s: State, kept: seq<JobKey>) returns (a: Action)
    requires Inv(env, s)
    requires exists t :: t in s.tasks && Pending(s.tasks[t])
    requires AnswersEverything(env)
    requires Elements(kept) == Prune(env.ttl, s.recent, map k | k in s.recent :: s.clock).Keys
    ensures ByItself(a) && Enabled(env, s, a)
  {
    var t :| t in s.tasks && Pending(s.tasks[t]);
    if s.holder.None? {
      assert t in s.queue;
      assert s.queue[0] in s.queue;
      a := Acquire(s.clock);
    } else {
      var h := s.holder.value;
      assert h in s.tasks && (s.tasks[h].Holding? || s.tasks[h].Fetching?);
      if s.tasks[h].Holding? {
        if Replayable(env.ttl, s.entry, s.tasks[h].keys, s.clock) {
          a := Hit(s.clock);
        } else {
          a := Start(s.clock, map k | k in s.recent :: s.clock, kept, s.clock);
        }
      } else {
        assert PhaseInv(env, s, h);
        var argv := Build(env.shape, s.tasks[h].query.batch);
        assert CanAnswer(env, s.clock, argv);
        var out :| env.inner(s.clock, argv, out);
        a := Complete(s.clock, out, s.clock);
      }
    }
  }

  lemma {:induction false} EnumerateKeys(keys: set<JobKey>) returns (listed: seq<JobKey>)
    ensures Elements(listed) == keys
  {
    listed := [];
    if keys != {} {
      var k :| k in keys;
      var rest := EnumerateKeys(keys - {k});
      listed := [k] + rest;
      assert Elements(listed) == {k} + Elements(rest);
    }
  }

  /** A step taken by the cache itself cancels nothing and forgets no answer. */
  lemma {:induction false} StepKeepsTasks(env: Env, s: State, a: Action, t: TaskId)
    requires Inv(env, s) && Enabled(env, s, a) && ByItself(a)
    requires t in s.tasks
    ensures var s' := Apply(env, s, a);
            && t in s'.tasks
            && (Pending(s.tasks[t]) ==> Pending(s'.tasks[t]) || s'.tasks[t].Answered?)
            && (!Pending(s.tasks[t]) ==> s'.tasks[t] == s.tasks[t])
            && s'.tasks.Keys == s.tasks.Keys
  {
    if a.Acquire? {
      assert s.queue[0] in s.queue;
    }
  }

  /** From every reachable state the pending requests can all be answered, without
      any cancellation: neither deadlock nor starvation is built in. */
  lemma {:induction false} PendingRequestsCanBeAnswered(env: Env, s: State)
      returns (actions: seq<Action>, end: State)
    requires Inv(env, s)
    requires AnswersEverything(env)
    ensures Run(env, s, actions, end)
    ensures forall a :: a in actions ==> ByItself(a)
    ensures end.tasks.Keys == s.tasks.Keys
    ensures forall t :: t in s.tasks && Pending(s.tasks[t]) ==> end.tasks[t].Answered?
    ensures forall t :: t in s.tasks && !Pending(s.tasks[t]) ==> end.tasks[t] == s.tasks[t]
    decreases Measure(s)
  {
    if exists t :: t in s.tasks && Pending(s.tasks[t]) {
      var kept := EnumerateKeys(Prune(env.ttl, s.recent, map k | k in s.recent :: s.clock).Keys);
      var a := SomeStepIsEnabled(env, s, kept);
      var s' := Apply(env, s, a);
      StepPreserves(env, s, a);
      StepShortens(env, s, a);
      var rest;
      rest, end := PendingRequestsCanBeAnswered(env, s');
      actions := [a] + rest;
      assert actions[1..] == rest;
      forall t | t in s.tasks
        ensures end.tasks.Keys == s.tasks.Keys
        ensures Pending(s.tasks[t]) ==> end.tasks[t].Answered?
        ensures !Pending(s.tasks[t]) ==> end.tasks[t] == s.tasks[t]
      {
        StepKeepsTasks(env, s, a, t);
      }
    } else {
      actions, end := [], s;
    }
  }

  // ---------------------------------------------------------------- load

  /** A query of known keys, each of which had been asked for less than 2 x ttl before
      its registry was pruned. */
  ghost predicate SteadyPolling(env: Env, s: State, known: set<JobKey>, i: nat)
    requires i < |s.fetches|
  {
    var f := s.fetches[i];
    && Elements(f.keys) <= known
    && f.query.seen <= |s.stamps|
    && forall k :: k in known ==> StampedWithin(s.stamps[..f.query.seen], k, f.query.prunedAt, 2 * env.ttl)
  }

  lemma {:induction false} SteadyLoadBound(env: Env, s: State, known: set<JobKey>, i: nat, j: nat)
    requires Reachable(env, s) && i <= j < |s.fetches|
    requires forall m :: i <= m <= j ==> SteadyPolling(env, s, known, m)
    ensures forall m :: i <= m < j ==> s.fetches[m].at + env.ttl <= s.fetches[m + 1].query.checkedAt
    ensures s.fetches[i].at + (j - i) * env.ttl <= s.fetches[j].at
    decreases j - i
  {
    if i < j {
      SteadyLoadBound(env, s, known, i, j - 1);
      assert SteadyPolling(env, s, known, j - 1) && SteadyPolling(env, s, known, j);
      NextQueryWaits(env, s, known, j);
      assert (j - i) * env.ttl == (j - 1 - i) * env.ttl + env.ttl;
    }
  }

  lemma NextQueryWaits(env: Env, s: State, known: set<JobKey>, j: nat)
    requires Reachable(env, s) && 0 < j < |s.fetches|
    requires SteadyPolling(env, s, known, j - 1) && SteadyPolling(env, s, known, j)
    ensures s.fetches[j - 1].at + env.ttl <= s.fetches[j].query.checkedAt <= s.fetches[j].at
  {
    ReachableSatisfiesInv(env, s);
    var f, g := s.fetches[j - 1], s.fetches[j];
    assert FetchInv(env, s, j - 1) && FetchInv(env, s, j);
    forall k | k in Elements(g.keys)
      ensures k in Elements(f.query.batch)
    {
      assert k in f.query.batch;
    }
  }

  predicate StampsKey(stamps: seq<Stamp>, i: nat, k: JobKey) {
    i < |stamps| && k in stamps[i].keys
  }

  /** The key is requested again less than `window` after, or not due yet. */
  predicate ComesAgain(stamps: seq<Stamp>, i: nat, k: JobKey, window: nat, now: Time)
    requires i < |stamps|
  {
    || now < stamps[i].at + window
    || exists j :: i < j < |stamps| && StampsKey(stamps, j, k) && stamps[j].at < stamps[i].at + window
  }

  /** The requests from number `since` on: all for known keys, and each known key
      requested again and again at gaps below 2 x ttl, up to now. By the query `i` all
      the known keys had been requested. */
  ghost predicate RecurringRequests(env: Env, s: State, known: set<JobKey>, since: nat, i: nat)
    requires i < |s.fetches|
  {
    && since < s.fetches[i].query.seen
    && (forall m :: since <= m < |s.stamps| ==> Elements(s.stamps[m].keys) <= known)
    && (forall k :: k in known ==> exists m :: since <= m < s.fetches[i].query.seen && StampsKey(s.stamps, m, k))
    && (forall k, m :: k in known && since <= m && StampsKey(s.stamps, m, k) ==> ComesAgain(s.stamps, m, k, 2 * env.ttl, s.clock))
  }

  lemma {:induction false} SeenGrows(env: Env, s: State, i: nat, j: nat)
    requires Reachable(env, s) && i <= j < |s.fetches|
    ensures s.fetches[i].query.seen <= s.fetches[j].query.seen
    decreases j
  {
    if i < j {
      SeenGrows(env, s, i, j - 1);
      ReachableSatisfiesInv(env, s);
      assert FetchInv(env, s, j);
    }
  }

  /** The last request for a key among the first `n`. */
  lemma {:induction false} LastStamp(stamps: seq<Stamp>, k: JobKey, m: nat, n: nat) returns (last: nat)
    requires m < n <= |stamps| && StampsKey(stamps, m, k)
    ensures m <= last < n && StampsKey(stamps, last, k)
    ensures forall j :: last < j < n ==> !StampsKey(stamps, j, k)
    decreases n
  {
    if StampsKey(stamps, n - 1, k) {
      last := n - 1;
    } else {
      last := LastStamp(stamps, k, m, n - 1);
    }
  }

  lemma RecurringKeyIsStamped(env: Env, s: State, f: Fetch, k: JobKey, m: nat)
    requires m < f.query.seen && InOrder(s.stamps, f.keys, f.query) && f.query.prunedAt <= s.clock
    requires StampsKey(s.stamps, m, k)
    requires forall j :: m <= j && StampsKey(s.stamps, j, k) ==> ComesAgain(s.stamps, j, k, 2 * env.ttl, s.clock)
    ensures StampedWithin(s.stamps[..f.query.seen], k, f.query.prunedAt, 2 * env.ttl)
  {
    var last := LastStamp(s.stamps, k, m, f.query.seen);
    assert s.stamps[..f.query.seen][last] == s.stamps[last];
    assert ComesAgain(s.stamps, last, k, 2 * env.ttl, s.clock);
  }

  lemma RecurringRequestsAreSteady(env: Env, s: State, known: set<JobKey>, since: nat, i: nat, j: nat)
    requires Reachable(env, s) && i <= j < |s.fetches|
    requires RecurringRequests(env, s, known, since, i)
    ensures SteadyPolling(env, s, known, j)
  {
    var f := s.fetches[j];
    ReachableSatisfiesInv(env, s);
    SeenGrows(env, s, i, j);
    assert FetchInv(env, s, j);
    assert Elements(s.stamps[f.query.seen - 1].keys) <= known;
    forall k | k in known
      ensures StampedWithin(s.stamps[..f.query.seen], k, f.query.prunedAt, 2 * env.ttl)
    {
      var m :| since <= m < s.fetches[i].query.seen && StampsKey(s.stamps, m, k);
      RecurringKeyIsStamped(env, s, f, k, m);
    }
  }

  /** When the requests recur at gaps below 2 x ttl, a query starts at least ttl after the
      previous completed one, so queries i to j take at least (j - i) x ttl. */
  lemma LoadBound(env: Env, s: State, known: set<JobKey>, since: nat, i: nat, j: nat)
    requires Reachable(env, s) && i <= j < |s.fetches|
    requires RecurringRequests(env, s, known, since, i)
    ensures forall m :: i <= m < j ==> s.fetches[m].at + env.ttl <= s.fetches[m + 1].query.checkedAt
    ensures s.fetches[i].at + (j - i) * env.ttl <= s.fetches[j].at
  {
    forall m | i <= m <= j
      ensures SteadyPolling(env, s, known, m)
    {
      RecurringRequestsAreSteady(env, s, known, since, i, m);
    }
    SteadyLoadBound(env, s, known, i, j);
  }

  /** So at most 1 + T / ttl queries complete within any time T. */
  lemma CompletionsPerWindow(env: Env, s: State, known: set<JobKey>, since: nat, i: nat, j: nat, duration: nat)
    requires Reachable(env, s) && i <= j < |s.fetches| && env.ttl > 0
    requires RecurringRequests(env, s, known, since, i)
    requires s.fetches[j].at - s.fetches[i].at <= duration
    ensures j - i + 1 <= 1 + duration / env.ttl
  {
    LoadBound(env, s, known, since, i, j);
    QuotientBound(j - i, env.ttl, duration);
  }

  lemma QuotientBound(n: nat, d: nat, total: nat)
    requires d > 0 && n * d <= total
    ensures n <= total / d
  {
    var q := total / d;
    assert total < (q + 1) * d;
    if q < n {
      ProductGrows(q + 1, n, d);
    }
  }
}
