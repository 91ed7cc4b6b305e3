/** The three caching dispatchers layered over one another. Because no shape
    recognises another's query, the order of the layers does not matter: every
    request sequence spawns the same commands and gets the same answers. */
module CacheStack {
  import opened Wrappers
  import opened JobKeys
  import opened Dispatch
  import opened QueryShapes
  import opened CacheProtocol
  import opened QueryCache

  datatype Slot = Slot(entry: Option<Entry>, recent: map<JobKey, Time>)

  /** What a layer does with a request of its shape before it asks further down: the
      slot it leaves, how many clock readings it took, and the replay or the batch. */
  datatype Decision =
    | Serve(slot: Slot, readings: nat, out: Capture)
    | Ask(slot: Slot, readings: nat, batch: seq<JobKey>)

  /** The layers and what is around them: the queries they recognise and build, how
      they decide, the n-th reading of the clock, and the n-th answer of the bottom
      dispatcher. */
  datatype Surroundings = Surroundings(
    parse: (Shape, Argv) -> Option<seq<JobKey>>,
    build: (Shape, seq<JobKey>) -> Argv,
    decide: (Shape, Slot, nat -> Time, nat, seq<JobKey>) -> Decision,
    time: nat -> Time,
    answer: (nat, Argv) -> Capture)

  datatype Stack = Stack(slots: Shape -> Slot, readings: nat, calls: seq<Argv>)

  /** The decision of the cache: stamp, check, then prune. */
  ghost function CacheDecision(ttl: nat, shape: Shape, slot: Slot, time: nat -> Time, start: nat, keys: seq<JobKey>): Decision {
    var recent := StampAll(slot.recent, keys, time(start));
    if Replayable(ttl, slot.entry, keys, time(start + 1)) then
      Serve(Slot(slot.entry, recent), 2, Replay(shape, slot.entry.value.result))
    else
      var kept := Prune(ttl, recent, map k | k in recent :: time(start + 2));
      Ask(Slot(slot.entry, kept), 3, SortedBatch(kept.Keys + Elements(keys)))
  }

  lemma {:induction false} BatchFor(keys: set<JobKey>) returns (b: seq<JobKey>)
    ensures StrictlySorted(b) && Elements(b) == keys
  {
    if keys == {} {
      b := [];
    } else {
      var k :| k in keys;
      var rest := BatchFor(keys - {k});
      b := BatchOf(rest, [k]);
      assert Elements([k]) == {k};
      assert keys - {k} + {k} == keys;
    }
  }

  lemma BatchExists(keys: set<JobKey>)
    ensures exists b :: StrictlySorted(b) && Elements(b) == keys
  {
    var b := BatchFor(keys);
  }

  ghost function SortedBatch(keys: set<JobKey>): (b: seq<JobKey>)
    ensures StrictlySorted(b) && Elements(b) == keys
  {
    BatchExists(keys);
    var b :| StrictlySorted(b) && Elements(b) == keys;
    b
  }

  /** The decision is what the protocol does for a request that finds the slot free, when
      all of the pruning happens at one moment. */
  lemma DecisionIsARun(env: Env, s: State, slot: Slot, time: nat -> Time, start: nat, task: TaskId, keys: seq<JobKey>)
    returns (end: State)
    requires s.queue == [] && s.holder.None? && task !in s.tasks
    requires s.entry == slot.entry && s.recent == slot.recent
    requires s.clock <= time(start) <= time(start + 1) <= time(start + 2)
    ensures Reaches(env, s, end) && task in end.tasks
    ensures var d := CacheDecision(env.ttl, env.shape, slot, time, start, keys);
            && end.entry == d.slot.entry && end.recent == d.slot.recent
            && match d
               case Serve(_, _, out) => end.tasks[task] == Answered(keys, out, |s.fetches| - 1, time(start + 1)) && end.holder.None?
               case Ask(_, _, batch) =>
                 end.tasks[task] == Fetching(keys, Query(batch, time(start + 1), time(start + 2), |s.stamps| + 1)) && end.holder == Some(task)
  {
    var held := ArriveAlone(env, s, task, keys, time(start));
    if Replayable(env.ttl, slot.entry, keys, time(start + 1)) {
      end := Apply(env, held, Hit(time(start + 1)));
      StepReaches(env, s, held, Hit(time(start + 1)));
    } else {
      var readAt := map k | k in held.recent :: time(start + 2);
      var left := Prune(env.ttl, held.recent, readAt).Keys;
      var kept := SortedBatch(left);
      var step := Start(time(start + 1), readAt, kept, time(start + 2));
      end := Apply(env, held, step);
      StepReaches(env, s, held, step);
      SortedBatchIsUnique(BatchOf(kept, keys), SortedBatch(left + Elements(keys)));
    }
  }

  function SetSlot(st: Stack, shape: Shape, slot: Slot): Stack {
    st.(slots := (s: Shape) => if s == shape then slot else st.slots(s))
  }

  /** One request through the layers in `order`, outermost first. */
  function Through(order: seq<Shape>, around: Surroundings, st: Stack, argv: Argv): (Stack, Capture)
    decreases |order|
  {
    if order == [] then
      (st.(calls := st.calls + [argv]), around.answer(|st.calls|, argv))
    else
      match around.parse(order[0], argv)
      case None => Through(order[1..], around, st, argv)
      case Some(keys) =>
        var d := around.decide(order[0], st.slots(order[0]), around.time, st.readings, keys);
        var decided := SetSlot(st.(readings := st.readings + d.readings), order[0], d.slot);
        if d.Serve? then (decided, d.out)
        else
          var (below, out) := Through(order[1..], around, decided, around.build(order[0], d.batch));
          var entry := Entry(around.time(below.readings), Elements(d.batch), out);
          (SetSlot(below.(readings := below.readings + 1), order[0], Slot(Some(entry), d.slot.recent)), out)
  }

  function Session(order: seq<Shape>, around: Surroundings, st: Stack, requests: seq<Argv>): (Stack, seq<Capture>)
    decreases |requests|
  {
    if requests == [] then (st, [])
    else
      var (next, out) := Through(order, around, st, requests[0]);
      var (end, outs) := Session(order, around, next, requests[1..]);
      (end, [out] + outs)
  }

  /** All three shapes, each once. */
  predicate IsOrder(order: seq<Shape>) {
    && (forall s: Shape :: s in order)
    && (forall i, j :: 0 <= i < j < |order| ==> order[i] != order[j])
  }

  /** No layer recognises another's query, nor what another builds. */
  ghost predicate Coherent(around: Surroundings) {
    && (forall a, b, argv :: a != b && around.parse(a, argv).Some? ==> around.parse(b, argv).None?)
    && (forall a, b, batch :: a != b ==> around.parse(b, around.build(a, batch)).None?)
  }

  lemma {:induction false} UnrecognisedPassesThrough(order: seq<Shape>, around: Surroundings, st: Stack, argv: Argv)
    requires forall s :: s in order ==> around.parse(s, argv).None?
    ensures Through(order, around, st, argv) == Through([], around, st, argv)
    decreases |order|
  {
    if order != [] {
      UnrecognisedPassesThrough(order[1..], around, st, argv);
    }
  }

  /** In any order the stack acts like the one layer that recognises the request. */
  lemma {:induction false} StackActsAsOneLayer(order: seq<Shape>, around: Surroundings, st: Stack, argv: Argv, shape: Shape)
    requires Coherent(around) && shape in order && around.parse(shape, argv).Some?
    requires forall i, j :: 0 <= i < j < |order| ==> order[i] != order[j]
    ensures Through(order, around, st, argv) == Through([shape], around, st, argv)
    decreases |order|
  {
    if order[0] == shape {
      var d := around.decide(shape, st.slots(shape), around.time, st.readings, around.parse(shape, argv).value);
      if d.Ask? {
        var decided := SetSlot(st.(readings := st.readings + d.readings), shape, d.slot);
        UnrecognisedPassesThrough(order[1..], around, decided, around.build(shape, d.batch));
        assert [shape][1..] == [];
      }
    } else {
      StackActsAsOneLayer(order[1..], around, st, argv, shape);
    }
  }

  lemma LayerOrderIsImmaterial(order: seq<Shape>, other: seq<Shape>, around: Surroundings, st: Stack, argv: Argv)
    requires Coherent(around) && IsOrder(order) && IsOrder(other)
    ensures Through(order, around, st, argv) == Through(other, around, st, argv)
  {
    if shape: Shape :| around.parse(shape, argv).Some? {
      StackActsAsOneLayer(order, around, st, argv, shape);
      StackActsAsOneLayer(other, around, st, argv, shape);
    } else {
      UnrecognisedPassesThrough(order, around, st, argv);
      UnrecognisedPassesThrough(other, around, st, argv);
    }
  }

  /** Over every request sequence: the same commands spawned, the same answers, the
      same slots. */
  lemma {:induction false} SessionsAgree(order: seq<Shape>, other: seq<Shape>, around: Surroundings, st: Stack, requests: seq<Argv>)
    requires Coherent(around) && IsOrder(order) && IsOrder(other)
    ensures Session(order, around, st, requests) == Session(other, around, st, requests)
    decreases |requests|
  {
    if requests != [] {
      LayerOrderIsImmaterial(order, other, around, st, requests[0]);
      SessionsAgree(order, other, around, Through(order, around, st, requests[0]).0, requests[1..]);
    }
  }

  ghost function CacheSurroundings(ttl: nat, time: nat -> Time, answer: (nat, Argv) -> Capture): Surroundings {
    Surroundings(
      (shape: Shape, argv: Argv) => Parse(shape, argv),
      (shape: Shape, batch: seq<JobKey>) => Build(shape, batch),
      (shape: Shape, slot: Slot, clock: nat -> Time, start: nat, keys: seq<JobKey>) => CacheDecision(ttl, shape, slot, clock, start, keys),
      time, answer)
  }

  lemma BuiltQueriesPassOtherLayers(shape: Shape, other: Shape, batch: seq<JobKey>)
    requires shape != other
    ensures Parse(other, Build(shape, batch)).None?
  {
    var argv := Build(shape, batch);
    assert |argv| == 7 ==> argv[..4][0] == argv[0];
    assert "squeue"[1] != "sacct"[1];
  }

  lemma CacheIsCoherent(ttl: nat, time: nat -> Time, answer: (nat, Argv) -> Capture)
    ensures Coherent(CacheSurroundings(ttl, time, answer))
  {
    forall a, b, argv | a != b && Parse(a, argv).Some?
      ensures Parse(b, argv).None?
    {
      ShapesAreDisjoint(a, b, argv);
    }
    forall a, b, batch | a != b
      ensures Parse(b, Build(a, batch)).None?
    {
      BuiltQueriesPassOtherLayers(a, b, batch);
    }
  }

  /** In particular for the cache, in the order the manager layers it. */
  lemma ManagerOrderIsImmaterial(other: seq<Shape>, ttl: nat, time: nat -> Time, answer: (nat, Argv) -> Capture, st: Stack,
      requests: seq<Argv>)
    requires IsOrder(other)
    ensures var around := CacheSurroundings(ttl, time, answer);
            Session([Qgroup, Squeue, Sacct], around, st, requests) == Session(other, around, st, requests)
  {
    forall s: Shape
      ensures s in [Qgroup, Squeue, Sacct]
    {
      match s {
        case Squeue =>
        case Sacct =>
        case Qgroup =>
      }
    }
    CacheIsCoherent(ttl, time, answer);
    SessionsAgree([Qgroup, Squeue, Sacct], other, CacheSurroundings(ttl, time, answer), st, requests);
  }
}
