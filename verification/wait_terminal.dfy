/** The polling loop: which poll of an unbounded stream of refresh outcomes ends it. */
module WaitTerminals {
  import opened Wrappers
  import opened SbatchSnapshots

  const MAX_CONSECUTIVE_REFRESH_FAILURES: nat := 5

  type Poll<+E> = Result<Snapshot, E>

  /** The observed state is terminal, or the job has left the active listings. */
  predicate Stops(snap: Snapshot) {
    SeenTerminal(snap.lifecycle) || snap.lifecycle.leftActiveListing
  }

  datatype Verdict<+E> = StillPolling | Returned(poll: nat, result: Poll<E>)

  /** The loop over the polls from `from` on, after `failures` failures in a row. */
  function WaitFrom<E>(polls: seq<Poll<E>>, from: nat, failures: nat): Verdict<E>
    requires from <= |polls|
    decreases |polls| - from
  {
    if from == |polls| then StillPolling
    else
      match polls[from]
      case Ok(snap) =>
        if Stops(snap) then Returned(from, Ok(snap)) else WaitFrom(polls, from + 1, 0)
      case Err(e) =>
        if failures + 1 >= MAX_CONSECUTIVE_REFRESH_FAILURES then Returned(from, Err(e))
        else WaitFrom(polls, from + 1, failures + 1)
  }

  function Wait<E>(polls: seq<Poll<E>>): Verdict<E> {
    WaitFrom(polls, 0, 0)
  }

  predicate StopsAt<E>(polls: seq<Poll<E>>, i: nat) {
    i < |polls| && polls[i].Ok? && Stops(polls[i].value)
  }

  /** The poll at `i` is the fifth of five failures in a row. */
  predicate FifthFailureAt<E>(polls: seq<Poll<E>>, i: nat) {
    && MAX_CONSECUTIVE_REFRESH_FAILURES - 1 <= i < |polls|
    && forall j :: i - MAX_CONSECUTIVE_REFRESH_FAILURES < j <= i ==> polls[j].Err?
  }

  predicate EndsAt<E>(polls: seq<Poll<E>>, i: nat) {
    StopsAt(polls, i) || FifthFailureAt(polls, i)
  }

  /** `failures` is the length of the streak of failures that ends before `from`. */
  predicate Streak<E>(polls: seq<Poll<E>>, from: nat, failures: nat) {
    && failures <= from <= |polls|
    && (forall j :: from - failures <= j < from ==> polls[j].Err?)
    && (failures < from ==> polls[from - failures - 1].Ok?)
  }

  lemma {:induction false} WaitFromEnds<E>(polls: seq<Poll<E>>, from: nat, failures: nat)
    requires Streak(polls, from, failures) && failures < MAX_CONSECUTIVE_REFRESH_FAILURES
    ensures match WaitFrom(polls, from, failures)
            case StillPolling => forall i :: from <= i < |polls| ==> !EndsAt(polls, i)
            case Returned(i, result) =>
              from <= i < |polls| && result == polls[i] && EndsAt(polls, i) && forall j :: from <= j < i ==> !EndsAt(polls, j)
    decreases |polls| - from
  {
    if from < |polls| {
      if polls[from].Ok? {
        if !Stops(polls[from].value) {
          WaitFromEnds(polls, from + 1, 0);
        }
      } else if failures + 1 < MAX_CONSECUTIVE_REFRESH_FAILURES {
        assert !FifthFailureAt(polls, from) by {
          if failures < from {
            assert polls[from - failures - 1].Ok?;
          }
        }
        WaitFromEnds(polls, from + 1, failures + 1);
      }
    }
  }

  /** The loop returns at the first poll that shows a job at its end or is a fifth
      failure in a row, with the outcome of that poll; until then it keeps polling,
      however many failures there have been in all. */
  lemma WaitEndsAtFirstEnd<E>(polls: seq<Poll<E>>)
    ensures forall i :: 0 <= i < |polls| ==>
              (Wait(polls) == Returned(i, polls[i]) <==> EndsAt(polls, i) && forall j :: 0 <= j < i ==> !EndsAt(polls, j))
    ensures Wait(polls).StillPolling? <==> forall i :: 0 <= i < |polls| ==> !EndsAt(polls, i)
  {
    WaitFromEnds(polls, 0, 0);
  }

  /** The poll shows a terminal state, or that the job has left the active listings. */
  predicate ShowsTheEnd<E>(poll: Poll<E>) {
    && poll.Ok?
    && var l := poll.value.lifecycle;
       l.leftActiveListing || (l.lastObservedState.Some? && l.lastObservedState.value.state.IsTerminal())
  }

  /** Five failures in a row end at `i`. */
  predicate FiveFailuresTo<E>(polls: seq<Poll<E>>, i: int) {
    && 4 <= i < |polls|
    && polls[i].Err? && polls[i - 1].Err? && polls[i - 2].Err? && polls[i - 3].Err? && polls[i - 4].Err?
  }

  /** Neither has happened before `n`. */
  predicate NothingBefore<E>(polls: seq<Poll<E>>, n: nat) {
    forall j :: 0 <= j < n && j < |polls| ==> !ShowsTheEnd(polls[j]) && !FiveFailuresTo(polls, j)
  }

  /** The rule of the polling loop: the first poll that shows the end, or the fifth of
      five failures in a row, whichever comes first. */
  ghost predicate IsFirstEnd<E>(polls: seq<Poll<E>>, verdict: Verdict<E>) {
    match verdict
    case StillPolling => NothingBefore(polls, |polls|)
    case Returned(i, result) =>
      && i < |polls| && result == polls[i] && NothingBefore(polls, i)
      && (if result.Ok? then ShowsTheEnd(result) else FiveFailuresTo(polls, i))
  }

  lemma EndsSpelledOut<E>(polls: seq<Poll<E>>, i: nat)
    requires i < |polls|
    ensures EndsAt(polls, i) <==> ShowsTheEnd(polls[i]) || FiveFailuresTo(polls, i)
  {
    if FiveFailuresTo(polls, i) {
      forall j | i - 5 < j <= i
        ensures polls[j].Err?
      {
      }
    }
  }

  /** The loop follows the rule, and the rule leaves no choice. */
  lemma WaitIsFirstEnd<E>(polls: seq<Poll<E>>)
    ensures IsFirstEnd(polls, Wait(polls))
    ensures forall verdict :: IsFirstEnd(polls, verdict) ==> verdict == Wait(polls)
  {
    forall i: nat | i < |polls|
      ensures EndsAt(polls, i) <==> ShowsTheEnd(polls[i]) || FiveFailuresTo(polls, i)
    {
      EndsSpelledOut(polls, i);
    }
    WaitFromEnds(polls, 0, 0);
    forall verdict | IsFirstEnd(polls, verdict)
      ensures verdict == Wait(polls)
    {
      if verdict.Returned? {
        assert EndsAt(polls, verdict.poll);
      }
    }
  }

  /** What the loop returns does not depend on what later polls would have been. */
  lemma {:induction false} LaterPollsDoNotMatter<E>(polls: seq<Poll<E>>, more: seq<Poll<E>>, from: nat, failures: nat)
    requires from <= |polls|
    requires WaitFrom(polls, from, failures).Returned?
    ensures WaitFrom(polls + more, from, failures) == WaitFrom(polls, from, failures)
    decreases |polls| - from
  {
    if polls[from].Ok? {
      if !Stops(polls[from].value) {
        LaterPollsDoNotMatter(polls, more, from + 1, 0);
      }
    } else if failures + 1 < MAX_CONSECUTIVE_REFRESH_FAILURES {
      LaterPollsDoNotMatter(polls, more, from + 1, failures + 1);
    }
  }

  lemma {:induction false} WaitFromExtends<E>(polls: seq<Poll<E>>, next: Poll<E>, from: nat, failures: nat, now: nat)
    requires Streak(polls, from, failures) && Streak(polls, |polls|, now)
    requires failures < MAX_CONSECUTIVE_REFRESH_FAILURES
    requires WaitFrom(polls, from, failures).StillPolling?
    ensures now < MAX_CONSECUTIVE_REFRESH_FAILURES
    ensures WaitFrom(polls + [next], from, failures) == WaitFrom(polls + [next], |polls|, now)
    decreases |polls| - from
  {
    if from == |polls| {
      StreakIsUnique(polls, from, failures, now);
    } else if polls[from].Ok? {
      WaitFromExtends(polls, next, from + 1, 0, now);
    } else {
      WaitFromExtends(polls, next, from + 1, failures + 1, now);
    }
  }

  /** The poll ends the loop after so many failures in a row. */
  predicate Decides<E>(poll: Poll<E>, failures: nat) {
    if poll.Ok? then Stops(poll.value) else failures + 1 >= MAX_CONSECUTIVE_REFRESH_FAILURES
  }

  /** One poll after others that did not end the loop. */
  lemma OnePollMore<E>(polls: seq<Poll<E>>, next: Poll<E>, failures: nat)
    requires Streak(polls, |polls|, failures) && Wait(polls).StillPolling?
    ensures failures < MAX_CONSECUTIVE_REFRESH_FAILURES
    ensures Wait(polls + [next]) == if Decides(next, failures) then Returned(|polls|, next) else StillPolling
    ensures Streak(polls + [next], |polls| + 1, if next.Ok? then 0 else failures + 1)
  {
    WaitFromExtends(polls, next, 0, 0, failures);
  }

  lemma StreakIsUnique<E>(polls: seq<Poll<E>>, from: nat, a: nat, b: nat)
    requires Streak(polls, from, a) && Streak(polls, from, b)
    ensures a == b
  {
  }

  // ---------------------------------------------------------------- turns of the loop

  /** One turn from a place: where it leads, and its outcome. */
  datatype Turn<P, E> = Turn(next: P, poll: Poll<E>)

  /** After `k` turns from `p`; `times` are their clock readings. */
  function AfterPolls<P, E>(turn: (P, Instant) -> Turn<P, E>, p: P, times: nat -> Instant, k: nat): P {
    if k == 0 then p else turn(AfterPolls(turn, p, times, k - 1), times(k - 1)).next
  }

  function PollAt<P, E>(turn: (P, Instant) -> Turn<P, E>, p: P, times: nat -> Instant, i: nat): Poll<E> {
    turn(AfterPolls(turn, p, times, i), times(i)).poll
  }

  /** The outcomes of the first `k` turns. */
  function PollsUpTo<P, E>(turn: (P, Instant) -> Turn<P, E>, p: P, times: nat -> Instant, k: nat): (polls: seq<Poll<E>>)
    ensures |polls| == k
  {
    if k == 0 then [] else PollsUpTo(turn, p, times, k - 1) + [PollAt(turn, p, times, k - 1)]
  }

  lemma {:induction false} PollsExtend<P, E>(turn: (P, Instant) -> Turn<P, E>, p: P, times: nat -> Instant, k: nat, n: nat)
    requires k <= n
    ensures PollsUpTo(turn, p, times, k) <= PollsUpTo(turn, p, times, n)
    decreases n
  {
    if k < n {
      PollsExtend(turn, p, times, k, n - 1);
    }
  }

  /** What the turns up to `k` decide is decided, whatever later ones would have been. */
  lemma VerdictStands<P, E>(turn: (P, Instant) -> Turn<P, E>, p: P, times: nat -> Instant, k: nat, n: nat)
    requires k <= n && Wait(PollsUpTo(turn, p, times, k)).Returned?
    ensures Wait(PollsUpTo(turn, p, times, n)) == Wait(PollsUpTo(turn, p, times, k))
  {
    var few, all := PollsUpTo(turn, p, times, k), PollsUpTo(turn, p, times, n);
    PollsExtend(turn, p, times, k, n);
    assert all == few + all[k..];
    LaterPollsDoNotMatter(few, all[k..], 0, 0);
  }

  /** The loop goes on after `k` turns, the last `failures` of which failed. */
  predicate GoesOn<P, E>(turn: (P, Instant) -> Turn<P, E>, p: P, times: nat -> Instant, k: nat, failures: nat) {
    var polls := PollsUpTo(turn, p, times, k);
    Streak(polls, k, failures) && Wait(polls).StillPolling? && failures < MAX_CONSECUTIVE_REFRESH_FAILURES
  }

  lemma EndsUndecided<P, E>(turn: (P, Instant) -> Turn<P, E>, p: P, times: nat -> Instant, k: nat, failures: nat)
    requires GoesOn(turn, p, times, k, failures)
    ensures Wait(PollsUpTo(turn, p, times, k)) == StillPolling
  {
  }

  lemma OneTurnMore<P, E>(turn: (P, Instant) -> Turn<P, E>, p: P, times: nat -> Instant, k: nat, failures: nat, horizon: nat)
    requires GoesOn(turn, p, times, k, failures) && k < horizon
    ensures var r := PollAt(turn, p, times, k);
            if Decides(r, failures) then Wait(PollsUpTo(turn, p, times, horizon)) == Returned(k, r)
            else GoesOn(turn, p, times, k + 1, if r.Ok? then 0 else failures + 1)
  {
    var polls, r := PollsUpTo(turn, p, times, k), PollAt(turn, p, times, k);
    OnePollMore(polls, r, failures);
    assert PollsUpTo(turn, p, times, k + 1) == polls + [r];
    if Wait(polls + [r]).Returned? {
      VerdictStands(turn, p, times, k + 1, horizon);
    }
  }
}
