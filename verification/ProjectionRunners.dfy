/**
 * The projection runners themselves: the apply loop, how a batch ends when applying,
 * flushing or saving fails, and the catch-up loop with its guard against stores that do
 * not advance. Failures are chosen by the environment and may leave the projection in
 * any state.
 */
module ProjectionRunners {
  import opened Common
  import opened EventLog
  import opened Paging
  import Projection

  const DEFAULT_PROJECTION_BATCH_SIZE: nat := 500

  /** A projection: how one event changes its state, and what flushing does to that state. */
  datatype View<!S, !Id, !E> = View(apply: (S, Envelope<Id, E>) -> S, flush: S -> S)

  /** A failure: the error and what the failed call leaves of the state. */
  datatype Fault<!S, +R> = Fault(error: R, left: S -> S)

  /** A failed checkpoint save, which may still have reached the store. */
  datatype SaveFault<+C> = SaveFault(error: C, reached: bool)

  /** What goes wrong in one batch: while applying the i-th event, flushing, or saving. */
  datatype BatchFaults<!S, +R, +C> = BatchFaults(
    apply: nat -> Option<Fault<S, R>>,
    flush: Option<Fault<S, R>>,
    save: Option<SaveFault<C>>)

  datatype RunnerError<+R, +T, +C> =
    | ProjectionFailed(error: R)
    | StoreFailed(store: T)
    | CheckpointFailed(checkpoint: C)
    | PartialBatchFailure(projection: R, save: C)

  datatype Outcome = Outcome(applied: nat, lastSequence: Option<nat>, caughtUp: bool)

  /** The projection's state together with the checkpoint that says how far it got. */
  datatype Progress<+S> = Progress(state: S, checkpoint: Option<nat>)

  // ---- the apply loop ----

  /** How many of `n` events are applied before the first failure. */
  ghost function AppliedCount<S, R>(faults: nat -> Option<Fault<S, R>>, n: nat): nat {
    if n == 0 then 0 else
      var before := AppliedCount(faults, n - 1);
      if before < n - 1 || faults(n - 1).Some? then before else n
  }

  lemma {:induction false} AppliedCountIsFirst<S, R>(faults: nat -> Option<Fault<S, R>>, n: nat)
    ensures AppliedCount(faults, n) <= n
    ensures forall i | 0 <= i < AppliedCount(faults, n) :: faults(i).None?
    ensures AppliedCount(faults, n) < n ==> faults(AppliedCount(faults, n)).Some?
  {
    if n > 0 {
      AppliedCountIsFirst(faults, n - 1);
    }
  }

  /** The state the apply loop leaves behind. */
  ghost function AppliedState<S, Id, E, R>(
    view: View<S, Id, E>, s: S, events: Log<Id, E>, faults: nat -> Option<Fault<S, R>>): S
  {
    var applied := AppliedCount(faults, |events|);
    AppliedCountIsFirst(faults, |events|);
    if applied == |events| then FoldLeft(view.apply, s, events)
    else faults(applied).value.left(FoldLeft(view.apply, s, events[..applied]))
  }

  method ApplyProjectionEvents<S, Id, E, R>(
    view: View<S, Id, E>, initial: S, events: Log<Id, E>, faults: nat -> Option<Fault<S, R>>)
    returns (state: S, applied: nat, last: Option<nat>, failure: Option<R>)
    ensures applied == AppliedCount(faults, |events|) <= |events|
    ensures last == Projection.LastApplied(events, applied)
    ensures state == AppliedState(view, initial, events, faults)
    ensures if applied == |events| then failure.None?
            else faults(applied).Some? && failure == Some(faults(applied).value.error)
  {
    state, applied, last, failure := initial, 0, None, None;
    AppliedCountIsFirst(faults, |events|);
    while applied < |events|
      invariant applied <= AppliedCount(faults, |events|)
      invariant last == Projection.LastApplied(events, applied)
      invariant state == FoldLeft(view.apply, initial, events[..applied])
    {
      if faults(applied).Some? {
        return faults(applied).value.left(state), applied, last, Some(faults(applied).value.error);
      }
      assert events[..applied + 1][..applied] == events[..applied];
      state := view.apply(state, events[applied]);
      if events[applied].sequence.Some? {
        last := events[applied].sequence;
      }
      applied := applied + 1;
    }
    assert events[..|events|] == events;
  }

  // ---- ending a batch ----

  /** The error a batch reports: a save failure joins a projection failure, other persist failures replace it. */
  function FinishBatch<R, T, C>(failure: Option<R>, flushed: Result<(), RunnerError<R, T, C>>)
    : (r: Result<(), RunnerError<R, T, C>>)
    ensures r.Ok? <==> failure.None? && flushed.Ok?
    ensures failure.Some? && flushed.Ok? ==> r == Err(ProjectionFailed(failure.value))
    ensures flushed.Err? && (failure.None? || !flushed.error.CheckpointFailed?) ==> r == flushed
    ensures failure.Some? && flushed.Err? && flushed.error.CheckpointFailed? ==>
      r == Err(PartialBatchFailure(failure.value, flushed.error.checkpoint))
  {
    match failure
    case None => flushed
    case Some(error) =>
      match flushed
      case Err(CheckpointFailed(c)) => Err(PartialBatchFailure(error, c))
      case Err(other) => Err(other)
      case Ok(_) => Err(ProjectionFailed(error))
  }

  /** One batch of the in-memory runner: always flush, then move the local checkpoint. */
  ghost function InMemoryBatch<S, Id, E, R, T, C>(
    view: View<S, Id, E>, before: Progress<S>, page: Log<Id, E>, size: nat, faults: BatchFaults<S, R, C>)
    : (Progress<S>, Result<Outcome, RunnerError<R, T, C>>)
  {
    var applied := AppliedCount(faults.apply, |page|);
    AppliedCountIsFirst(faults.apply, |page|);
    var state := AppliedState(view, before.state, page, faults.apply);
    match faults.flush
    case Some(fault) => (Progress(fault.left(state), before.checkpoint), Err(ProjectionFailed(fault.error)))
    case None =>
      var last := Projection.LastApplied(page, applied);
      (Progress(view.flush(state), if last.Some? then last else before.checkpoint),
       if applied < |page| then Err(ProjectionFailed(faults.apply(applied).value.error))
       else Ok(Outcome(applied, last, applied < size)))
  }

  /** One batch of the persisted runner: flush and save only if an applied event had a sequence. */
  ghost function PersistedBatch<S, Id, E, R, T, C>(
    view: View<S, Id, E>, before: Progress<S>, page: Log<Id, E>, size: nat, faults: BatchFaults<S, R, C>)
    : (Progress<S>, Result<Outcome, RunnerError<R, T, C>>)
  {
    var applied := AppliedCount(faults.apply, |page|);
    AppliedCountIsFirst(faults.apply, |page|);
    var state := AppliedState(view, before.state, page, faults.apply);
    var failure := if applied < |page| then Some(faults.apply(applied).value.error) else None;
    var last := Projection.LastApplied(page, applied);
    var flushed: Result<(), RunnerError<R, T, C>> :=
      if last.None? then Ok(())
      else if faults.flush.Some? then Err(ProjectionFailed(faults.flush.value.error))
      else if faults.save.Some? then Err(CheckpointFailed(faults.save.value.error))
      else Ok(());
    var after :=
      if last.None? then Progress(state, before.checkpoint)
      else if faults.flush.Some? then Progress(faults.flush.value.left(state), before.checkpoint)
      else if faults.save.Some? && !faults.save.value.reached then Progress(view.flush(state), before.checkpoint)
      else Progress(view.flush(state), Projection.Later(before.checkpoint, last.value));
    var finished := FinishBatch(failure, flushed);
    (after, if finished.Err? then Err(finished.error) else Ok(Outcome(applied, last, applied < size)))
  }

  // ---- what a batch reports ----

  /**
   * Whatever fails, the in-memory checkpoint moves only behind a flush, and only to the last
   * applied event; a failed flush leaves it where it was and is what is reported. Otherwise
   * the report is the first failed apply, or the whole page.
   */
  ghost predicate MemoryBounds<S, Id, E, R, T, C>(
    page: Log<Id, E>, size: nat, faults: BatchFaults<S, R, C>, before: Option<nat>, after: Option<nat>,
    result: Result<Outcome, RunnerError<R, T, C>>)
  {
    var applied := AppliedCount(faults.apply, |page|);
    && applied <= |page|
    && (faults.flush.Some? ==> after == before && result == Err(ProjectionFailed(faults.flush.value.error)))
    && (after != before ==> faults.flush.None? && after == Projection.LastApplied(page, applied))
    && (faults.flush.None? && Projection.LastApplied(page, applied).Some? ==>
          after == Projection.LastApplied(page, applied))
    && (faults.flush.None? && applied < |page| ==>
          faults.apply(applied).Some? && result == Err(ProjectionFailed(faults.apply(applied).value.error)))
    && (faults.flush.None? && applied == |page| ==>
          result == Ok(Outcome(|page|, Projection.LastApplied(page, |page|), |page| < size)))
  }

  lemma InMemoryCheckpointBounds<S, Id, E, R, T, C>(
    view: View<S, Id, E>, before: Progress<S>, page: Log<Id, E>, size: nat, faults: BatchFaults<S, R, C>)
    ensures var (after, result) := InMemoryBatch<S, Id, E, R, T, C>(view, before, page, size, faults);
      MemoryBounds(page, size, faults, before.checkpoint, after.checkpoint, result)
  {
    AppliedCountIsFirst(faults.apply, |page|);
  }

  /**
   * What the persisted batch reports. Flush and save are tried only if an applied event had
   * a sequence; a failed flush is reported first, then a failed save (together with a failed
   * apply, if there was one), then a failed apply, and the whole page otherwise.
   */
  lemma PersistedReports<S, Id, E, R, T, C>(
    view: View<S, Id, E>, before: Progress<S>, page: Log<Id, E>, size: nat, faults: BatchFaults<S, R, C>)
    ensures var (after, result) := PersistedBatch<S, Id, E, R, T, C>(view, before, page, size, faults);
      var applied := AppliedCount(faults.apply, |page|);
      && applied <= |page|
      && var persists := Projection.LastApplied(page, applied).Some?;
        && (applied < |page| ==> faults.apply(applied).Some?)
        && (persists && faults.flush.Some? ==> result == Err(ProjectionFailed(faults.flush.value.error)))
        && (persists && faults.flush.None? && faults.save.Some? && applied == |page| ==>
              result == Err(CheckpointFailed(faults.save.value.error)))
        && (persists && faults.flush.None? && faults.save.Some? && applied < |page| ==>
              result == Err(PartialBatchFailure(faults.apply(applied).value.error, faults.save.value.error)))
        && ((!persists || (faults.flush.None? && faults.save.None?)) && applied < |page| ==>
              result == Err(ProjectionFailed(faults.apply(applied).value.error)))
        && ((!persists || (faults.flush.None? && faults.save.None?)) && applied == |page| ==>
              result == Ok(Outcome(|page|, Projection.LastApplied(page, |page|), |page| < size)))
        && (persists && faults.flush.None? && (faults.save.None? || faults.save.value.reached) ==>
              after.checkpoint.Some? && after.checkpoint.value >= Projection.LastApplied(page, applied).value)
  {
    AppliedCountIsFirst(faults.apply, |page|);
  }

  // ---- staying in step with the feed ----

  /**
   * What a projection shows of its state, buffered work included, and how one event changes
   * what it shows. The state itself may hold more: buffers, connections, counters.
   */
  datatype Reading<!S, !V, !Id, !E> = Reading(show: S -> V, step: (V, Envelope<Id, E>) -> V)

  /** Applying an event changes what is shown by that event; flushing does not change it. */
  ghost predicate Reads<S(!new), V, Id(!new), E(!new)>(view: View<S, Id, E>, reading: Reading<S, V, Id, E>) {
    && (forall s, e :: reading.show(view.apply(s, e)) == reading.step(reading.show(s), e))
    && (forall s :: reading.show(view.flush(s)) == reading.show(s))
  }

  /** Failures a retry can recover from: a failed apply shows nothing, and flush and save succeed. */
  ghost predicate Recoverable<S(!new), V, Id, E, R, C>(
    reading: Reading<S, V, Id, E>, faults: BatchFaults<S, R, C>)
  {
    && faults.flush.None? && faults.save.None?
    && (forall i: nat, s | faults.apply(i).Some? :: reading.show(faults.apply(i).value.left(s)) == reading.show(s))
  }

  /** The checkpoint behind the first `n` of the events `later` than `from`. */
  function CheckpointBehind<Id, E>(from: Option<nat>, later: Log<Id, E>, n: nat): Option<nat>
    requires n <= |later|
  {
    if n == 0 then from else later[n - 1].sequence
  }

  /**
   * From `start`, the projection went on by exactly the first `n` events after its
   * checkpoint, each applied once and in order, and its checkpoint is right behind them.
   */
  ghost predicate InStep<S, V, Id, E>(
    reading: Reading<S, V, Id, E>, start: Progress<S>, log: Log<Id, E>, n: nat, now: Progress<S>)
  {
    var later := After(log, start.checkpoint);
    && n <= |later|
    && reading.show(now.state) == FoldLeft(reading.step, reading.show(start.state), later[..n])
    && now.checkpoint == CheckpointBehind(start.checkpoint, later, n)
  }

  /** Behind the first `n` events of what was left to read, the rest is left to read. */
  lemma AfterMoves<Id, E>(log: Log<Id, E>, from: Option<nat>, n: nat)
    requires FeedOrdered(log) && n <= |After(log, from)|
    ensures After(log, CheckpointBehind(from, After(log, from), n)) == After(log, from)[n..]
    ensures forall i | 0 <= i < |After(log, from)| :: IsAfter(After(log, from)[i], from)
  {
    var start := AfterIsTail(log, from);
    var later := After(log, from);
    var checkpoint := CheckpointBehind(from, later, n);
    if n > 0 {
      assert checkpoint == log[start + n - 1].sequence;
      forall i | 0 <= i < |log| ensures IsAfter(log[i], checkpoint) <==> i >= start + n {
        if i < start + n - 1 {
          assert log[i].sequence.value < log[start + n - 1].sequence.value;
        }
      }
      FilterIsTail(log, (e: Envelope<Id, E>) => IsAfter(e, checkpoint), start + n);
    }
    assert forall i | 0 <= i < |later| :: later[i] == log[start + i];
  }

  /** Going on twice is going on once by both. */
  lemma InStepTwice<S, V, Id, E>(
    reading: Reading<S, V, Id, E>, start: Progress<S>, log: Log<Id, E>, n: nat, mid: Progress<S>, m: nat,
    now: Progress<S>)
    requires FeedOrdered(log)
    requires InStep(reading, start, log, n, mid) && InStep(reading, mid, log, m, now)
    ensures InStep(reading, start, log, n + m, now)
    ensures |After(log, start.checkpoint)| == n + |After(log, mid.checkpoint)|
  {
    hide FoldLeft, After, FeedOrdered;
    AfterMoves(log, start.checkpoint, n);
    var later := After(log, start.checkpoint);
    assert later[..n + m] == later[..n] + later[n..][..m];
    FoldLeftConcat(reading.step, reading.show(start.state), later[..n], later[n..][..m]);
  }

  /** In a feed every event has a sequence, so the last applied one gives the checkpoint. */
  lemma LastAppliedInFeed<Id, E>(log: Log<Id, E>, from: Option<nat>, page: Log<Id, E>, applied: nat)
    requires FeedOrdered(log) && applied <= |page| <= |After(log, from)|
    requires page == After(log, from)[..|page|]
    ensures var last := Projection.LastApplied(page, applied);
      && (last.Some? <==> applied > 0)
      && (if last.Some? then last else from) == CheckpointBehind(from, After(log, from), applied)
      && (last.Some? && from.Some? ==> last.value > from.value)
  {
    AfterMoves(log, from, 0);
    if applied > 0 {
      assert page[applied - 1] == After(log, from)[applied - 1];
    }
  }

  lemma {:induction false} ShowsFold<S(!new), V, Id(!new), E(!new)>(
    view: View<S, Id, E>, reading: Reading<S, V, Id, E>, s: S, events: Log<Id, E>)
    requires Reads(view, reading)
    ensures reading.show(FoldLeft(view.apply, s, events)) == FoldLeft(reading.step, reading.show(s), events)
  {
    if events != [] {
      ShowsFold(view, reading, s, events[..|events| - 1]);
    }
  }

  /** What the apply loop shows, if failed applies show nothing: the fold of what was applied. */
  lemma ShownAfterApply<S(!new), V, Id(!new), E(!new), R, C>(
    view: View<S, Id, E>, reading: Reading<S, V, Id, E>, s: S, page: Log<Id, E>, faults: BatchFaults<S, R, C>)
    requires Reads(view, reading) && Recoverable(reading, faults)
    ensures AppliedCount(faults.apply, |page|) <= |page|
    ensures reading.show(AppliedState(view, s, page, faults.apply)) ==
            FoldLeft(reading.step, reading.show(s), page[..AppliedCount(faults.apply, |page|)])
  {
    hide FoldLeft;
    var applied := AppliedCount(faults.apply, |page|);
    AppliedCountIsFirst(faults.apply, |page|);
    assert page[..|page|] == page;
    ShowsFold(view, reading, s, page[..applied]);
  }

  /** A page of a served feed is the front of what is left to read. */
  lemma PageIsFront<Id, E>(later: Log<Id, E>, size: nat)
    ensures |Take(later, size)| <= |later| && Take(later, size) == later[..|Take(later, size)|]
    ensures |Take(later, size)| < size ==> |Take(later, size)| == |later|
  {
  }

  lemma FrontOfFront<Id, E>(later: Log<Id, E>, page: Log<Id, E>, applied: nat)
    requires applied <= |page| <= |later| && page == later[..|page|]
    ensures page[..applied] == later[..applied]
  {
  }

  /**
   * A recoverable in-memory batch goes on by exactly the events it applied, from any state
   * and checkpoint: a retry after a failure half way resumes with no gap and no duplicate.
   */
  lemma InMemoryBatchStaysInStep<S(!new), V, Id(!new), E(!new), R, T, C>(
    view: View<S, Id, E>, reading: Reading<S, V, Id, E>, log: Log<Id, E>, before: Progress<S>, page: Log<Id, E>,
    size: nat, faults: BatchFaults<S, R, C>)
    requires FeedOrdered(log) && Reads(view, reading) && Recoverable(reading, faults)
    requires page == Take(After(log, before.checkpoint), size)
    ensures InStep(reading, before, log, AppliedCount(faults.apply, |page|),
                   InMemoryBatch<S, Id, E, R, T, C>(view, before, page, size, faults).0)
  {
    hide FoldLeft, AppliedCount, AppliedState, Projection.LastApplied, FeedOrdered, After, CheckpointBehind;
    PageIsFront(After(log, before.checkpoint), size);
    ShownAfterApply(view, reading, before.state, page, faults);
    LastAppliedInFeed(log, before.checkpoint, page, AppliedCount(faults.apply, |page|));
    FrontOfFront(After(log, before.checkpoint), page, AppliedCount(faults.apply, |page|));
  }

  /** The same for the persisted runner. */
  lemma PersistedBatchStaysInStep<S(!new), V, Id(!new), E(!new), R, T, C>(
    view: View<S, Id, E>, reading: Reading<S, V, Id, E>, log: Log<Id, E>, before: Progress<S>, page: Log<Id, E>,
    size: nat, faults: BatchFaults<S, R, C>)
    requires FeedOrdered(log) && Reads(view, reading) && Recoverable(reading, faults)
    requires page == Take(After(log, before.checkpoint), size)
    ensures InStep(reading, before, log, AppliedCount(faults.apply, |page|),
                   PersistedBatch<S, Id, E, R, T, C>(view, before, page, size, faults).0)
  {
    hide FoldLeft, AppliedCount, AppliedState, Projection.LastApplied, FeedOrdered, After, CheckpointBehind;
    PageIsFront(After(log, before.checkpoint), size);
    ShownAfterApply(view, reading, before.state, page, faults);
    LastAppliedInFeed(log, before.checkpoint, page, AppliedCount(faults.apply, |page|));
    FrontOfFront(After(log, before.checkpoint), page, AppliedCount(faults.apply, |page|));
  }

  /** Whatever fails, the stored checkpoint only moves forward, and never past what was applied and flushed. */
  lemma PersistedCheckpointBounds<S, Id, E, R, T, C>(
    view: View<S, Id, E>, before: Progress<S>, page: Log<Id, E>, size: nat, faults: BatchFaults<S, R, C>)
    ensures var (after, result) := PersistedBatch<S, Id, E, R, T, C>(view, before, page, size, faults);
      && AppliedCount(faults.apply, |page|) <= |page|
      && (before.checkpoint.Some? ==> after.checkpoint.Some? && after.checkpoint.value >= before.checkpoint.value)
      && (after.checkpoint != before.checkpoint ==>
            faults.flush.None? && after.checkpoint == Projection.LastApplied(page, AppliedCount(faults.apply, |page|)))
      && (result.Ok? ==> forall i | 0 <= i < |page| :: faults.apply(i).None?)
  {
    AppliedCountIsFirst(faults.apply, |page|);
  }

  /** The store serves `log`, the reading fits the projection, and every failure is recoverable. */
  ghost predicate CanCatchUp<S(!new), V, Id(!new), E(!new), R, T(!new), C>(
    view: View<S, Id, E>, reading: Reading<S, V, Id, E>, feed: Feed<Id, E, T>, faults: nat -> BatchFaults<S, R, C>,
    log: Log<Id, E>)
  {
    && FeedOrdered(log) && Serves(feed, log)
    && Reads(view, reading)
    && (forall call: nat :: Recoverable(reading, faults(call)))
  }

  /** Where one batch without failures ends on a served feed: at the end of the log, or further on. */
  lemma BatchAdvances<S, Id, E, R, T, C>(
    view: View<S, Id, E>, log: Log<Id, E>, before: Progress<S>, size: nat, faults: BatchFaults<S, R, C>,
    outcome: Outcome)
    requires FeedOrdered(log) && size > 0
    requires var page := Take(After(log, before.checkpoint), size);
      InMemoryBatch<S, Id, E, R, T, C>(view, before, page, size, faults).1 == Ok(outcome)
    ensures outcome.applied == AppliedCount(faults.apply, |Take(After(log, before.checkpoint), size)|)
    ensures outcome.applied <= |After(log, before.checkpoint)|
    ensures outcome.caughtUp ==> outcome.applied == |After(log, before.checkpoint)|
    ensures !outcome.caughtUp ==>
      && outcome.lastSequence.Some?
      && outcome.lastSequence == CheckpointBehind(before.checkpoint, After(log, before.checkpoint), outcome.applied)
      && (before.checkpoint.Some? ==> outcome.lastSequence.value > before.checkpoint.value)
  {
    hide FeedOrdered, After, Take, AppliedState, Projection.LastApplied;
    var page := Take(After(log, before.checkpoint), size);
    AppliedCountIsFirst(faults.apply, |page|);
    PageIsFront(After(log, before.checkpoint), size);
    LastAppliedInFeed(log, before.checkpoint, page, |page|);
  }

  /** A batch fails only if something in it failed. */
  lemma BatchSucceeds<S, Id, E, R, T, C>(
    view: View<S, Id, E>, before: Progress<S>, page: Log<Id, E>, size: nat, faults: BatchFaults<S, R, C>)
    requires faults.flush.None?
    ensures InMemoryBatch<S, Id, E, R, T, C>(view, before, page, size, faults).1.Err? ==>
      exists i: nat :: i < |page| && faults.apply(i).Some?
  {
    AppliedCountIsFirst(faults.apply, |page|);
  }

  /** One batch of a catch-up on a served feed, from the loop's point of view. */
  lemma HealthyBatch<S(!new), V, Id(!new), E(!new), R, T, C>(
    view: View<S, Id, E>, reading: Reading<S, V, Id, E>, faults: BatchFaults<S, R, C>, log: Log<Id, E>,
    start: Progress<S>, n: nat, before: Progress<S>, size: nat, after: Progress<S>,
    outcome: Result<Outcome, RunnerError<R, T, C>>)
    returns (reached: nat)
    requires FeedOrdered(log) && Recoverable(reading, faults) && size > 0
    requires InStep(reading, start, log, n, before)
    requires var page := Take(After(log, before.checkpoint), size);
      && InStep(reading, before, log, AppliedCount(faults.apply, |page|), after)
      && outcome == InMemoryBatch(view, before, page, size, faults).1
    ensures InStep(reading, start, log, reached, after)
    ensures outcome.Ok? ==> reached == n + outcome.value.applied
    ensures outcome.Ok? && outcome.value.caughtUp ==> reached == |After(log, start.checkpoint)|
    ensures outcome.Ok? && !outcome.value.caughtUp ==>
      && outcome.value.lastSequence.Some? && outcome.value.lastSequence == after.checkpoint
      && (before.checkpoint.Some? ==> after.checkpoint.value > before.checkpoint.value)
    ensures outcome.Err? ==> exists i: nat :: faults.apply(i).Some?
  {
    hide FoldLeft, After, Take, FeedOrdered, AppliedState;
    var page := Take(After(log, before.checkpoint), size);
    var applied := AppliedCount(faults.apply, |page|);
    reached := n + applied;
    InStepTwice(reading, start, log, n, before, applied, after);
    hide InMemoryBatch;
    match outcome
    case Ok(o) => BatchAdvances<S, Id, E, R, T, C>(view, log, before, size, faults, o);
    case Err(_) => BatchSucceeds<S, Id, E, R, T, C>(view, before, page, size, faults);
  }

  lemma {:induction false} LastBounded<Id, E>(page: Log<Id, E>, applied: nat)
    requires BoundedPage(page) && applied <= |page|
    ensures Projection.LastApplied(page, applied).Some? ==> Projection.LastApplied(page, applied).value <= U64_MAX
  {
    if applied > 0 && page[applied - 1].sequence.None? {
      LastBounded(page, applied - 1);
    }
  }

  /** A batch of a 64-bit store reports a 64-bit position. */
  lemma BoundedLast<S, Id, E, R, T, C>(
    view: View<S, Id, E>, before: Progress<S>, page: Log<Id, E>, size: nat, faults: BatchFaults<S, R, C>)
    requires BoundedPage(page)
    ensures var (_, outcome) := InMemoryBatch<S, Id, E, R, T, C>(view, before, page, size, faults);
            outcome.Ok? && outcome.value.lastSequence.Some? ==> outcome.value.lastSequence.value <= U64_MAX
    ensures var (_, outcome) := PersistedBatch<S, Id, E, R, T, C>(view, before, page, size, faults);
            outcome.Ok? && outcome.value.lastSequence.Some? ==> outcome.value.lastSequence.value <= U64_MAX
  {
    AppliedCountIsFirst(faults.apply, |page|);
    LastBounded(page, AppliedCount(faults.apply, |page|));
  }

  /** Without persistence failures the persisted batch reports what the in-memory batch reports. */
  lemma SameReport<S, Id, E, R, T, C>(
    view: View<S, Id, E>, before: Progress<S>, page: Log<Id, E>, size: nat, faults: BatchFaults<S, R, C>)
    requires faults.flush.None? && faults.save.None?
    ensures PersistedBatch<S, Id, E, R, T, C>(view, before, page, size, faults).1 ==
            InMemoryBatch<S, Id, E, R, T, C>(view, before, page, size, faults).1
  {
    AppliedCountIsFirst(faults.apply, |page|);
  }

  /** The guard of the catch-up loop: a full batch that moved the feed position asks for another. */
  predicate BatchAdvanced(outcome: Outcome, position: Option<nat>) {
    && !outcome.caughtUp && outcome.lastSequence.Some?
    && (position.None? || outcome.lastSequence.value > position.value)
  }

  /** One batch as the catch-up loop sees it: by its number and the progress it starts from. */
  type Batches<!S, +X> = (nat, Progress<S>) -> (Progress<S>, Result<Outcome, X>)

  /** The catch-up loop between batches. */
  datatype Loop<+S> = Loop(progress: Progress<S>, position: Option<nat>, applied: nat)

  /** The loop after `n` batches, if each of them succeeded and asked for the next. */
  ghost function LoopAfter<S, X>(batches: Batches<S, X>, start: Progress<S>, n: nat): Option<Loop<S>> {
    if n == 0 then Some(Loop(start, None, 0)) else
      match LoopAfter(batches, start, n - 1)
      case None => None
      case Some(before) =>
        match batches(n - 1, before.progress)
        case (_, Err(_)) => None
        case (progress, Ok(outcome)) =>
          if BatchAdvanced(outcome, before.position)
          then Some(Loop(progress, outcome.lastSequence, before.applied + outcome.applied)) else None
  }

  /**
   * How a catch-up ends, against any stores and with any failures: `n` batches succeed and
   * ask for more; the next one fails, which is the answer, or asks for no other, and the
   * answer is what all of them applied.
   */
  ghost predicate CatchUpEnds<S, X>(
    batches: Batches<S, X>, start: Progress<S>, n: nat, end: Progress<S>, result: Result<nat, X>)
  {
    LoopAfter(batches, start, n).Some? &&
    var last := LoopAfter(batches, start, n).value;
    match batches(n, last.progress)
    case (progress, Err(error)) => end == progress && result == Err(error)
    case (progress, Ok(outcome)) =>
      && end == progress && result == Ok(last.applied + outcome.applied)
      && (outcome.caughtUp || outcome.lastSequence.None?
          || (last.position.Some? && outcome.lastSequence.value <= last.position.value))
  }

  lemma LoopGoesOn<S, X>(batches: Batches<S, X>, start: Progress<S>, n: nat, before: Loop<S>)
    requires LoopAfter(batches, start, n) == Some(before)
    ensures var (progress, result) := batches(n, before.progress);
      match result
      case Err(error) => CatchUpEnds(batches, start, n, progress, Err(error))
      case Ok(outcome) =>
        if BatchAdvanced(outcome, before.position)
        then LoopAfter(batches, start, n + 1) ==
             Some(Loop(progress, outcome.lastSequence, before.applied + outcome.applied))
        else CatchUpEnds(batches, start, n, progress, Ok(before.applied + outcome.applied))
  {
  }

  lemma LoopCameFrom<S, X>(batches: Batches<S, X>, start: Progress<S>, n: nat)
    requires n > 0 && LoopAfter(batches, start, n).Some?
    ensures LoopAfter(batches, start, n - 1).Some?
    ensures var before := LoopAfter(batches, start, n - 1).value;
      var (progress, result) := batches(n - 1, before.progress);
      && result.Ok? && BatchAdvanced(result.value, before.position)
      && LoopAfter(batches, start, n) ==
         Some(Loop(progress, result.value.lastSequence, before.applied + result.value.applied))
  {
  }

  /** One batch of the in-memory runner: a failed load changes nothing and is reported. */
  ghost function MemoryBatch<S, Id, E, R, T, C>(
    view: View<S, Id, E>, feed: Feed<Id, E, T>, size: nat, faults: BatchFaults<S, R, C>, call: nat, before: Progress<S>)
    : (Progress<S>, Result<Outcome, RunnerError<R, T, C>>)
  {
    match feed(call, before.checkpoint, size)
    case Err(error) => (before, Err(StoreFailed(error)))
    case Ok(page) => InMemoryBatch(view, before, page, size, faults)
  }

  ghost function MemoryBatches<S, Id, E, R, T, C>(
    view: View<S, Id, E>, feed: Feed<Id, E, T>, size: nat, faults: nat -> BatchFaults<S, R, C>)
    : Batches<S, RunnerError<R, T, C>>
  {
    (call: nat, before: Progress<S>) => MemoryBatch(view, feed, size, faults(call), call, before)
  }

  /** One batch of the persisted runner: the checkpoint is loaded from its store. */
  ghost function StoredBatch<S, Id, E, R, T, C>(
    view: View<S, Id, E>, feed: Feed<Id, E, T>, size: nat, load: Option<C>, faults: BatchFaults<S, R, C>,
    call: nat, found: Progress<S>)
    : (Progress<S>, Result<Outcome, RunnerError<R, T, C>>)
  {
    if load.Some? then (found, Err(CheckpointFailed(load.value))) else
      match feed(call, found.checkpoint, size)
      case Err(error) => (found, Err(StoreFailed(error)))
      case Ok(page) => PersistedBatch(view, found, page, size, faults)
  }

  /** The progress a batch finds: the state as it was, the checkpoint as somebody may have overwritten it. */
  function Found<S>(overwrite: Option<Option<nat>>, before: Progress<S>): Progress<S> {
    if overwrite.Some? then Progress(before.state, overwrite.value) else before
  }

  ghost function StoredBatches<S, Id, E, R, T, C>(
    view: View<S, Id, E>, feed: Feed<Id, E, T>, size: nat, loads: nat -> Option<C>,
    overwrites: nat -> Option<Option<nat>>, faults: nat -> BatchFaults<S, R, C>)
    : Batches<S, RunnerError<R, T, C>>
  {
    (call: nat, before: Progress<S>) =>
      StoredBatch(view, feed, size, loads(call), faults(call), call, Found(overwrites(call), before))
  }

  lemma BoundedMemoryBatch<S, Id(!new), E(!new), R, T(!new), C>(
    view: View<S, Id, E>, feed: Feed<Id, E, T>, size: nat, faults: BatchFaults<S, R, C>, call: nat, before: Progress<S>)
    requires SixtyFourBit(feed)
    ensures var outcome := MemoryBatch(view, feed, size, faults, call, before).1;
            outcome.Ok? && outcome.value.lastSequence.Some? ==> outcome.value.lastSequence.value <= U64_MAX
  {
    if feed(call, before.checkpoint, size).Ok? {
      BoundedLast<S, Id, E, R, T, C>(view, before, feed(call, before.checkpoint, size).value, size, faults);
    }
    hide InMemoryBatch;
  }

  lemma BoundedStoredBatch<S, Id(!new), E(!new), R, T(!new), C>(
    view: View<S, Id, E>, feed: Feed<Id, E, T>, size: nat, load: Option<C>, faults: BatchFaults<S, R, C>,
    call: nat, found: Progress<S>)
    requires SixtyFourBit(feed)
    ensures var outcome := StoredBatch(view, feed, size, load, faults, call, found).1;
            outcome.Ok? && outcome.value.lastSequence.Some? ==> outcome.value.lastSequence.value <= U64_MAX
  {
    if feed(call, found.checkpoint, size).Ok? {
      BoundedLast<S, Id, E, R, T, C>(view, found, feed(call, found.checkpoint, size).value, size, faults);
    }
    hide PersistedBatch;
  }

  // ---- catching up with a served feed ----

  /** No checkpoint load and no apply fails. */
  ghost predicate NothingFails<S, R, C>(loads: nat -> Option<C>, faults: nat -> BatchFaults<S, R, C>) {
    && (forall call: nat :: loads(call).None?)
    && (forall call: nat, i: nat :: faults(call).apply(i).None?)
  }

  /**
   * The projection went on by the first `reached` later events, once each and in order, with
   * its checkpoint right behind them; success means by all of them, and their number.
   */
  ghost predicate CaughtUp<S, V, Id, E, X>(
    reading: Reading<S, V, Id, E>, log: Log<Id, E>, start: Progress<S>, end: Progress<S>, reached: nat,
    result: Result<nat, X>, nothingFails: bool)
  {
    && InStep(reading, start, log, reached, end)
    && (result.Ok? ==> reached == |After(log, start.checkpoint)| == result.value)
    && (nothingFails ==> result.Ok?)
  }

  /** Nobody else writes the checkpoint during the catch-up. */
  ghost predicate LeftAlone(overwrites: nat -> Option<Option<nat>>) {
    forall call: nat :: overwrites(call).None?
  }

  /** A batch on a served feed goes on by the events it applied; a failed checkpoint load changes nothing. */
  ghost predicate GoesOn<S, V, Id, E, R, T, C>(
    view: View<S, Id, E>, reading: Reading<S, V, Id, E>, log: Log<Id, E>, size: nat, load: Option<C>,
    faults: BatchFaults<S, R, C>, before: Progress<S>,
    batch: (Progress<S>, Result<Outcome, RunnerError<R, T, C>>))
  {
    if load.Some? then batch == (before, Err(CheckpointFailed(load.value))) else
      var page := Take(After(log, before.checkpoint), size);
      && InStep(reading, before, log, AppliedCount(faults.apply, |page|), batch.0)
      && batch.1 == InMemoryBatch(view, before, page, size, faults).1
  }

  /** Every batch goes on by what it applies, from wherever it starts. */
  ghost predicate AllGoOn<S(!new), V, Id, E, R, T, C>(
    view: View<S, Id, E>, reading: Reading<S, V, Id, E>, log: Log<Id, E>, size: nat, loads: nat -> Option<C>,
    faults: nat -> BatchFaults<S, R, C>, batches: Batches<S, RunnerError<R, T, C>>)
  {
    && FeedOrdered(log) && size > 0
    && (forall call: nat :: Recoverable(reading, faults(call)))
    && (forall call: nat, before ::
          GoesOn(view, reading, log, size, loads(call), faults(call), before, batches(call, before)))
  }

  lemma MemoryGoesOn<S(!new), V, Id(!new), E(!new), R, T(!new), C>(
    view: View<S, Id, E>, reading: Reading<S, V, Id, E>, feed: Feed<Id, E, T>, faults: nat -> BatchFaults<S, R, C>,
    log: Log<Id, E>, size: nat, call: nat, before: Progress<S>)
    requires CanCatchUp(view, reading, feed, faults, log)
    ensures GoesOn(view, reading, log, size, None, faults(call), before,
                   MemoryBatches(view, feed, size, faults)(call, before))
  {
    hide InMemoryBatch, InStep, Recoverable, FeedOrdered, After, Take;
    var page := Take(After(log, before.checkpoint), size);
    assert feed(call, before.checkpoint, size) == Ok(page);
    assert Recoverable(reading, faults(call));
    InMemoryBatchStaysInStep<S, V, Id, E, R, T, C>(view, reading, log, before, page, size, faults(call));
    assert MemoryBatches(view, feed, size, faults)(call, before)
        == InMemoryBatch<S, Id, E, R, T, C>(view, before, page, size, faults(call));
  }

  lemma StoredGoesOn<S(!new), V, Id(!new), E(!new), R, T(!new), C>(
    view: View<S, Id, E>, reading: Reading<S, V, Id, E>, feed: Feed<Id, E, T>, loads: nat -> Option<C>,
    overwrites: nat -> Option<Option<nat>>, faults: nat -> BatchFaults<S, R, C>, log: Log<Id, E>, size: nat,
    call: nat, before: Progress<S>)
    requires CanCatchUp(view, reading, feed, faults, log) && LeftAlone(overwrites)
    ensures GoesOn(view, reading, log, size, loads(call), faults(call), before,
                   StoredBatches(view, feed, size, loads, overwrites, faults)(call, before))
  {
    var page := Take(After(log, before.checkpoint), size);
    assert Recoverable(reading, faults(call));
    SameReport<S, Id, E, R, T, C>(view, before, page, size, faults(call));
    hide InMemoryBatch, PersistedBatch, InStep, Recoverable, FeedOrdered, After, Take;
    assert feed(call, before.checkpoint, size) == Ok(page);
    PersistedBatchStaysInStep<S, V, Id, E, R, T, C>(view, reading, log, before, page, size, faults(call));
    assert Found(overwrites(call), before) == before;
    assert loads(call).None? ==>
      StoredBatches(view, feed, size, loads, overwrites, faults)(call, before)
        == PersistedBatch<S, Id, E, R, T, C>(view, before, page, size, faults(call));
  }

  lemma HealthyStep<S(!new), V, Id(!new), E(!new), R, T, C>(
    view: View<S, Id, E>, reading: Reading<S, V, Id, E>, log: Log<Id, E>, size: nat, loads: nat -> Option<C>,
    faults: nat -> BatchFaults<S, R, C>, batches: Batches<S, RunnerError<R, T, C>>, start: Progress<S>, n: nat,
    before: Loop<S>, after: Progress<S>, outcome: Outcome)
    requires AllGoOn(view, reading, log, size, loads, faults, batches)
    requires InStep(reading, start, log, before.applied, before.progress)
    requires batches(n, before.progress) == (after, Ok(outcome)) && BatchAdvanced(outcome, before.position)
    ensures InStep(reading, start, log, before.applied + outcome.applied, after)
    ensures outcome.lastSequence == after.checkpoint
  {
    assert GoesOn(view, reading, log, size, loads(n), faults(n), before.progress, batches(n, before.progress));
    assert Recoverable(reading, faults(n));
    hide AllGoOn, InMemoryBatch, InStep, FoldLeft, Recoverable, FeedOrdered;
    var result: Result<Outcome, RunnerError<R, T, C>> := Ok(outcome);
    var reached := HealthyBatch(
      view, reading, faults(n), log, start, before.applied, before.progress, size, after, result);
  }

  lemma NotYet<S, V, Id, E>(reading: Reading<S, V, Id, E>, log: Log<Id, E>, start: Progress<S>)
    ensures InStep(reading, start, log, 0, start)
  {
    assert After(log, start.checkpoint)[..0] == [];
  }

  /** Batches that each go on by what they applied have together gone on by all of it. */
  lemma {:induction false} HealthyLoop<S(!new), V, Id(!new), E(!new), R, T, C>(
    view: View<S, Id, E>, reading: Reading<S, V, Id, E>, log: Log<Id, E>, size: nat, loads: nat -> Option<C>,
    faults: nat -> BatchFaults<S, R, C>, batches: Batches<S, RunnerError<R, T, C>>, start: Progress<S>, n: nat)
    requires AllGoOn(view, reading, log, size, loads, faults, batches)
    requires LoopAfter(batches, start, n).Some?
    ensures var loop := LoopAfter(batches, start, n).value;
      && InStep(reading, start, log, loop.applied, loop.progress)
      && (loop.position.Some? ==> loop.position == loop.progress.checkpoint)
  {
    hide AllGoOn, InStep, BatchAdvanced;
    if n == 0 {
      NotYet(reading, log, start);
    } else {
      LoopCameFrom(batches, start, n);
      hide LoopAfter;
      HealthyLoop(view, reading, log, size, loads, faults, batches, start, n - 1);
      var before := LoopAfter(batches, start, n - 1).value;
      var (after, result) := batches(n - 1, before.progress);
      HealthyStep(
        view, reading, log, size, loads, faults, batches, start, n - 1, before, after, result.value);
    }
  }

  /**
   * A catch-up over such batches shows the fold of the first later events, each once, with
   * the checkpoint right behind them; success means all of them, counted right.
   */
  lemma HealthyCatchUp<S(!new), V, Id(!new), E(!new), R, T, C>(
    view: View<S, Id, E>, reading: Reading<S, V, Id, E>, log: Log<Id, E>, size: nat, loads: nat -> Option<C>,
    faults: nat -> BatchFaults<S, R, C>, batches: Batches<S, RunnerError<R, T, C>>, start: Progress<S>, n: nat,
    end: Progress<S>, result: Result<nat, RunnerError<R, T, C>>)
    returns (reached: nat)
    requires AllGoOn(view, reading, log, size, loads, faults, batches)
    requires CatchUpEnds(batches, start, n, end, result)
    ensures CaughtUp(reading, log, start, end, reached, result, NothingFails(loads, faults))
  {
    HealthyLoop(view, reading, log, size, loads, faults, batches, start, n);
    var last := LoopAfter(batches, start, n).value;
    assert GoesOn(view, reading, log, size, loads(n), faults(n), last.progress, batches(n, last.progress));
    assert Recoverable(reading, faults(n));
    hide AllGoOn, InMemoryBatch, InStep, LoopAfter, FoldLeft, Recoverable, FeedOrdered;
    var (after, outcome) := batches(n, last.progress);
    if loads(n).Some? {
      reached := last.applied;
    } else {
      reached := HealthyBatch(
        view, reading, faults(n), log, start, last.applied, last.progress, size, after, outcome);
    }
  }

  lemma MemoryCatchUp<S(!new), V, Id(!new), E(!new), R, T(!new), C>(
    view: View<S, Id, E>, reading: Reading<S, V, Id, E>, feed: Feed<Id, E, T>, faults: nat -> BatchFaults<S, R, C>,
    log: Log<Id, E>, size: nat, start: Progress<S>, n: nat, end: Progress<S>,
    result: Result<nat, RunnerError<R, T, C>>)
    returns (reached: nat)
    requires size > 0 && CatchUpEnds(MemoryBatches(view, feed, size, faults), start, n, end, result)
    ensures CanCatchUp(view, reading, feed, faults, log) ==>
      CaughtUp(reading, log, start, end, reached, result, NothingFails((call: nat) => None, faults))
  {
    reached := 0;
    if CanCatchUp(view, reading, feed, faults, log) {
      forall call: nat, before ensures
        GoesOn(view, reading, log, size, None, faults(call), before,
               MemoryBatches(view, feed, size, faults)(call, before))
      {
        MemoryGoesOn(view, reading, feed, faults, log, size, call, before);
      }
      hide GoesOn, CatchUpEnds, InStep, MemoryBatches, CaughtUp;
      reached := HealthyCatchUp(
        view, reading, log, size, (call: nat) => None, faults, MemoryBatches(view, feed, size, faults),
        start, n, end, result);
    }
  }

  lemma StoredCatchUp<S(!new), V, Id(!new), E(!new), R, T(!new), C>(
    view: View<S, Id, E>, reading: Reading<S, V, Id, E>, feed: Feed<Id, E, T>, loads: nat -> Option<C>,
    overwrites: nat -> Option<Option<nat>>, faults: nat -> BatchFaults<S, R, C>, log: Log<Id, E>, size: nat,
    start: Progress<S>, n: nat, end: Progress<S>, result: Result<nat, RunnerError<R, T, C>>)
    returns (reached: nat)
    requires size > 0
    requires CatchUpEnds(StoredBatches(view, feed, size, loads, overwrites, faults), start, n, end, result)
    ensures CanCatchUp(view, reading, feed, faults, log) && LeftAlone(overwrites) ==>
      CaughtUp(reading, log, start, end, reached, result, NothingFails(loads, faults))
  {
    reached := 0;
    var batches := StoredBatches(view, feed, size, loads, overwrites, faults);
    if CanCatchUp(view, reading, feed, faults, log) && LeftAlone(overwrites) {
      forall call: nat, before
        ensures GoesOn(view, reading, log, size, loads(call), faults(call), before, batches(call, before))
      {
        StoredGoesOn(view, reading, feed, loads, overwrites, faults, log, size, call, before);
      }
      hide GoesOn, CatchUpEnds, InStep, StoredBatches, CaughtUp;
      reached := HealthyCatchUp(view, reading, log, size, loads, faults, batches, start, n, end, result);
    }
  }

  class InMemoryProjectionRunner<S(!new), Id(!new), E(!new)> {
    const view: View<S, Id, E>
    var projection: S
    var checkpoint: Option<nat>

    constructor (view: View<S, Id, E>, projection: S)
      ensures this.view == view && this.projection == projection && checkpoint == None
    {
      this.view, this.projection, this.checkpoint := view, projection, None;
    }

    ghost function Now(): Progress<S>
      reads this
    {
      Progress(projection, checkpoint)
    }

    method FinishInMemoryBatch<R, T, C>(
      ghost before: Progress<S>, page: Log<Id, E>, size: nat, faults: BatchFaults<S, R, C>,
      applied: nat, last: Option<nat>, failure: Option<R>)
      returns (result: Result<Outcome, RunnerError<R, T, C>>)
      requires applied == AppliedCount(faults.apply, |page|) <= |page|
      requires last == Projection.LastApplied(page, applied)
      requires projection == AppliedState(view, before.state, page, faults.apply) && checkpoint == before.checkpoint
      requires if applied == |page| then failure.None?
               else faults.apply(applied).Some? && failure == Some(faults.apply(applied).value.error)
      modifies this
      ensures (Now(), result) == InMemoryBatch(view, before, page, size, faults)
      ensures faults.flush.Some? ==>
        checkpoint == old(checkpoint) && result == Err(ProjectionFailed(faults.flush.value.error))
      ensures checkpoint == if faults.flush.None? && last.Some? then last else old(checkpoint)
    {
      if faults.flush.Some? {
        projection := faults.flush.value.left(projection);
        return Err(ProjectionFailed(faults.flush.value.error));
      }
      projection := view.flush(projection);
      if last.Some? {
        checkpoint := last;
      }
      if failure.Some? {
        return Err(ProjectionFailed(failure.value));
      }
      return Ok(Outcome(applied, last, applied < size));
    }

    method RunBatch<R, T(!new), C>(feed: Feed<Id, E, T>, call: nat, size: nat, faults: BatchFaults<S, R, C>)
      returns (result: Result<Outcome, RunnerError<R, T, C>>)
      modifies this
      ensures (Now(), result) == MemoryBatch(view, feed, size, faults, call, old(Now()))
      ensures feed(call, old(checkpoint), size).Err? ==>
        Now() == old(Now()) && result == Err(StoreFailed(feed(call, old(checkpoint), size).error))
      ensures feed(call, old(checkpoint), size).Ok? ==>
        MemoryBounds(feed(call, old(checkpoint), size).value, size, faults, old(checkpoint), checkpoint, result)
    {
      var loaded := feed(call, checkpoint, size);
      if loaded.Err? {
        return Err(StoreFailed(loaded.error));
      }
      ghost var before := Now();
      var state, applied, last, failure := ApplyProjectionEvents(view, projection, loaded.value, faults.apply);
      projection := state;
      result := FinishInMemoryBatch(before, loaded.value, size, faults, applied, last, failure);
      InMemoryCheckpointBounds<S, Id, E, R, T, C>(view, before, loaded.value, size, faults);
      hide MemoryBounds, InMemoryBatch, FoldLeft;
    }

    /** The loop itself. */
    method RepeatBatches<R, T(!new), C>(feed: Feed<Id, E, T>, size: nat, faults: nat -> BatchFaults<S, R, C>)
      returns (result: Result<nat, RunnerError<R, T, C>>, ghost calls: nat)
      requires SixtyFourBit(feed)
      modifies this
      ensures CatchUpEnds(MemoryBatches(view, feed, size, faults), old(Now()), calls, Now(), result)
    {
      var applied: nat, position, call := 0, None, 0;
      calls := 0;
      ghost var start, batches := Now(), MemoryBatches(view, feed, size, faults);
      assert LoopAfter(batches, start, 0) == Some(Loop(start, None, 0));
      hide MemoryBatch, MemoryBounds, LoopAfter, CatchUpEnds, SixtyFourBit;
      while true
        invariant calls == call
        invariant LoopAfter(batches, start, calls) == Some(Loop(Now(), position, applied))
        decreases Left(position)
      {
        ghost var before := Now();
        var outcome := RunBatch(feed, call, size, faults(call));
        LoopGoesOn(batches, start, calls, Loop(before, position, applied));
        BoundedMemoryBatch(view, feed, size, faults(call), call, before);
        if outcome.Err? {
          result := Err(outcome.error);
          break;
        }
        applied, call := applied + outcome.value.applied, call + 1;
        if !BatchAdvanced(outcome.value, position) {
          result := Ok(applied);
          break;
        }
        position, calls := outcome.value.lastSequence, calls + 1;
      }
    }

    /**
     * Repeats bounded batches until a short one, stopping as well when a full batch does not
     * move the feed position. Terminates on every store. Against a store that serves `log`
     * and whatever the projection's state and checkpoint were, success means that the
     * projection went on by all later events, once each and in order, and counted them.
     */
    method CatchUp<V, R, T(!new), C>(
      feed: Feed<Id, E, T>, size: nat, faults: nat -> BatchFaults<S, R, C>,
      ghost reading: Reading<S, V, Id, E>, ghost log: Log<Id, E>)
      returns (result: Result<nat, RunnerError<R, T, C>>, ghost reached: nat, ghost calls: nat)
      requires SixtyFourBit(feed) && size > 0
      modifies this
      ensures CatchUpEnds(MemoryBatches(view, feed, size, faults), old(Now()), calls, Now(), result)
      ensures CanCatchUp(view, reading, feed, faults, log) ==>
        CaughtUp(reading, log, old(Now()), Now(), reached, result, NothingFails((call: nat) => None, faults))
    {
      hide CatchUpEnds, CanCatchUp, CaughtUp;
      result, calls := RepeatBatches(feed, size, faults);
      reached := MemoryCatchUp(view, reading, feed, faults, log, size, old(Now()), calls, Now(), result);
    }

    /** Catching up in batches of the default size. */
    method Run<V, R, T(!new), C>(
      feed: Feed<Id, E, T>, faults: nat -> BatchFaults<S, R, C>,
      ghost reading: Reading<S, V, Id, E>, ghost log: Log<Id, E>)
      returns (result: Result<nat, RunnerError<R, T, C>>, ghost reached: nat, ghost calls: nat)
      requires SixtyFourBit(feed)
      modifies this
      ensures CatchUpEnds(
        MemoryBatches(view, feed, DEFAULT_PROJECTION_BATCH_SIZE, faults), old(Now()), calls, Now(), result)
      ensures CanCatchUp(view, reading, feed, faults, log) ==>
        CaughtUp(reading, log, old(Now()), Now(), reached, result, NothingFails((call: nat) => None, faults))
    {
      result, reached, calls := CatchUp(feed, DEFAULT_PROJECTION_BATCH_SIZE, faults, reading, log);
    }
  }

  // ---- a persisted batch is a stretch of the projection protocol ----

  /**
   * What a batch does behind the projection's interface: which applied events it writes
   * directly, what a failed apply leaves in the buffer, and what a failed flush writes or keeps.
   */
  datatype Effects = Effects(direct: nat -> bool, leftBuffered: bool, written: set<nat>, kept: set<nat>)

  /** The first `n` events of the batch, each applied. */
  function Applies<Id, E>(r: nat, n: nat, effects: Effects): seq<Projection.Action<Id, E>> {
    if n == 0 then [] else
      Applies(r, n - 1, effects)
      + [Projection.ApplyEvent(r, if effects.direct(n - 1) then Projection.Written else Projection.Buffered)]
  }

  /** The end of the apply loop. */
  function Stops<Id, E>(r: nat, batch: Log<Id, E>, applied: nat, effects: Effects): Projection.Action<Id, E> {
    if applied == |batch| then Projection.EndOfBatch(r)
    else Projection.ApplyEvent(r, Projection.Rejected(effects.leftBuffered))
  }

  /** The flush and the save. */
  function Persists<S, Id, E, R, C>(r: nat, faults: BatchFaults<S, R, C>, effects: Effects)
    : seq<Projection.Action<Id, E>>
  {
    [Projection.Flush(r, faults.flush.None?, effects.written, effects.kept)]
    + if faults.flush.Some? then [] else
        [Projection.Save(r, faults.save.None?, faults.save.Some? && faults.save.value.reached)]
  }

  ghost function BatchTrace<S, Id, E, R, C>(
    r: nat, batch: Log<Id, E>, size: nat, faults: BatchFaults<S, R, C>, effects: Effects)
    : seq<Projection.Action<Id, E>>
  {
    var applied := AppliedCount(faults.apply, |batch|);
    AppliedCountIsFirst(faults.apply, |batch|);
    [Projection.LoadCheckpoint(r), Projection.LoadBatch(r, size)]
    + (Applies(r, applied, effects)
       + ([Stops(r, batch, applied, effects)]
          + if Projection.LastApplied(batch, applied).None? then [] else Persists(r, faults, effects)))
  }

  /** Of one runner's steps only its save can move the checkpoint, and no step of it changes the log. */
  ghost predicate Moved<Id, E>(
    w: Projection.World<Id, E>, w': Projection.World<Id, E>, r: nat, phase: Projection.Phase<Id, E>,
    checkpoint: Option<nat>)
  {
    && w'.log == w.log && w'.checkpoint == checkpoint
    && Projection.RunnerOf(w', r).phase == phase
    && (forall other: nat | other != r :: Projection.RunnerOf(w', other) == Projection.RunnerOf(w, other))
  }

  lemma ApplyOne<Id(!new), E>(
    w: Projection.World<Id, E>, r: nat, start: Option<nat>, batch: Log<Id, E>, n: nat, outcome: Projection.ApplyOutcome)
    requires Projection.RunnerOf(w, r).phase == Projection.Applying(start, batch, n) && n < |batch|
    requires !outcome.Rejected?
    ensures Moved(w, Projection.Step(w, Projection.ApplyEvent(r, outcome)), r,
                  Projection.Applying(start, batch, n + 1), w.checkpoint)
  {
  }

  lemma {:induction false} AppliesStretch<Id(!new), E>(
    w: Projection.World<Id, E>, r: nat, start: Option<nat>, batch: Log<Id, E>, n: nat, effects: Effects)
    requires Projection.RunnerOf(w, r).phase == Projection.Applying(start, batch, 0) && n <= |batch|
    ensures Moved(w, Projection.RunFrom(w, Applies(r, n, effects)), r, Projection.Applying(start, batch, n),
                  w.checkpoint)
  {
    hide Projection.Step;
    if n > 0 {
      AppliesStretch(w, r, start, batch, n - 1, effects);
      var outcome := if effects.direct(n - 1) then Projection.Written else Projection.Buffered;
      FoldLeftPush(Projection.Step<Id, E>, w, Applies(r, n - 1, effects), Projection.ApplyEvent(r, outcome));
      hide FoldLeft;
      ApplyOne(Projection.RunFrom(w, Applies(r, n - 1, effects)), r, start, batch, n - 1, outcome);
    }
  }

  lemma PersistsStretch<S, Id(!new), E, R, C>(
    w: Projection.World<Id, E>, r: nat, last: nat, faults: BatchFaults<S, R, C>, effects: Effects)
    requires Projection.RunnerOf(w, r).phase == Projection.Flushing(last)
    ensures Moved(w, Projection.RunFrom(w, Persists(r, faults, effects)), r, Projection.Stopped,
                  if faults.flush.Some? || (faults.save.Some? && !faults.save.value.reached) then w.checkpoint
                  else Projection.Later(w.checkpoint, last))
  {
    var flush := Projection.Flush(r, faults.flush.None?, effects.written, effects.kept);
    var save := Projection.Save(r, faults.save.None?, faults.save.Some? && faults.save.value.reached);
    FoldLeftPair(Projection.Step<Id, E>, w, flush, save);
    assert [flush] + [save] == [flush, save] && [flush] + [] == [flush];
    hide FoldLeft;
  }

  lemma StopStretch<Id(!new), E>(
    w: Projection.World<Id, E>, r: nat, start: Option<nat>, batch: Log<Id, E>, applied: nat, effects: Effects)
    requires applied <= |batch| && Projection.RunnerOf(w, r).phase == Projection.Applying(start, batch, applied)
    ensures Moved(w, Projection.Step(w, Stops(r, batch, applied, effects)), r,
                  Projection.Persist(batch, applied), w.checkpoint)
  {
    hide Projection.Persist;
  }

  /** What follows the apply loop. */
  lemma EndingStretch<S, Id(!new), E, R, C>(
    w: Projection.World<Id, E>, r: nat, start: Option<nat>, batch: Log<Id, E>, applied: nat,
    faults: BatchFaults<S, R, C>, effects: Effects)
    requires applied <= |batch| && Projection.RunnerOf(w, r).phase == Projection.Applying(start, batch, applied)
    ensures var last := Projection.LastApplied(batch, applied);
      Moved(w,
            Projection.RunFrom(w, [Stops(r, batch, applied, effects)]
                                  + if last.None? then [] else Persists(r, faults, effects)),
            r, Projection.Stopped,
            if last.None? || faults.flush.Some? || (faults.save.Some? && !faults.save.value.reached) then w.checkpoint
            else Projection.Later(w.checkpoint, last.value))
  {
    hide Projection.Step, Projection.LastApplied, Persists;
    var stop := Stops(r, batch, applied, effects);
    var last := Projection.LastApplied(batch, applied);
    StopStretch(w, r, start, batch, applied, effects);
    FoldLeftPush(Projection.Step<Id, E>, w, [], stop);
    assert [] + [stop] == [stop];
    if last.None? {
      assert [stop] + [] == [stop];
    } else {
      FoldLeftConcat(Projection.Step<Id, E>, w, [stop], Persists(r, faults, effects));
      PersistsStretch(Projection.Step(w, stop), r, last.value, faults, effects);
    }
    hide FoldLeft, Stops;
  }

  /** The first two steps load the checkpoint and the batch behind it. */
  lemma OpeningStretch<Id(!new), E>(w: Projection.World<Id, E>, r: nat, size: nat)
    requires Projection.RunnerOf(w, r).phase.Stopped?
    ensures var page := Take(After(w.log, w.checkpoint), size);
      Moved(w, Projection.RunFrom(w, [Projection.LoadCheckpoint(r), Projection.LoadBatch(r, size)]), r,
            Projection.Applying(w.checkpoint, page, 0), w.checkpoint)
  {
    FoldLeftPair(Projection.Step<Id, E>, w, Projection.LoadCheckpoint(r), Projection.LoadBatch(r, size));
    hide FoldLeft, After;
  }

  /**
   * A batch of the persisted runner on a served feed is an uninterrupted stretch of the
   * projection protocol, whatever fails and whatever applying and flushing write: it starts
   * and ends with the runner stopped and leaves the checkpoint that the protocol leaves.
   */
  lemma PersistedBatchIsStretch<S, Id(!new), E, R, T, C>(
    view: View<S, Id, E>, before: Progress<S>, size: nat, faults: BatchFaults<S, R, C>,
    w: Projection.World<Id, E>, r: nat, effects: Effects)
    requires w.checkpoint == before.checkpoint && Projection.RunnerOf(w, r).phase.Stopped?
    ensures var page := Take(After(w.log, before.checkpoint), size);
      Moved(w, Projection.RunFrom(w, BatchTrace(r, page, size, faults, effects)), r, Projection.Stopped,
            PersistedBatch<S, Id, E, R, T, C>(view, before, page, size, faults).0.checkpoint)
  {
    var page := Take(After(w.log, before.checkpoint), size);
    var applied := AppliedCount(faults.apply, |page|);
    AppliedCountIsFirst(faults.apply, |page|);
    var opening := [Projection.LoadCheckpoint(r), Projection.LoadBatch(r, size)];
    var applies := Applies<Id, E>(r, applied, effects);
    var ending := [Stops(r, page, applied, effects)]
      + if Projection.LastApplied(page, applied).None? then [] else Persists(r, faults, effects);
    OpeningStretch(w, r, size);
    var w1 := Projection.RunFrom(w, opening);
    FoldLeftConcat(Projection.Step<Id, E>, w, opening, applies + ending);
    AppliesStretch(w1, r, w.checkpoint, page, applied, effects);
    FoldLeftConcat(Projection.Step<Id, E>, w1, applies, ending);
    EndingStretch(Projection.RunFrom(w1, applies), r, w.checkpoint, page, applied, faults, effects);
    hide FoldLeft, After, Take, AppliedState, Applies, Persists, Stops, Projection.LastApplied, Projection.Step;
  }

  lemma {:induction false} AppliesRebuildNothing<Id, E>(r: nat, n: nat, effects: Effects)
    ensures Projection.RebuildFree(Applies<Id, E>(r, n, effects))
  {
    if n > 0 {
      AppliesRebuildNothing<Id, E>(r, n - 1, effects);
    }
  }

  /**
   * So what is proved of runs holds of the runner's batches: after any run, a batch that
   * starts from the stored checkpoint stores one below which every event is in the read model.
   */
  lemma PersistedBatchNeverSkips<S, Id(!new), E, R, T, C>(
    view: View<S, Id, E>, before: Progress<S>, size: nat, faults: BatchFaults<S, R, C>,
    actions: seq<Projection.Action<Id, E>>, r: nat, effects: Effects)
    requires Projection.RebuildsSafe(Projection.Start(), actions)
    requires var w := Projection.Run(actions);
      w.checkpoint == before.checkpoint && Projection.RunnerOf(w, r).phase.Stopped?
    ensures var w := Projection.Run(actions);
      var page := Take(After(w.log, before.checkpoint), size);
      var w' := Projection.RunFrom(w, BatchTrace(r, page, size, faults, effects));
      && w'.log == w.log
      && w'.checkpoint == PersistedBatch<S, Id, E, R, T, C>(view, before, page, size, faults).0.checkpoint
      && Projection.NoSkip(w')
  {
    hide FoldLeft, After, Take, PersistedBatch, Projection.Step, Projection.Covers, Projection.AllSurvive;
    Projection.StartInv<Id, E>();
    Projection.RunKeepsInv(Projection.Start(), actions);
    var w := Projection.Run(actions);
    var page := Take(After(w.log, before.checkpoint), size);
    PersistedBatchIsStretch<S, Id, E, R, T, C>(view, before, size, faults, w, r, effects);
    AppliesRebuildNothing<Id, E>(r, AppliedCount(faults.apply, |page|), effects);
    hide AppliedCount;
    Projection.RunKeepsInv(w, BatchTrace(r, page, size, faults, effects));
  }

  // ---- the persisted runner ----

  /** The runner whose checkpoint lives in a store shared with other runners. */
  class PersistedProjectionRunner<S(!new), Id(!new), E(!new)> {
    const view: View<S, Id, E>
    var projection: S
    var stored: Option<nat>

    constructor (view: View<S, Id, E>, projection: S, stored: Option<nat>)
      ensures this.view == view && this.projection == projection && this.stored == stored
    {
      this.view, this.projection, this.stored := view, projection, stored;
    }

    ghost function Now(): Progress<S>
      reads this
    {
      Progress(projection, stored)
    }

    /** Flushes, and only after a successful flush saves the checkpoint. */
    method PersistCheckpoint<R, T, C>(last: Option<nat>, flush: Option<Fault<S, R>>, save: Option<SaveFault<C>>)
      returns (flushed: Result<(), RunnerError<R, T, C>>)
      modifies this
      ensures flushed.Ok? <==> last.None? || (flush.None? && save.None?)
      ensures flushed.Err? && flush.Some? ==> flushed.error == ProjectionFailed(flush.value.error)
      ensures flushed.Err? && flush.None? ==> flushed.error == CheckpointFailed(save.value.error)
      ensures projection ==
        if last.None? then old(projection)
        else if flush.Some? then flush.value.left(old(projection))
        else view.flush(old(projection))
      ensures stored ==
        if last.Some? && flush.None? && (save.None? || save.value.reached)
        then Projection.Later(old(stored), last.value) else old(stored)
    {
      if last.Some? {
        if flush.Some? {
          projection := flush.value.left(projection);
          return Err(ProjectionFailed(flush.value.error));
        }
        projection := view.flush(projection);
        if save.None? || save.value.reached {
          stored := Projection.Later(stored, last.value);
        }
        if save.Some? {
          return Err(CheckpointFailed(save.value.error));
        }
      }
      return Ok(());
    }

    method RunBatch<R, T(!new), C>(
      feed: Feed<Id, E, T>, call: nat, size: nat, load: Option<C>, faults: BatchFaults<S, R, C>)
      returns (result: Result<Outcome, RunnerError<R, T, C>>)
      modifies this
      ensures (Now(), result) == StoredBatch(view, feed, size, load, faults, call, old(Now()))
      ensures load.Some? ==> Now() == old(Now()) && result == Err(CheckpointFailed(load.value))
      ensures load.None? && feed(call, old(stored), size).Err? ==>
        Now() == old(Now()) && result == Err(StoreFailed(feed(call, old(stored), size).error))
    {
      if load.Some? {
        return Err(CheckpointFailed(load.value));
      }
      var loaded := feed(call, stored, size);
      if loaded.Err? {
        return Err(StoreFailed(loaded.error));
      }
      var state, applied, last, failure := ApplyProjectionEvents(view, projection, loaded.value, faults.apply);
      projection := state;
      var flushed: Result<(), RunnerError<R, T, C>> := PersistCheckpoint(last, faults.flush, faults.save);
      var finished := FinishBatch(failure, flushed);
      if finished.Err? {
        return Err(finished.error);
      }
      return Ok(Outcome(applied, last, applied < size));
    }

    /** One batch, from the checkpoint as somebody may have overwritten it by now. */
    method RunNextBatch<R, T(!new), C>(
      feed: Feed<Id, E, T>, call: nat, size: nat, load: Option<C>, overwrite: Option<Option<nat>>,
      faults: BatchFaults<S, R, C>)
      returns (result: Result<Outcome, RunnerError<R, T, C>>)
      requires SixtyFourBit(feed)
      modifies this
      ensures (Now(), result) == StoredBatch(view, feed, size, load, faults, call, Found(overwrite, old(Now())))
      ensures result.Ok? && result.value.lastSequence.Some? ==> result.value.lastSequence.value <= U64_MAX
    {
      if overwrite.Some? {
        stored := overwrite.value;
      }
      BoundedStoredBatch(view, feed, size, load, faults, call, Now());
      hide StoredBatch;
      result := RunBatch(feed, call, size, load, faults);
    }

    /** The loop itself. */
    method RepeatBatches<R, T(!new), C>(
      feed: Feed<Id, E, T>, size: nat, loads: nat -> Option<C>, overwrites: nat -> Option<Option<nat>>,
      faults: nat -> BatchFaults<S, R, C>)
      returns (result: Result<nat, RunnerError<R, T, C>>, ghost calls: nat)
      requires SixtyFourBit(feed)
      modifies this
      ensures CatchUpEnds(
        StoredBatches(view, feed, size, loads, overwrites, faults), old(Now()), calls, Now(), result)
    {
      var applied: nat, position, call := 0, None, 0;
      calls := 0;
      ghost var start, batches := Now(), StoredBatches(view, feed, size, loads, overwrites, faults);
      assert LoopAfter(batches, start, 0) == Some(Loop(start, None, 0));
      hide StoredBatch, LoopAfter, CatchUpEnds, SixtyFourBit;
      while true
        invariant calls == call
        invariant LoopAfter(batches, start, calls) == Some(Loop(Now(), position, applied))
        decreases Left(position)
      {
        ghost var before := Now();
        var outcome := RunNextBatch(feed, call, size, loads(call), overwrites(call), faults(call));
        LoopGoesOn(batches, start, calls, Loop(before, position, applied));
        if outcome.Err? {
          result := Err(outcome.error);
          break;
        }
        applied, call := applied + outcome.value.applied, call + 1;
        if !BatchAdvanced(outcome.value, position) {
          result := Ok(applied);
          break;
        }
        position, calls := outcome.value.lastSequence, calls + 1;
      }
    }

    /**
     * The same catch-up loop. The checkpoint store may misbehave: before any batch its load
     * may fail, or somebody may have overwritten the checkpoint with anything. The loop
     * terminates all the same, and with a store left alone it gives the same guarantee.
     */
    method CatchUp<V, R, T(!new), C>(
      feed: Feed<Id, E, T>, size: nat, loads: nat -> Option<C>, overwrites: nat -> Option<Option<nat>>,
      faults: nat -> BatchFaults<S, R, C>, ghost reading: Reading<S, V, Id, E>, ghost log: Log<Id, E>)
      returns (result: Result<nat, RunnerError<R, T, C>>, ghost reached: nat, ghost calls: nat)
      requires SixtyFourBit(feed) && size > 0
      modifies this
      ensures CatchUpEnds(
        StoredBatches(view, feed, size, loads, overwrites, faults), old(Now()), calls, Now(), result)
      ensures CanCatchUp(view, reading, feed, faults, log) && LeftAlone(overwrites) ==>
        CaughtUp(reading, log, old(Now()), Now(), reached, result, NothingFails(loads, faults))
    {
      hide CatchUpEnds, CanCatchUp, CaughtUp;
      result, calls := RepeatBatches(feed, size, loads, overwrites, faults);
      reached := StoredCatchUp(
        view, reading, feed, loads, overwrites, faults, log, size, old(Now()), calls, Now(), result);
    }
  }
}
