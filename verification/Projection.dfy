/**
 * Persisted projection runners as a protocol: appends to the feed, the shared checkpoint
 * row and the durable read model interleave with any number of runners that load a
 * checkpoint, load a batch, apply it event by event, flush, and save the checkpoint.
 * Every step may fail and a runner may crash at any point.
 */
module Projection {
  import opened Common
  import opened EventLog

  /** Where a runner is within one bounded batch. */
  datatype Phase<Id, E> =
    | Stopped
    | Positioned(checkpoint: Option<nat>)
    | Applying(start: Option<nat>, batch: Log<Id, E>, applied: nat)
    | Flushing(last: nat)
    | Saving(last: nat)

  /** `buffer` holds the sequences applied in memory but not yet written out. */
  datatype Runner<Id, E> = Runner(buffer: set<nat>, phase: Phase<Id, E>)

  datatype World<Id, E> = World(
    log: Log<Id, E>,
    checkpoint: Option<nat>,
    durable: set<nat>,
    runners: map<nat, Runner<Id, E>>)

  datatype ApplyOutcome = Buffered | Written | Rejected(leftBuffered: bool)

  datatype Action<Id, E> =
    | Append(id: Id, expected: ExpectedRevision, events: seq<NewEvent<E>>)
    | LoadCheckpoint(r: nat)
    | LoadBatch(r: nat, limit: nat)
    | ApplyEvent(r: nat, outcome: ApplyOutcome)
    | EndOfBatch(r: nat)
    | Flush(r: nat, ok: bool, written: set<nat>, kept: set<nat>)
    | Save(r: nat, ok: bool, stored: bool)
    | GiveUp(r: nat)
    | Crash(r: nat)
    | ResetCheckpoint
    | Rebuild

  function RunnerOf<Id, E>(w: World<Id, E>, r: nat): Runner<Id, E> {
    if r in w.runners then w.runners[r] else Runner({}, Stopped)
  }

  function SetRunner<Id, E>(w: World<Id, E>, r: nat, runner: Runner<Id, E>): World<Id, E> {
    w.(runners := w.runners[r := runner])
  }

  /** Checkpoint stores keep the larger of the stored and the saved sequence. */
  function Later(stored: Option<nat>, saved: nat): Option<nat> {
    if stored.Some? && stored.value > saved then stored else Some(saved)
  }

  /** The last sequence among the applied events, in feed order. */
  function LastApplied<Id, E>(batch: Log<Id, E>, applied: nat): Option<nat>
    requires applied <= |batch|
  {
    if applied == 0 then None
    else if batch[applied - 1].sequence.Some? then batch[applied - 1].sequence
    else LastApplied(batch, applied - 1)
  }

  /** After the apply loop: flush and save only if an applied event carried a sequence. */
  function Persist<Id, E>(batch: Log<Id, E>, applied: nat): Phase<Id, E>
    requires applied <= |batch|
  {
    match LastApplied(batch, applied)
    case None => Stopped
    case Some(last) => Flushing(last)
  }

  function SequenceSet<Id, E>(e: Envelope<Id, E>): set<nat> {
    if e.sequence.Some? then {e.sequence.value} else {}
  }

  function StepApply<Id, E>(w: World<Id, E>, r: nat, outcome: ApplyOutcome): World<Id, E> {
    var runner := RunnerOf(w, r);
    if !runner.phase.Applying? || runner.phase.applied >= |runner.phase.batch| then w else
      var Applying(start, batch, applied) := runner.phase;
      var event := SequenceSet(batch[applied]);
      match outcome
      case Buffered => SetRunner(w, r, Runner(runner.buffer + event, Applying(start, batch, applied + 1)))
      case Written =>
        SetRunner(w.(durable := w.durable + event), r, Runner(runner.buffer, Applying(start, batch, applied + 1)))
      case Rejected(leftBuffered) =>
        SetRunner(w, r, Runner(if leftBuffered then runner.buffer + event else runner.buffer, Persist(batch, applied)))
  }

  function StepFlush<Id, E>(w: World<Id, E>, r: nat, ok: bool, written: set<nat>, kept: set<nat>): World<Id, E> {
    var runner := RunnerOf(w, r);
    if !runner.phase.Flushing? then w
    else if ok then
      SetRunner(w.(durable := w.durable + runner.buffer), r, Runner({}, Saving(runner.phase.last)))
    else
      SetRunner(w.(durable := w.durable + runner.buffer * written), r, Runner(runner.buffer * kept, Stopped))
  }

  /** A failed save may or may not have reached the store. */
  function StepSave<Id, E>(w: World<Id, E>, r: nat, ok: bool, stored: bool): World<Id, E> {
    var runner := RunnerOf(w, r);
    if !runner.phase.Saving? then w else
      var checkpoint := if ok || stored then Later(w.checkpoint, runner.phase.last) else w.checkpoint;
      SetRunner(w.(checkpoint := checkpoint), r, Runner(runner.buffer, Stopped))
  }

  ghost function Step<Id(!new), E>(w: World<Id, E>, a: Action<Id, E>): World<Id, E> {
    match a
    case Append(id, expected, events) =>
      w.(log := EventLog.Append(w.log, id, expected, events, Consecutive(|w.log| + 1, |events|)).0)
    case LoadCheckpoint(r) =>
      if !RunnerOf(w, r).phase.Stopped? then w
      else SetRunner(w, r, Runner(RunnerOf(w, r).buffer, Positioned(w.checkpoint)))
    case LoadBatch(r, limit) =>
      var runner := RunnerOf(w, r);
      if !runner.phase.Positioned? then w else
        var from := runner.phase.checkpoint;
        SetRunner(w, r, Runner(runner.buffer, Applying(from, Take(After(w.log, from), limit), 0)))
    case ApplyEvent(r, outcome) => StepApply(w, r, outcome)
    case EndOfBatch(r) =>
      var runner := RunnerOf(w, r);
      if !runner.phase.Applying? || runner.phase.applied != |runner.phase.batch| then w
      else SetRunner(w, r, Runner(runner.buffer, Persist(runner.phase.batch, runner.phase.applied)))
    case Flush(r, ok, written, kept) => StepFlush(w, r, ok, written, kept)
    case Save(r, ok, stored) => StepSave(w, r, ok, stored)
    case GiveUp(r) => SetRunner(w, r, Runner(RunnerOf(w, r).buffer, Stopped))
    case Crash(r) => SetRunner(w, r, Runner({}, Stopped))
    case ResetCheckpoint => w.(checkpoint := None)
    case Rebuild => w.(checkpoint := None, durable := {})
  }

  function Start<Id, E>(): World<Id, E> {
    World([], None, {}, map[])
  }

  ghost function RunFrom<Id(!new), E>(w: World<Id, E>, actions: seq<Action<Id, E>>): World<Id, E> {
    FoldLeft(Step, w, actions)
  }

  ghost function Run<Id(!new), E>(actions: seq<Action<Id, E>>): World<Id, E> {
    RunFrom(Start(), actions)
  }

  // ---- invariant ----

  function Position(checkpoint: Option<nat>): nat {
    if checkpoint.Some? then checkpoint.value else 0
  }

  /** Every sequence `1..upTo` is in `seen`. */
  ghost predicate Covers(seen: set<nat>, upTo: nat) {
    forall q: nat | 1 <= q <= upTo :: q in seen
  }

  /** The batch is the stretch of the feed that follows its start. */
  ghost predicate BatchOf<Id, E>(batch: Log<Id, E>, start: nat, length: nat) {
    && start + |batch| <= length
    && (forall i | 0 <= i < |batch| :: batch[i].sequence == Some(start + i + 1))
  }

  ghost predicate PhaseInv<Id, E>(buffer: set<nat>, phase: Phase<Id, E>, durable: set<nat>, length: nat) {
    match phase
    case Stopped => true
    case Positioned(checkpoint) => Position(checkpoint) <= length && Covers(durable + buffer, Position(checkpoint))
    case Applying(start, batch, applied) =>
      && applied <= |batch|
      && BatchOf(batch, Position(start), length)
      && (batch == [] || Covers(durable + buffer, Position(start) + applied))
    case Flushing(last) => last <= length && Covers(durable + buffer, last)
    case Saving(last) => last <= length && Covers(durable, last)
  }

  ghost predicate RunnerInv<Id, E>(w: World<Id, E>, r: nat) {
    PhaseInv(RunnerOf(w, r).buffer, RunnerOf(w, r).phase, w.durable, |w.log|)
  }

  ghost predicate Inv<Id, E>(w: World<Id, E>) {
    && Sequenced(w.log)
    && Position(w.checkpoint) <= |w.log|
    && Covers(w.durable, Position(w.checkpoint))
    && (forall r: nat :: RunnerInv(w, r))
  }

  /**
   * Dropping the read model under this runner does no harm: what the runner is about to
   * claim is in its own buffer, or it has nothing to claim.
   */
  ghost predicate Survives<Id, E>(runner: Runner<Id, E>) {
    match runner.phase
    case Stopped => true
    case Positioned(checkpoint) => Covers(runner.buffer, Position(checkpoint))
    case Applying(start, batch, applied) => batch == [] || Covers(runner.buffer, Position(start) + applied)
    case Flushing(last) => Covers(runner.buffer, last)
    case Saving(last) => last == 0
  }

  ghost predicate AllSurvive<Id, E>(w: World<Id, E>) {
    forall r: nat :: Survives(RunnerOf(w, r))
  }

  ghost predicate SafeStep<Id, E>(w: World<Id, E>, a: Action<Id, E>) {
    a.Rebuild? ==> AllSurvive(w)
  }

  /** Every rebuild of the run happens while all runners survive it. */
  ghost predicate RebuildsSafe<Id(!new), E>(w: World<Id, E>, actions: seq<Action<Id, E>>) {
    forall k | 0 <= k < |actions| :: SafeStep(RunFrom(w, actions[..k]), actions[k])
  }

  /** The checkpoint claims nothing that is not in the read model. */
  ghost predicate NoSkip<Id, E>(w: World<Id, E>) {
    && Position(w.checkpoint) <= |w.log|
    && Covers(w.durable, Position(w.checkpoint))
  }

  lemma CoversMore(seen: set<nat>, more: set<nat>, upTo: nat)
    requires Covers(seen, upTo) && (forall q | q in seen :: q in more)
    ensures Covers(more, upTo)
    ensures upTo + 1 in more ==> Covers(more, upTo + 1)
  {
    forall q: nat | 1 <= q <= upTo ensures q in more {
      assert q in seen;
    }
  }

  /** Growing the feed and the read model keeps what a runner knows. */
  lemma PhaseInvGrows<Id, E>(
    buffer: set<nat>, phase: Phase<Id, E>, durable: set<nat>, length: nat, durable': set<nat>, length': nat)
    requires PhaseInv(buffer, phase, durable, length)
    requires durable <= durable' && length <= length'
    ensures PhaseInv(buffer, phase, durable', length')
  {
    match phase
    case Positioned(checkpoint) => CoversMore(durable + buffer, durable' + buffer, Position(checkpoint));
    case Applying(start, batch, applied) =>
      if batch != [] { CoversMore(durable + buffer, durable' + buffer, Position(start) + applied); }
    case Flushing(last) => CoversMore(durable + buffer, durable' + buffer, last);
    case Saving(last) => CoversMore(durable, durable', last);
    case Stopped =>
  }

  lemma LoadedBatch<Id, E>(log: Log<Id, E>, checkpoint: Option<nat>, limit: nat)
    requires Sequenced(log) && Position(checkpoint) <= |log|
    ensures BatchOf(Take(After(log, checkpoint), limit), Position(checkpoint), |log|)
  {
    AfterIsSuffix(log, checkpoint);
  }

  lemma LastAppliedIsLast<Id, E>(batch: Log<Id, E>, start: nat, length: nat, applied: nat)
    requires BatchOf(batch, start, length) && applied <= |batch|
    ensures LastApplied(batch, applied) == if applied == 0 then None else Some(start + applied)
  {
  }

  lemma ApplyKeepsPhase<Id, E>(w: World<Id, E>, r: nat, outcome: ApplyOutcome)
    requires RunnerInv(w, r)
    requires RunnerOf(w, r).phase.Applying? && RunnerOf(w, r).phase.applied < |RunnerOf(w, r).phase.batch|
    ensures RunnerInv(StepApply(w, r, outcome), r)
  {
    var Runner(buffer, Applying(start, batch, applied)) := RunnerOf(w, r);
    assert batch[applied].sequence == Some(Position(start) + applied + 1);
    LastAppliedIsLast(batch, Position(start), |w.log|, applied);
    var w' := StepApply(w, r, outcome);
    CoversMore(w.durable + buffer, w'.durable + RunnerOf(w', r).buffer, Position(start) + applied);
  }

  /** What a step of runner `r` does to its own phase. */
  lemma OwnStepKeepsPhase<Id(!new), E>(w: World<Id, E>, a: Action<Id, E>, r: nat)
    requires Inv(w)
    requires !a.Append? && !a.ResetCheckpoint? && !a.Rebuild? && a.r == r
    ensures RunnerInv(Step(w, a), r)
  {
    assert RunnerInv(w, r);
    var runner := RunnerOf(w, r);
    match a
    case LoadCheckpoint(_) => CoversMore(w.durable, w.durable + runner.buffer, Position(w.checkpoint));
    case LoadBatch(_, limit) =>
      if runner.phase.Positioned? {
        LoadedBatch(w.log, runner.phase.checkpoint, limit);
      }
    case ApplyEvent(_, outcome) =>
      if runner.phase.Applying? && runner.phase.applied < |runner.phase.batch| {
        ApplyKeepsPhase(w, r, outcome);
      }
    case EndOfBatch(_) =>
      if runner.phase.Applying? {
        LastAppliedIsLast(runner.phase.batch, Position(runner.phase.start), |w.log|, runner.phase.applied);
      }
    case _ =>
  }

  /** No step but a rebuild shrinks the feed or the read model. */
  lemma StepGrows<Id(!new), E>(w: World<Id, E>, a: Action<Id, E>)
    ensures |w.log| <= |Step(w, a).log|
    ensures !a.Rebuild? ==> w.durable <= Step(w, a).durable
  {
  }

  lemma StepKeepsCheckpoint<Id(!new), E>(w: World<Id, E>, a: Action<Id, E>)
    requires Inv(w)
    ensures Position(Step(w, a).checkpoint) <= |Step(w, a).log|
    ensures Covers(Step(w, a).durable, Position(Step(w, a).checkpoint))
  {
    StepGrows(w, a);
    if a.Save? {
      assert RunnerInv(w, a.r);
    }
  }

  lemma StepKeepsSequenced<Id(!new), E>(w: World<Id, E>, a: Action<Id, E>)
    requires Inv(w)
    ensures Sequenced(Step(w, a).log)
  {
    if a.Append? {
      SequencedAppend(w.log, a.id, Revision(w.log, a.id), a.events);
    }
  }

  lemma RebuildKeepsPhase<Id(!new), E>(w: World<Id, E>, r: nat)
    requires RunnerInv(w, r) && Survives(RunnerOf(w, r))
    ensures RunnerInv(Step(w, Rebuild), r)
  {
    var runner := RunnerOf(w, r);
    match runner.phase
    case Positioned(checkpoint) => CoversMore(runner.buffer, {} + runner.buffer, Position(checkpoint));
    case Applying(start, batch, applied) =>
      if batch != [] { CoversMore(runner.buffer, {} + runner.buffer, Position(start) + applied); }
    case Flushing(last) => CoversMore(runner.buffer, {} + runner.buffer, last);
    case _ =>
  }

  lemma StepKeepsInv<Id(!new), E>(w: World<Id, E>, a: Action<Id, E>)
    requires Inv(w) && SafeStep(w, a)
    ensures Inv(Step(w, a))
  {
    var w' := Step(w, a);
    StepGrows(w, a);
    StepKeepsCheckpoint(w, a);
    StepKeepsSequenced(w, a);
    forall r: nat ensures RunnerInv(w', r) {
      assert RunnerInv(w, r);
      if a.Rebuild? {
        RebuildKeepsPhase(w, r);
      } else if !a.Append? && !a.ResetCheckpoint? && a.r == r {
        OwnStepKeepsPhase(w, a, r);
      } else {
        assert RunnerOf(w', r) == RunnerOf(w, r);
        PhaseInvGrows(RunnerOf(w, r).buffer, RunnerOf(w, r).phase, w.durable, |w.log|, w'.durable, |w'.log|);
      }
    }
  }

  lemma {:induction false} RunKeepsInv<Id(!new), E>(w: World<Id, E>, actions: seq<Action<Id, E>>)
    requires Inv(w) && RebuildsSafe(w, actions)
    ensures Inv(RunFrom(w, actions))
  {
    hide Inv, Step;
    if actions != [] {
      var init := actions[..|actions| - 1];
      assert SafeStep(RunFrom(w, actions[..|actions| - 1]), actions[|actions| - 1]);
      assert RebuildsSafe(w, init) by {
        forall k | 0 <= k < |init| ensures SafeStep(RunFrom(w, init[..k]), init[k]) {
          assert SafeStep(RunFrom(w, actions[..k]), actions[k]);
          assert init[..k] == actions[..k];
        }
      }
      RunKeepsInv(w, init);
      StepKeepsInv(RunFrom(w, init), actions[|actions| - 1]);
    }
  }

  lemma StartInv<Id(!new), E>()
    ensures Inv(Start<Id, E>())
  {
    hide Run, RunFrom;
    forall r: nat ensures RunnerInv(Start<Id, E>(), r) {}
  }

  // ---- main results ----

  /** Every committed event at or below the stored checkpoint is in the durable read model. */
  lemma NeverSkips<Id(!new), E>(actions: seq<Action<Id, E>>, k: nat)
    requires RebuildsSafe(Start(), actions)
    requires var w := Run(actions); k < |w.log| && w.checkpoint.Some?
    ensures var w := Run(actions);
      && w.checkpoint.value <= |w.log|
      && w.log[k].sequence.Some?
      && (w.log[k].sequence.value <= w.checkpoint.value ==> w.log[k].sequence.value in w.durable)
  {
    hide RunFrom;
    StartInv<Id, E>();
    RunKeepsInv(Start(), actions);
  }

  lemma StepKeepsPosition<Id(!new), E>(w: World<Id, E>, a: Action<Id, E>)
    requires !a.ResetCheckpoint? && !a.Rebuild?
    ensures w.checkpoint.Some? ==>
      Step(w, a).checkpoint.Some? && Step(w, a).checkpoint.value >= w.checkpoint.value
  {
  }

  /**
   * Saves of older positions never rewind the checkpoint: along every stretch of a run
   * without a reset or a rebuild it only moves forward.
   */
  lemma {:induction false} CheckpointOnlyReset<Id(!new), E>(before: seq<Action<Id, E>>, stretch: seq<Action<Id, E>>)
    requires forall k | 0 <= k < |stretch| :: !stretch[k].ResetCheckpoint? && !stretch[k].Rebuild?
    ensures Run(before).checkpoint.Some? ==>
      && Run(before + stretch).checkpoint.Some?
      && Run(before + stretch).checkpoint.value >= Run(before).checkpoint.value
    decreases |stretch|
  {
    hide Step;
    if stretch == [] {
      assert before + stretch == before;
    } else {
      var init := stretch[..|stretch| - 1];
      CheckpointOnlyReset(before, init);
      assert (before + stretch)[..|before + stretch| - 1] == before + init;
      StepKeepsPosition(Run(before + init), stretch[|stretch| - 1]);
    }
  }

  /**
   * What an interruption costs: a runner that gives up keeps its buffer, one that crashes
   * loses it, and both lose their place in the batch. The read model, the checkpoint and the
   * other runners keep what they have. A reset takes the checkpoint only, a rebuild the read
   * model with it.
   */
  lemma Interruptions<Id(!new), E>(w: World<Id, E>, r: nat, other: nat)
    requires other != r
    ensures var gaveUp, crashed := Step(w, GiveUp(r)), Step(w, Crash(r));
      && RunnerOf(gaveUp, r) == Runner(RunnerOf(w, r).buffer, Stopped) && RunnerOf(crashed, r) == Runner({}, Stopped)
      && RunnerOf(gaveUp, other) == RunnerOf(crashed, other) == RunnerOf(w, other)
      && gaveUp.(runners := w.runners) == crashed.(runners := w.runners) == w
    ensures Step(w, ResetCheckpoint) == World(w.log, None, w.durable, w.runners)
    ensures Step(w, Rebuild) == World(w.log, None, {}, w.runners)
  {
  }

  // ---- rebuilding the read model under running runners ----

  /** Sequence `q` is claimed by the checkpoint but missing from the read model. */
  ghost predicate Skipped<Id, E>(w: World<Id, E>, q: nat) {
    1 <= q <= Position(w.checkpoint) && q !in w.durable
  }

  ghost predicate RebuildFree<Id, E>(actions: seq<Action<Id, E>>) {
    forall k | 0 <= k < |actions| :: !actions[k].Rebuild?
  }

  lemma SkipAfterSaving<Id(!new), E>(w: World<Id, E>, r: nat, q: nat) returns (actions: seq<Action<Id, E>>)
    requires RunnerOf(w, r).phase.Saving? && 1 <= q <= RunnerOf(w, r).phase.last && q !in w.durable
    ensures RebuildFree(actions) && Skipped(RunFrom(w, actions), q)
  {
    actions := [Save(r, true, true)];
    FoldLeftPush(Step<Id, E>, w, [], Save(r, true, true));
    assert [] + actions == actions;
  }

  /** One step and then the rest. */
  lemma GoOn<Id(!new), E>(w: World<Id, E>, a: Action<Id, E>, more: seq<Action<Id, E>>)
    returns (actions: seq<Action<Id, E>>)
    requires !a.Rebuild? && RebuildFree(more)
    ensures RebuildFree(actions) && RunFrom(w, actions) == RunFrom(Step(w, a), more)
  {
    hide Step;
    actions := [a] + more;
    FoldLeftConcat(Step<Id, E>, w, [a], more);
  }

  lemma SkipAfterFlushing<Id(!new), E>(w: World<Id, E>, r: nat, q: nat) returns (actions: seq<Action<Id, E>>)
    requires RunnerOf(w, r).phase.Flushing? && 1 <= q <= RunnerOf(w, r).phase.last
    requires q !in w.durable + RunnerOf(w, r).buffer
    ensures RebuildFree(actions) && Skipped(RunFrom(w, actions), q)
  {
    hide RunFrom, Skipped;
    var flush: Action<Id, E> := Flush(r, true, {}, {});
    var more := SkipAfterSaving(Step(w, flush), r, q);
    actions := GoOn(w, flush, more);
  }

  /** Something was applied: reject the next event or end the batch, and flush what there is. */
  lemma SkipAfterApplied<Id(!new), E>(w: World<Id, E>, r: nat, q: nat) returns (actions: seq<Action<Id, E>>)
    requires RunnerOf(w, r).phase.Applying?
    requires var Applying(start, batch, applied) := RunnerOf(w, r).phase;
      && 1 <= applied <= |batch| && BatchOf(batch, Position(start), Position(start) + |batch|)
      && 1 <= q <= Position(start) + applied && q !in w.durable + RunnerOf(w, r).buffer
    ensures RebuildFree(actions) && Skipped(RunFrom(w, actions), q)
  {
    hide RunFrom, Skipped;
    var Applying(start, batch, applied) := RunnerOf(w, r).phase;
    LastAppliedIsLast(batch, Position(start), Position(start) + |batch|, applied);
    var stop: Action<Id, E> := if applied == |batch| then EndOfBatch(r) else ApplyEvent(r, Rejected(false));
    assert RunnerOf(Step(w, stop), r) == Runner(RunnerOf(w, r).buffer, Flushing(Position(start) + applied));
    assert Step(w, stop).durable == w.durable;
    var more := SkipAfterFlushing(Step(w, stop), r, q);
    actions := GoOn(w, stop, more);
  }

  lemma SkipAfterApplying<Id(!new), E>(w: World<Id, E>, r: nat, q: nat) returns (actions: seq<Action<Id, E>>)
    requires RunnerOf(w, r).phase.Applying?
    requires var Applying(start, batch, applied) := RunnerOf(w, r).phase;
      && batch != [] && applied <= |batch| && BatchOf(batch, Position(start), Position(start) + |batch|)
      && 1 <= q <= Position(start) + applied && q !in w.durable + RunnerOf(w, r).buffer
    ensures RebuildFree(actions) && Skipped(RunFrom(w, actions), q)
  {
    hide RunFrom, Skipped;
    var Applying(start, batch, applied) := RunnerOf(w, r).phase;
    if applied > 0 {
      actions := SkipAfterApplied(w, r, q);
    } else {
      var write: Action<Id, E> := ApplyEvent(r, Written);
      assert batch[0].sequence == Some(Position(start) + 1);
      assert RunnerOf(Step(w, write), r) == Runner(RunnerOf(w, r).buffer, Applying(start, batch, 1));
      var more := SkipAfterApplied(Step(w, write), r, q);
      actions := GoOn(w, write, more);
    }
  }

  lemma OneMoreEvent<Id(!new), E>(w: World<Id, E>, id: Id, event: NewEvent<E>)
    requires Sequenced(w.log)
    ensures var w' := Step(w, Append(id, Any, [event]));
      && Sequenced(w'.log) && |w'.log| == |w.log| + 1
      && w'.runners == w.runners && w'.durable == w.durable
  {
    SequencedAppend(w.log, id, Revision(w.log, id), [event]);
  }

  lemma SkipAfterPositioned<Id(!new), E>(w: World<Id, E>, r: nat, q: nat, id: Id, event: NewEvent<E>)
    returns (actions: seq<Action<Id, E>>)
    requires Sequenced(w.log) && RunnerOf(w, r).phase.Positioned?
    requires var from := Position(RunnerOf(w, r).phase.checkpoint);
      from <= |w.log| && 1 <= q <= from && q !in w.durable + RunnerOf(w, r).buffer
    ensures RebuildFree(actions) && Skipped(RunFrom(w, actions), q)
  {
    hide RunFrom, Skipped;
    var append: Action<Id, E> := Append(id, Any, [event]);
    var load: Action<Id, E> := LoadBatch(r, 1);
    var w1 := Step(w, append);
    OneMoreEvent(w, id, event);
    var from := RunnerOf(w, r).phase.checkpoint;
    AfterIsSuffix(w1.log, from);
    LoadedBatch(w1.log, from, 1);
    var w2 := Step(w1, load);
    assert |RunnerOf(w2, r).phase.batch| == 1;
    assert BatchOf(RunnerOf(w2, r).phase.batch, Position(from), Position(from) + 1);
    var more := SkipAfterApplying(w2, r, q);
    var loading := GoOn(w1, load, more);
    actions := GoOn(w, append, loading);
  }

  lemma Uncovered(seen: set<nat>, upTo: nat) returns (q: nat)
    requires !Covers(seen, upTo)
    ensures 1 <= q <= upTo && q !in seen
  {
    q :| 1 <= q <= upTo && q !in seen;
  }

  /** A runner that does not survive a rebuild can be driven to claim an event that is gone. */
  lemma SkipAfterRebuild<Id(!new), E>(w: World<Id, E>, r: nat, id: Id, event: NewEvent<E>)
    returns (actions: seq<Action<Id, E>>, q: nat)
    requires Inv(w) && !Survives(RunnerOf(w, r))
    ensures RebuildFree(actions) && Skipped(RunFrom(Step(w, Rebuild), actions), q)
  {
    hide RunFrom, Skipped;
    assert RunnerInv(w, r);
    var w' := Step(w, Rebuild);
    var runner := RunnerOf(w, r);
    assert RunnerOf(w', r) == runner;
    match runner.phase
    case Positioned(checkpoint) =>
      q := Uncovered(runner.buffer, Position(checkpoint));
      actions := SkipAfterPositioned(w', r, q, id, event);
    case Applying(start, batch, applied) =>
      q := Uncovered(runner.buffer, Position(start) + applied);
      actions := SkipAfterApplying(w', r, q);
    case Flushing(last) =>
      q := Uncovered(runner.buffer, last);
      actions := SkipAfterFlushing(w', r, q);
    case Saving(last) =>
      q := 1;
      actions := SkipAfterSaving(w', r, q);
  }

  lemma SkippedIsSkip<Id, E>(w: World<Id, E>, q: nat)
    requires Skipped(w, q)
    ensures !NoSkip(w)
  {
  }

  /**
   * The exact condition for dropping the read model: whatever happens afterwards (short of
   * another rebuild) no event below the checkpoint is lost, if and only if every runner has
   * what it is about to claim in its own buffer.
   */
  lemma RebuildExactly<Id(!new), E>(before: seq<Action<Id, E>>, id: Id, event: NewEvent<E>)
    requires RebuildsSafe(Start(), before)
    ensures AllSurvive(Run(before)) <==>
            forall actions | RebuildFree(actions) :: NoSkip(RunFrom(Step(Run(before), Rebuild), actions))
  {
    hide RunFrom, Step, Survives, Covers;
    StartInv<Id, E>();
    RunKeepsInv(Start(), before);
    var w := Run(before);
    if AllSurvive(w) {
      StepKeepsInv(w, Rebuild);
      forall actions | RebuildFree(actions) ensures NoSkip(RunFrom(Step(w, Rebuild), actions)) {
        RunKeepsInv(Step(w, Rebuild), actions);
      }
    } else {
      var r: nat :| !Survives(RunnerOf(w, r));
      var actions, q := SkipAfterRebuild(w, r, id, event);
      SkippedIsSkip(RunFrom(Step(w, Rebuild), actions), q);
    }
  }

  /** A runner between its flush and its save when the read model is dropped. */
  function RaceAction(n: nat): Action<nat, nat> {
    if n == 0 then Append(7, Any, [NewEvent("e", 0, 0)])
    else if n == 1 then LoadCheckpoint(0)
    else if n == 2 then LoadBatch(0, 500)
    else if n == 3 then ApplyEvent(0, Written)
    else if n == 4 then EndOfBatch(0)
    else if n == 5 then Flush(0, true, {}, {})
    else if n == 6 then Rebuild
    else Save(0, true, true)
  }

  function RebuildRace(): seq<Action<nat, nat>> {
    seq(8, n requires 0 <= n => RaceAction(n))
  }

  /** The worlds the race goes through, one per step; `log` is the feed after the append. */
  function RaceWorld(n: nat, log: Log<nat, nat>): World<nat, nat> {
    if n == 0 then Start()
    else if n == 1 then World(log, None, {}, map[])
    else if n == 2 then World(log, None, {}, map[0 := Runner({}, Positioned(None))])
    else if n == 3 then World(log, None, {}, map[0 := Runner({}, Applying(None, log, 0))])
    else if n == 4 then World(log, None, {1}, map[0 := Runner({}, Applying(None, log, 1))])
    else if n == 5 then World(log, None, {1}, map[0 := Runner({}, Flushing(1))])
    else if n == 6 then World(log, None, {1}, map[0 := Runner({}, Saving(1))])
    else if n == 7 then World(log, None, {}, map[0 := Runner({}, Saving(1))])
    else World(log, Some(1), {}, map[0 := Runner({}, Stopped)])
  }

  ghost predicate RaceLog(log: Log<nat, nat>) {
    log == Step(Start(), RaceAction(0)).log && |log| == 1 && Sequenced(log)
  }

  lemma RaceLogExists() returns (log: Log<nat, nat>)
    ensures RaceLog(log)
  {
    assert Revision(Start<nat, nat>().log, 7) == 0;
    log := Step(Start(), RaceAction(0)).log;
    assert log == Envelopes(7, 0, [NewEvent("e", 0, 0)], Consecutive(1, 1));
  }

  /** A runner that starts from scratch and takes the whole feed. */
  lemma LoadsWholeFeed<Id(!new), E>(w: World<Id, E>, r: nat, limit: nat)
    requires Sequenced(w.log) && |w.log| <= limit
    requires RunnerOf(w, r).phase == Positioned(None)
    ensures Step(w, LoadBatch(r, limit)) == SetRunner(w, r, Runner(RunnerOf(w, r).buffer, Applying(None, w.log, 0)))
  {
    AfterIsSuffix(w.log, None);
    assert w.log[0..] == w.log;
  }

  lemma RaceLoads(log: Log<nat, nat>)
    requires RaceLog(log)
    ensures Step(RaceWorld(2, log), RaceAction(2)) == RaceWorld(3, log)
  {
    hide Step, After;
    LoadsWholeFeed(RaceWorld(2, log), 0, 500);
  }

  lemma RaceStep(n: nat, log: Log<nat, nat>)
    requires |log| == 1 && Sequenced(log) && n in {1, 3, 4, 5, 6, 7}
    ensures Step(RaceWorld(n, log), RaceAction(n)) == RaceWorld(n + 1, log)
  {
  }

  lemma RaceAppends(log: Log<nat, nat>)
    requires RaceLog(log)
    ensures Step(RaceWorld(0, log), RaceAction(0)) == RaceWorld(1, log)
  {
  }

  lemma {:induction false} RaceReaches(n: nat, log: Log<nat, nat>)
    requires RaceLog(log) && n <= 8
    ensures Run(RebuildRace()[..n]) == RaceWorld(n, log)
  {
    if n > 0 {
      RaceReaches(n - 1, log);
      FoldLeftPush(Step<nat, nat>, Start(), RebuildRace()[..n - 1], RaceAction(n - 1));
      assert RebuildRace()[..n] == RebuildRace()[..n - 1] + [RaceAction(n - 1)];
      if n == 1 { RaceAppends(log); } else if n == 3 { RaceLoads(log); } else { RaceStep(n - 1, log); }
    }
  }

  /** Without stopping the runners first, a rebuild can lose an event below the checkpoint. */
  lemma RebuildRaceSkips()
    ensures var w := Run(RebuildRace());
            w.checkpoint == Some(1) && |w.log| == 1 && w.log[0].sequence == Some(1) && 1 !in w.durable
  {
    var log := RaceLogExists();
    RaceReaches(8, log);
    assert RebuildRace()[..8] == RebuildRace();
  }
}
