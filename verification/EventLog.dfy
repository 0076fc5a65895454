/**
 * The abstract append-only log that every event store refines.
 *
 * A log is the sequence of all committed envelopes in commit order. One stream is
 * the sub-sequence of one aggregate id. `Id` stands for the stream key (aggregate
 * type and aggregate id together) and `E` for an event with its type, schema version,
 * payload and metadata, which every store copies unchanged.
 */
module EventLog {
  import opened Common

  datatype NewEvent<+E> = NewEvent(eventId: string, recordedAt: int, event: E)

  datatype Envelope<+Id, +E> = Envelope(
    eventId: string,
    aggregateId: Id,
    revision: nat,
    sequence: Option<nat>,
    event: E,
    recordedAt: int)

  datatype ExpectedRevision = Any | NoStream | Exact(revision: nat)

  datatype ConcurrencyError =
    | StreamAlreadyExists
    | WrongExpectedRevision(expected: ExpectedRevision, actual: nat)

  type Log<Id, E> = seq<Envelope<Id, E>>

  type AppendResult<Id, E> = Result<seq<Envelope<Id, E>>, ConcurrencyError>

  /** The optimistic check shared by all stores; `None` means the append may go on. */
  function CheckExpected(expected: ExpectedRevision, actual: nat): Option<ConcurrencyError> {
    match expected
    case Any => None
    case NoStream => if actual == 0 then None else Some(StreamAlreadyExists)
    case Exact(r) => if r == actual then None else Some(WrongExpectedRevision(expected, actual))
  }

  ghost function Stream<Id(!new), E>(log: Log<Id, E>, id: Id): Log<Id, E> {
    Filter(log, (e: Envelope<Id, E>) => e.aggregateId == id)
  }

  ghost function Revision<Id(!new), E>(log: Log<Id, E>, id: Id): nat {
    |Stream(log, id)|
  }

  /** The envelope a store builds for one new event. */
  function Seal<Id, E>(event: NewEvent<E>, id: Id, revision: nat, sequence: nat): Envelope<Id, E> {
    Envelope(event.eventId, id, revision, Some(sequence), event.event, event.recordedAt)
  }

  /** Envelopes of one batch: revisions count up from `base`, sequences are given. */
  function Envelopes<Id, E>(id: Id, base: nat, batch: seq<NewEvent<E>>, sequences: seq<nat>): (r: Log<Id, E>)
    requires |sequences| == |batch|
    ensures |r| == |batch|
  {
    seq(|batch|, i requires 0 <= i < |batch| =>
      Seal(batch[i], id, base + 1 + i, sequences[i]))
  }

  /** Every envelope of the batch belongs to the stream of `owner`. */
  ghost predicate OneStream<Id, E>(batch: Log<Id, E>, owner: Id) {
    forall i | 0 <= i < |batch| :: batch[i].aggregateId == owner
  }

  /** Sequences `first, first + 1, ...` handed out by a counter. */
  function Consecutive(first: nat, count: nat): (r: seq<nat>)
    ensures |r| == count
    ensures forall i | 0 <= i < count :: r[i] == first + i
  {
    seq(count, i requires 0 <= i < count => first + i)
  }

  /** The atomic append: check the revision, then commit the whole batch or nothing. */
  ghost function Append<Id(!new), E>(
    log: Log<Id, E>, id: Id, expected: ExpectedRevision, batch: seq<NewEvent<E>>, sequences: seq<nat>
  ): (Log<Id, E>, AppendResult<Id, E>)
    requires |sequences| == |batch|
  {
    match CheckExpected(expected, Revision(log, id))
    case Some(error) => (log, Err(error))
    case None =>
      var committed := Envelopes(id, Revision(log, id), batch, sequences);
      (log + committed, Ok(committed))
  }

  /** Every envelope's revision is its rank within its stream. */
  ghost predicate Ranked<Id(!new), E>(log: Log<Id, E>) {
    forall i | 0 <= i < |log| :: log[i].revision == Revision(log[..i], log[i].aggregateId) + 1
  }

  /** Sequences are exactly 1, 2, ... in commit order. */
  ghost predicate Sequenced<Id, E>(log: Log<Id, E>) {
    forall i | 0 <= i < |log| :: log[i].sequence == Some(i + 1)
  }

  /** Does the feed position `after` still leave `e` to be read? */
  ghost predicate IsAfter<Id, E>(e: Envelope<Id, E>, after: Option<nat>) {
    e.sequence.Some? && (after.None? || e.sequence.value > after.value)
  }

  /** All envelopes past a feed position: the one-shot read that paging must reproduce. */
  ghost function After<Id, E>(log: Log<Id, E>, after: Option<nat>): Log<Id, E> {
    Filter(log, (e: Envelope<Id, E>) => IsAfter(e, after))
  }

  /** The events of a stream whose revision is greater than `revision`. */
  function AfterRevision<Id, E>(events: Log<Id, E>, revision: nat): Log<Id, E> {
    Filter(events, (e: Envelope<Id, E>) => e.revision > revision)
  }

  /** In a stream whose revisions are 1, 2, ... that is the rest of the stream. */
  lemma AfterRevisionIsSuffix<Id, E>(events: Log<Id, E>, revision: nat)
    requires forall k | 0 <= k < |events| :: events[k].revision == k + 1
    ensures AfterRevision(events, revision) == if revision <= |events| then events[revision..] else []
  {
    FilterIsTail(events, (e: Envelope<Id, E>) => e.revision > revision,
                 if revision <= |events| then revision else |events|);
  }

  function Take<T>(s: seq<T>, limit: nat): (r: seq<T>)
    ensures r <= s && |r| == if |s| <= limit then |s| else limit
  {
    if |s| <= limit then s else s[..limit]
  }

  /** In a sequenced log a feed position is a plain index. */
  lemma AfterIsSuffix<Id, E>(log: Log<Id, E>, after: Option<nat>)
    requires Sequenced(log)
    ensures var start := if after.None? then 0 else if after.value <= |log| then after.value else |log|;
            After(log, after) == log[start..]
  {
    var start := if after.None? then 0 else if after.value <= |log| then after.value else |log|;
    FilterIsTail(log, (e: Envelope<Id, E>) => IsAfter(e, after), start);
  }

  lemma StreamConcat<Id(!new), E>(a: Log<Id, E>, b: Log<Id, E>, id: Id)
    ensures Stream(a + b, id) == Stream(a, id) + Stream(b, id)
  {
    FilterConcat(a, b, (e: Envelope<Id, E>) => e.aggregateId == id);
  }

  /** A batch of one stream is all of it for that stream and nothing for any other. */
  lemma StreamOfBatch<Id(!new), E>(batch: Log<Id, E>, owner: Id, id: Id)
    requires OneStream(batch, owner)
    ensures Stream(batch, id) == if id == owner then batch else []
  {
    FilterAllOrNone(batch, (e: Envelope<Id, E>) => e.aggregateId == id);
  }

  lemma EnvelopesOwned<Id, E>(id: Id, base: nat, batch: seq<NewEvent<E>>, sequences: seq<nat>)
    requires |sequences| == |batch|
    ensures OneStream(Envelopes(id, base, batch, sequences), id)
  {
  }

  lemma AppendedStream<Id(!new), E>(log: Log<Id, E>, owner: Id, batch: Log<Id, E>, id: Id)
    requires OneStream(batch, owner)
    ensures Stream(log + batch, id) == Stream(log, id) + if id == owner then batch else []
  {
    StreamConcat(log, batch, id);
    StreamOfBatch(batch, owner, id);
  }

  /** In a ranked log the k-th event of any stream carries revision k + 1. */
  lemma {:induction false} StreamRevisions<Id(!new), E>(log: Log<Id, E>, id: Id, k: nat)
    requires Ranked(log)
    requires k < Revision(log, id)
    ensures Stream(log, id)[k].revision == k + 1
    ensures Stream(log, id)[k].aggregateId == id
    ensures Stream(log, id)[k] in log
  {
    var init := log[..|log| - 1];
    assert Ranked(init) by {
      forall i | 0 <= i < |init| ensures init[i].revision == Revision(init[..i], init[i].aggregateId) + 1 {
        assert init[..i] == log[..i];
      }
    }
    if k < Revision(init, id) {
      StreamRevisions(init, id, k);
    }
  }

  /** Appending at the current revision keeps revisions equal to ranks. */
  lemma {:induction false} RankedAppend<Id(!new), E>(log: Log<Id, E>, id: Id, batch: Log<Id, E>)
    requires Ranked(log)
    requires OneStream(batch, id)
    requires forall i | 0 <= i < |batch| :: batch[i].revision == Revision(log, id) + 1 + i
    ensures Ranked(log + batch)
  {
    var all := log + batch;
    forall i | 0 <= i < |all| ensures all[i].revision == Revision(all[..i], all[i].aggregateId) + 1 {
      if i < |log| {
        assert all[..i] == log[..i];
      } else {
        assert all[..i] == log + batch[..i - |log|];
        AppendedStream(log, id, batch[..i - |log|], id);
      }
    }
  }

  lemma AppendKeepsRanked<Id(!new), E>(
    log: Log<Id, E>, id: Id, expected: ExpectedRevision, batch: seq<NewEvent<E>>, sequences: seq<nat>)
    requires Ranked(log)
    requires |sequences| == |batch|
    ensures Ranked(Append(log, id, expected, batch, sequences).0)
  {
    EnvelopesOwned(id, Revision(log, id), batch, sequences);
    RankedAppend(log, id, Envelopes(id, Revision(log, id), batch, sequences));
  }

  lemma SequencedAppend<Id(!new), E>(log: Log<Id, E>, id: Id, base: nat, batch: seq<NewEvent<E>>)
    requires Sequenced(log)
    ensures Sequenced(log + Envelopes(id, base, batch, Consecutive(|log| + 1, |batch|)))
  {
  }

  /**
   * What one append means. It succeeds exactly if nothing was expected, or the stream was
   * expected to be empty and is, or to be as long as it is; a failure says which, and changes
   * nothing. A success adds one envelope per event, in order, with the next revisions and
   * the given sequences, to the addressed stream and to no other.
   */
  lemma AppendMeaning<Id(!new), E>(
    log: Log<Id, E>, id: Id, expected: ExpectedRevision, batch: seq<NewEvent<E>>, sequences: seq<nat>, other: Id)
    requires |sequences| == |batch|
    ensures var (log', result) := Append(log, id, expected, batch, sequences);
      && (result.Ok? <==>
            expected == Any || (expected == NoStream && Stream(log, id) == []) || expected == Exact(|Stream(log, id)|))
      && (result.Err? ==>
            && log' == log
            && result.error == if expected == NoStream then StreamAlreadyExists
                               else WrongExpectedRevision(expected, |Stream(log, id)|))
      && (result.Ok? ==>
            && log' == log + result.value && |result.value| == |batch|
            && forall k | 0 <= k < |batch| ::
                 result.value[k] == Envelope(batch[k].eventId, id, |Stream(log, id)| + 1 + k, Some(sequences[k]),
                                             batch[k].event, batch[k].recordedAt))
      && Stream(log', other) ==
           Stream(log, other) + (if result.Ok? && other == id then result.value else [])
  {
    EnvelopesOwned(id, Revision(log, id), batch, sequences);
    AppendedStream(log, id, Envelopes(id, Revision(log, id), batch, sequences), other);
  }
}
