/**
 * The SQLite idempotent append: one immediate (exclusive) transaction that looks the key
 * up, reserves it, checks the revision, inserts row by row and completes the record.
 */
module SqliteStore {
  import opened Common
  import opened EventLog
  import opened SqlTable
  import LeaseIdempotency

  /** A row of the idempotency table, lease columns included. */
  datatype Record<+Id, +E> =
    | Pending(owner: Option<string>, expiresAtMs: Option<int>)
    | Complete(value: Option<seq<Envelope<Id, E>>>)

  datatype AppendError = KeyPending | Store(error: StoreError)

  type Reply<Id, E> = Result<seq<Envelope<Id, E>>, AppendError>

  /** The lease is still running; rows without usable lease columns get a fresh lease. */
  predicate LeaseRuns(owner: Option<string>, expiresAtMs: Option<int>, nowMs: nat) {
    if owner.Some? && owner.value != "" && expiresAtMs.Some? && expiresAtMs.value >= 0
    then nowMs < expiresAtMs.value
    else true
  }

  /** The whole transaction as one step on the two tables. */
  ghost function ImmediateAppend<Id(!new), E>(
    rows: Log<Id, E>, records: map<string, Record<Id, E>>, key: string, id: Id, expected: ExpectedRevision,
    batch: seq<NewEvent<E>>, sequences: seq<nat>, nowMs: nat
  ): (Log<Id, E>, map<string, Record<Id, E>>, Reply<Id, E>)
    requires |sequences| == |batch|
  {
    if key in records then
      (match records[key]
       case Complete(Some(value)) => (rows, records, Ok(value))
       case Complete(None) => (rows, records, Err(Store(Backend)))
       case Pending(owner, expires) =>
         (rows, records, Err(if LeaseRuns(owner, expires, nowMs) then KeyPending else Store(Backend))))
    else if !DistinctIds(batch) || !(RowIds(rows) !! BatchIds(batch)) then
      (match CheckExpected(expected, Revision(rows, id))
       case Some(conflict) => (rows, records, Err(Store(Concurrency(conflict))))
       case None => (rows, records, Err(Store(Backend))))
    else
      (match Append(rows, id, expected, batch, sequences)
       case (log, Ok(committed)) => (log, records[key := Complete(Some(committed))], Ok(committed))
       case (_, Err(conflict)) => (rows, records, Err(Store(Concurrency(conflict)))))
  }

  /** Row-by-row uniqueness checks add up to the check on the whole batch. */
  lemma NextInsert<Id, E>(
    before: Log<Id, E>, id: Id, actual: nat, batch: seq<NewEvent<E>>, sequences: seq<nat>, k: nat)
    requires k < |batch| == |sequences|
    requires DistinctIds(batch[..k]) && RowIds(before) !! BatchIds(batch[..k])
    ensures var soFar := before + Envelopes(id, actual, batch[..k], sequences[..k]);
      if batch[k].eventId in RowIds(soFar)
      then !DistinctIds(batch) || !(RowIds(before) !! BatchIds(batch))
      else DistinctIds(batch[..k + 1]) && RowIds(before) !! BatchIds(batch[..k + 1])
    ensures Envelopes(id, actual, batch[..k + 1], sequences[..k + 1]) ==
            Envelopes(id, actual, batch[..k], sequences[..k]) + [Seal(batch[k], id, actual + k + 1, sequences[k])]
  {
    var inserted := Envelopes(id, actual, batch[..k], sequences[..k]);
    RowIdsConcat(before, inserted);
    RowIdsOfBatch(id, actual, batch[..k], sequences[..k]);
    assert batch[..k + 1] == batch[..k] + [batch[k]];
    BatchIdsPush(batch[..k], batch[k]);
    var next := batch[k].eventId;
    assert next in BatchIds(batch);
    if next in BatchIds(batch[..k]) {
      var i :| 0 <= i < k && batch[..k][i].eventId == next;
      assert batch[i].eventId == batch[k].eventId;
    } else {
      forall i | 0 <= i < k ensures batch[i].eventId != next {
        assert batch[..k][i].eventId in BatchIds(batch[..k]);
      }
      var longer := batch[..k + 1];
      forall i, j | 0 <= i < j < |longer| ensures longer[i].eventId != longer[j].eventId {
        if j < k { assert longer[i] == batch[..k][i] && longer[j] == batch[..k][j]; }
      }
    }
  }

  class SqliteEventStore<Id(==,!new), E> {
    var rows: Log<Id, E>
    var records: map<string, Record<Id, E>>

    constructor ()
      ensures rows == [] && records == map[]
    {
      rows, records := [], map[];
    }

    method AppendIdempotent(
      key: string, id: Id, expected: ExpectedRevision, batch: seq<NewEvent<E>>, sequences: seq<nat>,
      nowMs: nat, owner: string)
      returns (reply: Reply<Id, E>)
      requires Ranked(rows)
      requires |sequences| == |batch|
      modifies this
      ensures (rows, records, reply) ==
              ImmediateAppend(old(rows), old(records), key, id, expected, batch, sequences, nowMs)
      ensures Ranked(rows)
    {
      hide Ranked, Stream, UniqueEventIds;
      if key in records {
        match records[key] {
          case Complete(Some(value)) => return Ok(value);
          case Complete(None) => return Err(Store(Backend));
          case Pending(leaseOwner, expires) =>
            return Err(if LeaseRuns(leaseOwner, expires, nowMs) then KeyPending else Store(Backend));
        }
      }
      var rollbackRows, rollbackRecords := rows, records;
      records := records[key := Pending(Some(owner), Some(nowMs + LeaseIdempotency.DEFAULT_LEASE_MS))];
      var actual := MaxRevision(rows, id);
      MaxRevisionIsLength(rows, id);
      match CheckExpected(expected, actual) {
        case Some(conflict) =>
          rows, records := rollbackRows, rollbackRecords;
          return Err(Store(Concurrency(conflict)));
        case None =>
      }
      var committed: Log<Id, E> := [];
      for k := 0 to |batch|
        invariant rows == rollbackRows + committed
        invariant committed == Envelopes(id, actual, batch[..k], sequences[..k])
        invariant DistinctIds(batch[..k]) && RowIds(rollbackRows) !! BatchIds(batch[..k])
        invariant records ==
          rollbackRecords[key := Pending(Some(owner), Some(nowMs + LeaseIdempotency.DEFAULT_LEASE_MS))]
      {
        NextInsert(rollbackRows, id, actual, batch, sequences, k);
        if batch[k].eventId in RowIds(rows) {
          rows, records := rollbackRows, rollbackRecords;
          return Err(Store(Backend));
        }
        var envelope := Seal(batch[k], id, actual + k + 1, sequences[k]);
        rows := rows + [envelope];
        committed := committed + [envelope];
      }
      assert batch[..|batch|] == batch && sequences[..|batch|] == sequences;
      records := records[key := Complete(Some(committed))];
      assert records == rollbackRecords[key := Complete(Some(committed))];
      AppendKeepsRanked(rollbackRows, id, expected, batch, sequences);
      reply := Ok(committed);
    }
  }

  /**
   * The call right after a success with the same key, whatever its other arguments, returns
   * the same batch and leaves both tables as they are.
   */
  lemma SecondCallReturnsFirst<Id(!new), E>(
    rows: Log<Id, E>, records: map<string, Record<Id, E>>, key: string, id: Id, expected: ExpectedRevision,
    batch: seq<NewEvent<E>>, sequences: seq<nat>, nowMs: nat,
    id2: Id, expected2: ExpectedRevision, batch2: seq<NewEvent<E>>, sequences2: seq<nat>, nowMs2: nat)
    requires |sequences| == |batch| && |sequences2| == |batch2|
    requires ImmediateAppend(rows, records, key, id, expected, batch, sequences, nowMs).2.Ok?
    ensures var (rows', records', reply) := ImmediateAppend(rows, records, key, id, expected, batch, sequences, nowMs);
      && ImmediateAppend(rows', records', key, id2, expected2, batch2, sequences2, nowMs2) == (rows', records', reply)
      && (key !in records ==> rows' == rows + reply.value)
  {
  }

  /**
   * A failed call leaves no reservation and no row behind; an unknown key succeeds exactly
   * if the expectation holds and the event ids are new.
   */
  lemma FailureLeavesNothing<Id(!new), E>(
    rows: Log<Id, E>, records: map<string, Record<Id, E>>, key: string, id: Id, expected: ExpectedRevision,
    batch: seq<NewEvent<E>>, sequences: seq<nat>, nowMs: nat)
    requires |sequences| == |batch|
    ensures var (rows', records', reply) := ImmediateAppend(rows, records, key, id, expected, batch, sequences, nowMs);
      && (reply.Err? ==> rows' == rows && records' == records)
      && (key !in records ==>
            (reply.Ok? <==> CheckExpected(expected, Revision(rows, id)).None?
                            && DistinctIds(batch) && RowIds(rows) !! BatchIds(batch)))
  {
  }

  /**
   * Why a call fails. Under a known key: its record is pending under a lease that still runs
   * (a lease without owner, expiry or sign runs anew), or the record is unusable. Under a new
   * key: the expectation is not met, with the error of the shared check, or else an event id
   * is taken or used twice.
   */
  lemma FailureReason<Id(!new), E>(
    rows: Log<Id, E>, records: map<string, Record<Id, E>>, key: string, id: Id, expected: ExpectedRevision,
    batch: seq<NewEvent<E>>, sequences: seq<nat>, nowMs: nat)
    requires |sequences| == |batch|
    ensures var reply := ImmediateAppend(rows, records, key, id, expected, batch, sequences, nowMs).2;
      if key in records then
        match records[key]
        case Complete(Some(value)) => reply == Ok(value)
        case Complete(None) => reply == Err(Store(Backend))
        case Pending(Some(owner), Some(expiresAtMs)) =>
          reply == Err(if owner == "" || expiresAtMs < 0 || nowMs < expiresAtMs then KeyPending else Store(Backend))
        case Pending(_, _) => reply == Err(KeyPending)
      else
        && (CheckExpected(expected, Revision(rows, id)).Some? ==>
              reply == Err(Store(Concurrency(CheckExpected(expected, Revision(rows, id)).value))))
        && (CheckExpected(expected, Revision(rows, id)).None? && reply.Err? ==>
              && reply == Err(Store(Backend))
              && (!DistinctIds(batch) || !(RowIds(rows) !! BatchIds(batch))))
  {
  }

  // ---- any number of calls, and purges ----

  /** Both tables, with what was committed, what callers were answered, and which keys were purged. */
  datatype Tables<Id, E> = Tables(
    rows: Log<Id, E>,
    records: map<string, Record<Id, E>>,
    commits: seq<Commit<Id, E>>,
    answers: seq<(string, seq<Envelope<Id, E>>)>,
    purged: set<string>)

  datatype Action<+Id, +E> =
    | CallAppend(
        key: string, id: Id, expected: ExpectedRevision, batch: seq<NewEvent<E>>, sequences: seq<nat>, nowMs: nat)
    | Purge(purgedKey: string)

  ghost function Step<Id(!new), E>(t: Tables<Id, E>, a: Action<Id, E>): Tables<Id, E> {
    match a
    case Purge(key) => t.(records := t.records - {key}, purged := t.purged + {key})
    case CallAppend(key, id, expected, batch, sequences, nowMs) =>
      if |sequences| != |batch| then t else
        var (rows, records, reply) :=
          ImmediateAppend(t.rows, t.records, key, id, expected, batch, sequences, nowMs);
        if reply.Err? then t.(rows := rows, records := records) else
          Tables(rows, records,
                 if key in t.records then t.commits
                 else t.commits + [Commit(Some(key), id, reply.value)],
                 t.answers + [(key, reply.value)], t.purged)
  }

  ghost function Run<Id(!new), E>(actions: seq<Action<Id, E>>): Tables<Id, E> {
    FoldLeft(Step, Tables([], map[], [], [], {}), actions)
  }

  ghost predicate RowsOk<Id(!new), E>(t: Tables<Id, E>) {
    && Ranked(t.rows) && UniqueEventIds(t.rows)
    && t.rows == Flatten(t.commits)
  }

  /** An unpurged key has no record and no commit, or one commit and a complete record equal to it. */
  ghost predicate KeyOk<Id(!new), E>(t: Tables<Id, E>, key: string) {
    && (key in t.records ==> t.records[key].Complete? && t.records[key].value.Some?)
    && (key !in t.purged ==>
          if key in t.records
          then && |KeyCommits(t.commits, key)| == 1
               && t.records[key] == Complete(Some(KeyCommits(t.commits, key)[0].envelopes))
          else KeyCommits(t.commits, key) == [])
  }

  /** An answer for an unpurged key is what its record holds. */
  ghost predicate AnswerOk<Id, E>(t: Tables<Id, E>, answer: (string, seq<Envelope<Id, E>>)) {
    answer.0 !in t.purged ==> answer.0 in t.records && t.records[answer.0] == Complete(Some(answer.1))
  }

  ghost predicate Inv<Id(!new), E>(t: Tables<Id, E>) {
    && RowsOk(t)
    && (forall key :: KeyOk(t, key))
    && (forall i | 0 <= i < |t.answers| :: AnswerOk(t, t.answers[i]))
  }

  /** What a first success for a key does to the tables. */
  ghost function Committed<Id(!new), E>(
    t: Tables<Id, E>, key: string, id: Id, batch: seq<NewEvent<E>>, sequences: seq<nat>): Tables<Id, E>
    requires |sequences| == |batch|
  {
    var envelopes := Envelopes(id, Revision(t.rows, id), batch, sequences);
    Tables(t.rows + envelopes, t.records[key := Complete(Some(envelopes))],
           t.commits + [Commit(Some(key), id, envelopes)], t.answers + [(key, envelopes)], t.purged)
  }

  lemma CommitKeepsRows<Id(!new), E>(
    t: Tables<Id, E>, key: string, id: Id, batch: seq<NewEvent<E>>, sequences: seq<nat>)
    requires RowsOk(t) && |sequences| == |batch|
    requires DistinctIds(batch) && RowIds(t.rows) !! BatchIds(batch)
    ensures RowsOk(Committed(t, key, id, batch, sequences))
  {
    var envelopes := Envelopes(id, Revision(t.rows, id), batch, sequences);
    var commit := Commit(Some(key), id, envelopes);
    InsertKeepsUnique(t.rows, id, Revision(t.rows, id), batch, sequences);
    AppendKeepsRanked(t.rows, id, Any, batch, sequences);
    assert (t.commits + [commit])[..|t.commits|] == t.commits;
  }

  lemma CommitKeepsKey<Id(!new), E>(
    t: Tables<Id, E>, key: string, id: Id, batch: seq<NewEvent<E>>, sequences: seq<nat>, other: string)
    requires KeyOk(t, other) && |sequences| == |batch| && key !in t.records
    ensures KeyOk(Committed(t, key, id, batch, sequences), other)
  {
    var commit := Commit(Some(key), id, Envelopes(id, Revision(t.rows, id), batch, sequences));
    FilterConcat(t.commits, [commit], (c: Commit<Id, E>) => c.key == Some(other));
    FilterAllOrNone([commit], (c: Commit<Id, E>) => c.key == Some(other));
    assert [commit][0] == commit;
    if key == other && other !in t.purged {
      assert KeyCommits(t.commits + [commit], other) == [commit];
    }
  }

  lemma CommitKeepsInv<Id(!new), E>(
    t: Tables<Id, E>, key: string, id: Id, batch: seq<NewEvent<E>>, sequences: seq<nat>)
    requires Inv(t) && |sequences| == |batch| && key !in t.records
    requires DistinctIds(batch) && RowIds(t.rows) !! BatchIds(batch)
    ensures Inv(Committed(t, key, id, batch, sequences))
  {
    hide RowsOk, KeyOk, RowIds, BatchIds, Envelopes, DistinctIds;
    CommitKeepsRows(t, key, id, batch, sequences);
    forall other ensures KeyOk(Committed(t, key, id, batch, sequences), other) {
      CommitKeepsKey(t, key, id, batch, sequences, other);
    }
    var t' := Committed(t, key, id, batch, sequences);
    forall i | 0 <= i < |t'.answers| ensures AnswerOk(t', t'.answers[i]) {
      if i < |t.answers| {
        assert AnswerOk(t, t.answers[i]);
      }
    }
  }

  lemma AnswerKeepsInv<Id(!new), E>(t: Tables<Id, E>, key: string)
    requires Inv(t) && key in t.records
    requires t.records[key].Complete? && t.records[key].value.Some?
    ensures Inv(t.(answers := t.answers + [(key, t.records[key].value.value)]))
  {
    var t' := t.(answers := t.answers + [(key, t.records[key].value.value)]);
    forall k ensures KeyOk(t', k) { assert KeyOk(t, k); }
    forall i | 0 <= i < |t'.answers| ensures AnswerOk(t', t'.answers[i]) {
      if i < |t.answers| { assert AnswerOk(t, t.answers[i]); }
    }
  }

  lemma PurgeKeepsInv<Id(!new), E>(t: Tables<Id, E>, key: string)
    requires Inv(t)
    ensures Inv(Step(t, Purge(key)))
  {
    var t' := Step(t, Purge(key));
    forall k ensures KeyOk(t', k) { assert KeyOk(t, k); }
    forall i | 0 <= i < |t'.answers| ensures AnswerOk(t', t'.answers[i]) { assert AnswerOk(t, t.answers[i]); }
  }

  lemma StepKeepsInv<Id(!new), E>(t: Tables<Id, E>, a: Action<Id, E>)
    requires Inv(t)
    ensures Inv(Step(t, a))
  {
    hide RowIds, BatchIds, Envelopes, DistinctIds, RowsOk, Stream, KeyCommits;
    match a
    case Purge(key) => PurgeKeepsInv(t, key);
    case CallAppend(key, id, expected, batch, sequences, nowMs) =>
      if |sequences| == |batch| {
        assert KeyOk(t, key);
        if key in t.records {
          AnswerKeepsInv(t, key);
        } else if DistinctIds(batch) && RowIds(t.rows) !! BatchIds(batch) {
          CommitKeepsInv(t, key, id, batch, sequences);
        }
      }
  }

  lemma {:induction false} RunKeepsInv<Id(!new), E>(actions: seq<Action<Id, E>>)
    ensures Inv(Run(actions))
  {
    hide Step;
    if actions != [] {
      RunKeepsInv(actions[..|actions| - 1]);
      StepKeepsInv(Run(actions[..|actions| - 1]), actions[|actions| - 1]);
    }
  }

  /**
   * Exactly once, for every sequence of calls with any keys and any purges: an unpurged key
   * has no record, no committed batch and no answer, or one batch, which is its record and
   * every answer ever given for it; and the event rows are those of the committed batches.
   */
  lemma ExactlyOnce<Id(!new), E>(actions: seq<Action<Id, E>>, key: string, i: nat)
    requires key !in Run(actions).purged
    ensures var t := Run(actions); var batches := KeyCommits(t.commits, key);
      && (key !in t.records ==> batches == [])
      && (key in t.records ==> |batches| == 1 && t.records[key] == Complete(Some(batches[0].envelopes)))
      && (i < |t.answers| && t.answers[i].0 == key ==> |batches| == 1 && t.answers[i].1 == batches[0].envelopes)
      && Ranked(t.rows) && UniqueEventIds(t.rows) && t.rows == Flatten(t.commits)
  {
    RunKeepsInv(actions);
    hide Run, KeyCommits;
    var t := Run(actions);
    assert KeyOk(t, key);
    assert i < |t.answers| ==> AnswerOk(t, t.answers[i]);
  }
}
