/**
 * The events table of the SQL stores: rows under two unique constraints, `event_id` and
 * `(aggregate_type, aggregate_id, revision)`, with a database-assigned sequence.
 * Rows are listed in commit order; no statement here depends on that order.
 */
module SqlTable {
  import opened Common
  import opened EventLog

  datatype StoreError =
    | Concurrency(conflict: ConcurrencyError)
    | Backend
    | Transport

  /** One committed batch, with the idempotency key it was committed under, if any. */
  datatype Commit<+Id, +E> = Commit(key: Option<string>, id: Id, envelopes: seq<Envelope<Id, E>>)

  /** The rows of the committed batches, in commit order. */
  function Flatten<Id, E>(commits: seq<Commit<Id, E>>): Log<Id, E> {
    if commits == [] then [] else Flatten(commits[..|commits| - 1]) + commits[|commits| - 1].envelopes
  }

  /** What was committed under a key. */
  ghost function KeyCommits<Id, E>(commits: seq<Commit<Id, E>>, key: string): seq<Commit<Id, E>> {
    Filter(commits, (c: Commit<Id, E>) => c.key == Some(key))
  }

  /** `SELECT COALESCE(MAX(revision), 0) ... WHERE aggregate_id = id`. */
  function MaxRevision<Id(==), E>(rows: Log<Id, E>, id: Id): nat {
    if rows == [] then 0 else
      var rest := MaxRevision(rows[..|rows| - 1], id);
      var last := rows[|rows| - 1];
      if last.aggregateId == id && last.revision > rest then last.revision else rest
  }

  predicate RevisionClash<Id(==), E>(rows: Log<Id, E>, id: Id, base: nat, count: nat) {
    exists i | 0 <= i < |rows| :: rows[i].aggregateId == id && base < rows[i].revision <= base + count
  }

  function BatchIds<E>(batch: seq<NewEvent<E>>): set<string> {
    set i | 0 <= i < |batch| :: batch[i].eventId
  }

  function RowIds<Id, E>(rows: Log<Id, E>): set<string> {
    set i | 0 <= i < |rows| :: rows[i].eventId
  }

  predicate DistinctIds<E>(batch: seq<NewEvent<E>>) {
    forall i, j | 0 <= i < j < |batch| :: batch[i].eventId != batch[j].eventId
  }

  /** The `event_id` constraint over the whole table. */
  ghost predicate UniqueEventIds<Id, E>(rows: Log<Id, E>) {
    forall i, j | 0 <= i < j < |rows| :: rows[i].eventId != rows[j].eventId
  }

  lemma RankedPrefix<Id(!new), E>(rows: Log<Id, E>, n: nat)
    requires Ranked(rows) && n <= |rows|
    ensures Ranked(rows[..n])
  {
    forall i | 0 <= i < n ensures rows[..n][i].revision == Revision(rows[..n][..i], rows[..n][i].aggregateId) + 1 {
      assert rows[..n][..i] == rows[..i];
    }
  }

  /** With revisions equal to ranks, `MAX(revision)` is the stream length. */
  lemma {:induction false} MaxRevisionIsLength<Id(!new), E>(rows: Log<Id, E>, id: Id)
    requires Ranked(rows)
    ensures MaxRevision(rows, id) == Revision(rows, id)
  {
    if rows != [] {
      RankedPrefix(rows, |rows| - 1);
      MaxRevisionIsLength(rows[..|rows| - 1], id);
    }
  }

  /** Every revision from 1 to the stream length is present in the table. */
  lemma RevisionPresent<Id(!new), E>(rows: Log<Id, E>, id: Id, revision: nat)
    requires Ranked(rows) && 1 <= revision <= Revision(rows, id)
    ensures exists i | 0 <= i < |rows| :: rows[i].aggregateId == id && rows[i].revision == revision
  {
    StreamRevisions(rows, id, revision - 1);
  }

  lemma {:induction false} RevisionsBounded<Id(!new), E>(rows: Log<Id, E>, id: Id, i: nat)
    requires Ranked(rows) && i < |rows| && rows[i].aggregateId == id
    ensures rows[i].revision <= Revision(rows, id)
  {
    assert rows == rows[..i + 1] + rows[i + 1..];
    StreamConcat(rows[..i + 1], rows[i + 1..], id);
    assert rows[..i + 1][..i] == rows[..i];
  }

  /**
   * The unique constraint alone detects staleness: inserting a non-empty batch after a
   * revision read earlier clashes exactly when the stream has grown since.
   */
  lemma ClashIffStale<Id(!new), E>(rows: Log<Id, E>, id: Id, read: nat, count: nat)
    requires Ranked(rows) && read <= Revision(rows, id) && count > 0
    ensures RevisionClash(rows, id, read, count) <==> read < Revision(rows, id)
  {
    if read < Revision(rows, id) {
      RevisionPresent(rows, id, read + 1);
    } else {
      forall i | 0 <= i < |rows| && rows[i].aggregateId == id ensures rows[i].revision <= read {
        RevisionsBounded(rows, id, i);
      }
    }
  }

  ghost predicate Ascending<Id, E>(rows: Log<Id, E>) {
    forall i, j | 0 <= i < j < |rows| :: rows[i].revision < rows[j].revision
  }

  /** Another listing's last row is this listing's last row. */
  lemma SameLast<Id, E>(a: Log<Id, E>, b: Log<Id, E>)
    requires multiset(a) == multiset(b) && a != [] && b != []
    requires Ascending(a) && Ascending(b)
    ensures a[|a| - 1] == b[|b| - 1]
  {
    var x, y := a[|a| - 1], b[|b| - 1];
    assert x in multiset(b) && y in multiset(a);
    var i :| 0 <= i < |a| && a[i] == y;
    var j :| 0 <= j < |b| && b[j] == x;
  }

  lemma WithoutLast<Id, E>(a: Log<Id, E>)
    requires a != [] && Ascending(a)
    ensures multiset(a[..|a| - 1]) == multiset(a) - multiset{a[|a| - 1]}
    ensures Ascending(a[..|a| - 1])
  {
    assert a == a[..|a| - 1] + [a[|a| - 1]];
  }

  /** `ORDER BY revision` has one possible answer: the stream in commit order. */
  lemma {:induction false} OrderByRevision<Id(!new), E>(a: Log<Id, E>, b: Log<Id, E>)
    requires multiset(a) == multiset(b)
    requires Ascending(a) && Ascending(b)
    ensures a == b
    decreases |a|
  {
    assert |multiset(a)| == |a| && |multiset(b)| == |b|;
    if a != [] {
      SameLast(a, b);
      WithoutLast(a);
      WithoutLast(b);
      OrderByRevision(a[..|a| - 1], b[..|b| - 1]);
      assert a == a[..|a| - 1] + [a[|a| - 1]];
    }
  }

  /** A stream read `ORDER BY revision` is the stream, however the rows were found. */
  lemma LoadIsStream<Id(!new), E>(rows: Log<Id, E>, id: Id, selected: Log<Id, E>)
    requires Ranked(rows)
    requires multiset(selected) == multiset(Stream(rows, id))
    requires Ascending(selected)
    ensures selected == Stream(rows, id)
  {
    var stream := Stream(rows, id);
    forall k | 0 <= k < |stream| ensures stream[k].revision == k + 1 {
      StreamRevisions(rows, id, k);
    }
    OrderByRevision(selected, stream);
  }

  lemma RowIdsConcat<Id, E>(a: Log<Id, E>, b: Log<Id, E>)
    ensures RowIds(a + b) == RowIds(a) + RowIds(b)
  {
    forall x | x in RowIds(a) + RowIds(b) ensures x in RowIds(a + b) {
      if x in RowIds(a) {
        var i :| 0 <= i < |a| && a[i].eventId == x;
        assert (a + b)[i].eventId == x;
      } else {
        var i :| 0 <= i < |b| && b[i].eventId == x;
        assert (a + b)[|a| + i].eventId == x;
      }
    }
  }

  lemma RowIdsOfBatch<Id, E>(id: Id, base: nat, batch: seq<NewEvent<E>>, sequences: seq<nat>)
    requires |sequences| == |batch|
    ensures RowIds(Envelopes(id, base, batch, sequences)) == BatchIds(batch)
  {
    var rows := Envelopes(id, base, batch, sequences);
    assert forall i | 0 <= i < |batch| :: rows[i].eventId == batch[i].eventId;
  }

  /** Inserting distinct fresh ids keeps the `event_id` constraint. */
  lemma InsertKeepsUnique<Id, E>(rows: Log<Id, E>, id: Id, base: nat, batch: seq<NewEvent<E>>, sequences: seq<nat>)
    requires UniqueEventIds(rows) && DistinctIds(batch) && RowIds(rows) !! BatchIds(batch)
    requires |sequences| == |batch|
    ensures UniqueEventIds(rows + Envelopes(id, base, batch, sequences))
  {
    var more := Envelopes(id, base, batch, sequences);
    var all := rows + more;
    forall i, j | 0 <= i < j < |all| ensures all[i].eventId != all[j].eventId {
      if i < |rows| <= j {
        assert rows[i].eventId in RowIds(rows);
        assert more[j - |rows|].eventId == batch[j - |rows|].eventId;
        assert batch[j - |rows|].eventId in BatchIds(batch);
      }
    }
  }

  function MapUniqueViolation(expected: ExpectedRevision, current: nat): ConcurrencyError {
    match expected
    case NoStream => StreamAlreadyExists
    case _ => WrongExpectedRevision(expected, current)
  }

  /** Outcome of the multi-row insert at a revision read earlier. */
  function InsertResult<Id(==), E>(
    rows: Log<Id, E>, id: Id, expected: ExpectedRevision, read: nat,
    batch: seq<NewEvent<E>>, sequences: seq<nat>, rereadWorks: bool, revisionFirst: bool
  ): Result<Log<Id, E>, StoreError>
    requires |sequences| == |batch|
  {
    var revisionClash := RevisionClash(rows, id, read, |batch|);
    var idClash := !(RowIds(rows) !! BatchIds(batch)) || !DistinctIds(batch);
    if revisionClash && (!idClash || revisionFirst) then
      Err(Concurrency(MapUniqueViolation(expected, if rereadWorks then MaxRevision(rows, id) else read)))
    else if idClash then Err(Backend)
    else Ok(Envelopes(id, read, batch, sequences))
  }

  /**
   * What the multi-row insert answers. It succeeds exactly if the stream holds no revision
   * that the batch would take and every event id is new and distinct. Otherwise a taken
   * revision is a concurrency error (the stream exists already, for a caller that expected
   * none, and a wrong revision for any other), a taken id is a backend error, and with both
   * the database picks.
   */
  lemma InsertMeaning<Id, E>(
    rows: Log<Id, E>, id: Id, expected: ExpectedRevision, read: nat,
    batch: seq<NewEvent<E>>, sequences: seq<nat>, rereadWorks: bool, revisionFirst: bool)
    requires |sequences| == |batch|
    ensures var result := InsertResult(rows, id, expected, read, batch, sequences, rereadWorks, revisionFirst);
      var taken := exists row | row in rows :: row.aggregateId == id && read < row.revision <= read + |batch|;
      var isNew := RowIds(rows) !! BatchIds(batch)
        && forall i, j | 0 <= i < |batch| && 0 <= j < |batch| && i != j :: batch[i].eventId != batch[j].eventId;
      var current := if rereadWorks then MaxRevision(rows, id) else read;
      && (!taken && isNew ==> result == Ok(Envelopes(id, read, batch, sequences)))
      && (taken && (isNew || revisionFirst) ==>
            result == Err(Concurrency(if expected.NoStream? then StreamAlreadyExists
                                      else WrongExpectedRevision(expected, current))))
      && (!isNew && !(taken && revisionFirst) ==> result == Err(Backend))
  {
    hide MaxRevision, Envelopes, RowIds, BatchIds;
    if RevisionClash(rows, id, read, |batch|) {
      var i :| 0 <= i < |rows| && rows[i].aggregateId == id && read < rows[i].revision <= read + |batch|;
      assert rows[i] in rows;
    }
  }

  /** The `(revision, sequence)` pair of each inserted row. */
  function InsertedPairs(read: nat, sequences: seq<nat>): (r: seq<(nat, nat)>)
    ensures |r| == |sequences|
  {
    seq(|sequences|, i requires 0 <= i < |sequences| => (read + 1 + i, sequences[i]))
  }

  lemma BatchIdsPush<E>(batch: seq<NewEvent<E>>, e: NewEvent<E>)
    ensures BatchIds(batch + [e]) == BatchIds(batch) + {e.eventId}
  {
    forall x | x in BatchIds(batch) + {e.eventId} ensures x in BatchIds(batch + [e]) {
      if x == e.eventId {
        assert (batch + [e])[|batch|].eventId == x;
      } else {
        var i :| 0 <= i < |batch| && batch[i].eventId == x;
        assert (batch + [e])[i].eventId == x;
      }
    }
  }

  /** One connection's view of the events table, with the insert's own loops. */
  class EventsTable<Id(==,!new), E> {
    var rows: Log<Id, E>

    constructor ()
      ensures rows == []
    {
      rows := [];
    }

    /** The map from revision to assigned sequence, built from RETURNING rows in any order. */
    method MatchSequences(read: nat, ghost sequences: seq<nat>, returning: seq<(nat, nat)>)
      returns (byRevision: map<nat, nat>)
      requires multiset(returning) == multiset(InsertedPairs(read, sequences))
      ensures forall r | read < r <= read + |sequences| :: r in byRevision && byRevision[r] == sequences[r - read - 1]
    {
      ghost var pairs := InsertedPairs(read, sequences);
      byRevision := map[];
      for k := 0 to |returning|
        invariant forall r | r in byRevision ::
          read < r <= read + |sequences| && byRevision[r] == sequences[r - read - 1]
        invariant forall j | 0 <= j < k :: returning[j].0 in byRevision
      {
        assert returning[k] in multiset(pairs);
        byRevision := byRevision[returning[k].0 := returning[k].1];
      }
      forall r | read < r <= read + |sequences| ensures r in byRevision {
        assert pairs[r - read - 1] in multiset(returning);
      }
    }

    /**
     * Insert, then match the returned `(revision, sequence)` pairs back to the events by
     * revision, whatever order the database returned them in.
     */
    method InsertPrepared(
      id: Id, expected: ExpectedRevision, read: nat, batch: seq<NewEvent<E>>, sequences: seq<nat>,
      returning: seq<(nat, nat)>, rereadWorks: bool, revisionFirst: bool)
      returns (result: Result<Log<Id, E>, StoreError>)
      requires |sequences| == |batch|
      // RETURNING yields one pair per inserted row, in any order.
      requires |returning| == |batch|
      requires multiset(returning) == multiset(InsertedPairs(read, sequences))
      modifies this
      ensures result == InsertResult(old(rows), id, expected, read, batch, sequences, rereadWorks, revisionFirst)
      ensures rows == old(rows) + if result.Ok? then result.value else []
      ensures result.Ok? <==>
        && !RevisionClash(old(rows), id, read, |batch|)
        && DistinctIds(batch) && RowIds(old(rows)) !! BatchIds(batch)
    {
      var revisions: seq<nat> := [];
      var eventIds := {};
      for k := 0 to |batch|
        invariant revisions == Consecutive(read + 1, k)
        invariant eventIds == BatchIds(batch[..k])
      {
        revisions := revisions + [read + k + 1];
        eventIds := eventIds + {batch[k].eventId};
        assert batch[..k + 1] == batch[..k] + [batch[k]];
        assert BatchIds(batch[..k + 1]) == BatchIds(batch[..k]) + {batch[k].eventId} by {
          BatchIdsPush(batch[..k], batch[k]);
        }
      }
      assert batch[..|batch|] == batch;
      var revisionClash := RevisionClash(rows, id, read, |revisions|);
      var idClash := !(RowIds(rows) !! eventIds) || !DistinctIds(batch);
      if revisionClash && (!idClash || revisionFirst) {
        return Err(Concurrency(MapUniqueViolation(expected, if rereadWorks then MaxRevision(rows, id) else read)));
      }
      if idClash {
        return Err(Backend);
      }
      var byRevision := MatchSequences(read, sequences, returning);
      var committed: Log<Id, E> := [];
      for k := 0 to |batch|
        invariant |committed| == k
        invariant forall i | 0 <= i < k :: committed[i] == Seal(batch[i], id, read + 1 + i, sequences[i])
      {
        var revision := read + k + 1;
        committed := committed + [Seal(batch[k], id, revision, byRevision[revision])];
      }
      assert committed == Envelopes(id, read, batch, sequences);
      rows := rows + committed;
      result := Ok(committed);
    }
  }
}
