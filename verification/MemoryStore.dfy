/**
 * The in-memory event store: one global vector of envelopes plus, for every stream,
 * the vector of its positions in that global vector.
 */
module MemoryStore {
  import opened Common
  import opened EventLog

  /** Positions of one stream in the global log, ascending. */
  ghost function Positions<Id(!new), E>(log: Log<Id, E>, id: Id): seq<nat> {
    if log == [] then [] else
      Positions(log[..|log| - 1], id) + if log[|log| - 1].aggregateId == id then [|log| - 1] else []
  }

  lemma {:induction false} PositionsCount<Id(!new), E>(log: Log<Id, E>, id: Id)
    ensures |Positions(log, id)| == Revision(log, id)
  {
    if log != [] {
      PositionsCount(log[..|log| - 1], id);
    }
  }

  /** The k-th position holds the k-th event of the stream, and positions ascend. */
  lemma {:induction false} PositionsRead<Id(!new), E>(log: Log<Id, E>, id: Id, k: nat)
    requires k < |Positions(log, id)|
    ensures Positions(log, id)[k] < |log| && k < Revision(log, id)
    ensures log[Positions(log, id)[k]] == Stream(log, id)[k]
    ensures k > 0 ==> Positions(log, id)[k - 1] < Positions(log, id)[k]
  {
    var init := log[..|log| - 1];
    PositionsCount(log, id);
    PositionsCount(init, id);
    if k < |Positions(init, id)| {
      PositionsRead(init, id, k);
    } else if k > 0 {
      PositionsRead(init, id, k - 1);
    }
  }

  /** Positions are complete: a position is listed exactly when it holds the id. */
  lemma {:induction false} PositionsComplete<Id(!new), E>(log: Log<Id, E>, id: Id, p: nat)
    requires p < |log|
    ensures p in Positions(log, id) <==> log[p].aggregateId == id
  {
    var init := log[..|log| - 1];
    if p < |init| {
      PositionsComplete(init, id, p);
    } else if p in Positions(init, id) {
      var k :| 0 <= k < |Positions(init, id)| && Positions(init, id)[k] == p;
      PositionsRead(init, id, k);
    }
  }

  lemma PositionsPush<Id(!new), E>(log: Log<Id, E>, e: Envelope<Id, E>, id: Id)
    ensures Positions(log + [e], id) == Positions(log, id) + if e.aggregateId == id then [|log|] else []
  {
    assert (log + [e])[..|log|] == log;
  }

  lemma {:induction false} PositionsAppend<Id(!new), E>(log: Log<Id, E>, owner: Id, batch: Log<Id, E>, id: Id)
    requires OneStream(batch, owner)
    ensures Positions(log + batch, id) ==
            Positions(log, id) + if id == owner then Consecutive(|log|, |batch|) else []
    decreases |batch|
  {
    if batch == [] {
      assert log + batch == log;
    } else {
      var init, last := batch[..|batch| - 1], batch[|batch| - 1];
      calc {
        Positions(log + batch, id);
        { assert log + batch == (log + init) + [last]; }
        Positions((log + init) + [last], id);
        { PositionsPush(log + init, last, id); }
        Positions(log + init, id) + if last.aggregateId == id then [|log + init|] else [];
        { PositionsAppend(log, owner, init, id); }
        (Positions(log, id) + if id == owner then Consecutive(|log|, |init|) else [])
          + if id == owner then [|log + init|] else [];
        { assert Consecutive(|log|, |batch|) == Consecutive(|log|, |init|) + [|log + init|]; }
        Positions(log, id) + if id == owner then Consecutive(|log|, |batch|) else [];
      }
    }
  }

  /** The per-stream indices are exactly the ascending positions of each stream that has events. */
  ghost predicate Indexed<Id(!new), E>(streams: map<Id, seq<nat>>, log: Log<Id, E>) {
    && (forall id :: id in streams <==> Positions(log, id) != [])
    && (forall id | id in streams :: streams[id] == Positions(log, id))
  }

  lemma IndexedAppend<Id(!new), E>(streams: map<Id, seq<nat>>, log: Log<Id, E>, id: Id, batch: Log<Id, E>)
    requires Indexed(streams, log)
    requires batch != [] && OneStream(batch, id)
    ensures var indices := if id in streams then streams[id] else [];
            Indexed(streams[id := indices + Consecutive(|log|, |batch|)], log + batch)
  {
    hide Positions;
    forall other ensures Positions(log + batch, other) ==
        Positions(log, other) + if other == id then Consecutive(|log|, |batch|) else [] {
      PositionsAppend(log, id, batch, other);
    }
  }

  /** Committing a batch keeps all three parts of the store's invariant. */
  lemma CommitKeepsInvariant<Id(!new), E>(
    streams: map<Id, seq<nat>>, log: Log<Id, E>, id: Id, events: seq<NewEvent<E>>)
    requires Indexed(streams, log) && Ranked(log) && Sequenced(log)
    requires events != []
    ensures var batch := Envelopes(id, Revision(log, id), events, Consecutive(|log| + 1, |events|));
            var indices := (if id in streams then streams[id] else []) + Consecutive(|log|, |events|);
            && Indexed(streams[id := indices], log + batch)
            && Ranked(log + batch) && Sequenced(log + batch)
  {
    var batch := Envelopes(id, Revision(log, id), events, Consecutive(|log| + 1, |events|));
    assert OneStream(batch, id) by {
      EnvelopesOwned(id, Revision(log, id), events, Consecutive(|log| + 1, |events|));
    }
    assert Ranked(log + batch) by { RankedAppend(log, id, batch); }
    assert Sequenced(log + batch) by { SequencedAppend(log, id, Revision(log, id), events); }
    IndexedAppend(streams, log, id, batch);
  }

  class InMemoryEventStore<Id(==,!new), E> {
    var streams: map<Id, seq<nat>>
    var global: Log<Id, E>
    var nextSequence: nat

    /** Indices agree with the log, sequences are 1..N, revisions are ranks. */
    ghost predicate Valid()
      reads this
    {
      && Ranked(global)
      && Sequenced(global)
      && nextSequence == |global| + 1
      && Indexed(streams, global)
    }

    constructor ()
      ensures Valid() && global == []
    {
      streams, global, nextSequence := map[], [], 1;
    }

    method Clear()
      modifies this
      ensures Valid() && global == []
    {
      streams, global, nextSequence := map[], [], 1;
    }

    function StreamCount(): (r: nat)
      requires Valid()
      reads this
      ensures r == |set e | e in global :: e.aggregateId|
    {
      assert streams.Keys == set e | e in global :: e.aggregateId by {
        forall e | e in global ensures e.aggregateId in streams {
          var p :| 0 <= p < |global| && global[p] == e;
          PositionsComplete(global, e.aggregateId, p);
        }
        forall id | id in streams ensures id in set e | e in global :: e.aggregateId {
          PositionsRead(global, id, 0);
          PositionsComplete(global, id, Positions(global, id)[0]);
        }
      }
      |streams|
    }

    function Load(id: Id): (r: Log<Id, E>)
      requires Valid()
      reads this
      ensures r == Stream(global, id)
    {
      PositionsCount(global, id);
      var events := global;
      var indices := if id in streams then streams[id] else [];
      assert forall k | 0 <= k < |indices| ::
          k < Revision(events, id) && indices[k] < |events| && events[indices[k]] == Stream(events, id)[k] by {
        forall k | 0 <= k < |indices| ensures
            k < Revision(events, id) && indices[k] < |events| && events[indices[k]] == Stream(events, id)[k] {
          PositionsRead(events, id, k);
        }
      }
      seq(|indices|, i requires 0 <= i < |indices| && indices[i] < |events| => events[indices[i]])
    }

    function LoadAfterRevision(id: Id, revision: nat): (r: Log<Id, E>)
      requires Valid()
      reads this
      ensures r == if revision <= Revision(global, id) then Stream(global, id)[revision..] else []
    {
      assert forall k | 0 <= k < Revision(global, id) :: Stream(global, id)[k].revision == k + 1 by {
        forall k | 0 <= k < Revision(global, id) ensures Stream(global, id)[k].revision == k + 1 {
          StreamRevisions(global, id, k);
        }
      }
      AfterRevisionIsSuffix(Load(id), revision);
      AfterRevision(Load(id), revision)
    }

    /** Binary search for the first position in `lo..hi` whose sequence exceeds `checkpoint`. */
    function PartitionPoint(checkpoint: nat, lo: nat, hi: nat): (r: nat)
      requires Valid() && lo <= hi <= |global|
      requires lo <= checkpoint && (hi < |global| ==> checkpoint <= hi)
      reads this
      ensures r == if checkpoint <= |global| then checkpoint else |global|
      decreases hi - lo
    {
      if lo == hi then lo else
        var mid := lo + (hi - lo) / 2;
        if global[mid].sequence.Some? && global[mid].sequence.value <= checkpoint
        then PartitionPoint(checkpoint, mid + 1, hi)
        else PartitionPoint(checkpoint, lo, mid)
    }

    /** Everything before the result was already read, everything from it on was not. */
    function FirstIndexAfter(checkpoint: Option<nat>): (r: nat)
      requires Valid()
      reads this
      ensures r <= |global| && global[r..] == After(global, checkpoint)
    {
      AfterIsSuffix(global, checkpoint);
      match checkpoint
      case None => 0
      case Some(sequence) => PartitionPoint(sequence, 0, |global|)
    }

    function LoadGlobalAfter(sequence: Option<nat>): (r: Log<Id, E>)
      requires Valid()
      reads this
      ensures r == After(global, sequence)
    {
      global[FirstIndexAfter(sequence)..]
    }

    function LoadGlobalAfterLimited(sequence: Option<nat>, limit: nat): (r: Log<Id, E>)
      requires Valid() && limit > 0
      reads this
      ensures r == Take(After(global, sequence), limit)
    {
      var start := FirstIndexAfter(sequence);
      var end := if |global| <= start + limit then |global| else start + limit;
      assert global[start..end] == Take(global[start..], limit);
      global[start..end]
    }

    /** Pushes one sealed envelope per event onto the global vector. */
    method PushBatch(id: Id, actual: nat, events: seq<NewEvent<E>>)
      returns (streamEvents: Log<Id, E>, newIndices: seq<nat>)
      modifies this`global, this`nextSequence
      ensures streamEvents == Envelopes(id, actual, events, Consecutive(old(nextSequence), |events|))
      ensures newIndices == Consecutive(|old(global)|, |events|)
      ensures global == old(global) + streamEvents
      ensures nextSequence == old(nextSequence) + |events|
    {
      streamEvents, newIndices := [], [];
      for k := 0 to |events|
        invariant nextSequence == old(nextSequence) + k
        invariant |streamEvents| == |newIndices| == k
        invariant global == old(global) + streamEvents
        invariant forall i | 0 <= i < k :: newIndices[i] == |old(global)| + i
        invariant forall i | 0 <= i < k :: streamEvents[i] == Seal(events[i], id, actual + 1 + i, old(nextSequence) + i)
      {
        var sequence := nextSequence;
        nextSequence := nextSequence + 1;
        var envelope := Seal(events[k], id, actual + |streamEvents| + 1, sequence);
        newIndices := newIndices + [|global|];
        global := global + [envelope];
        streamEvents := streamEvents + [envelope];
      }
    }

    /** The append is the abstract one with sequences handed out by the counter. */
    method Append(id: Id, expected: ExpectedRevision, events: seq<NewEvent<E>>)
      returns (result: AppendResult<Id, E>)
      requires Valid()
      modifies this
      ensures Valid()
      ensures (global, result) ==
              EventLog.Append(old(global), id, expected, events, Consecutive(old(nextSequence), |events|))
    {
      var actual := if id in streams then |streams[id]| else 0;
      PositionsCount(global, id);
      match CheckExpected(expected, actual) {
        case Some(error) => return Err(error);
        case None =>
      }
      if events == [] {
        assert global + [] == global;
        return Ok([]);
      }
      var streamEvents, newIndices := PushBatch(id, actual, events);
      streams := streams[id := (if id in streams then streams[id] else []) + newIndices];
      CommitKeepsInvariant(old(streams), old(global), id, events);
      result := Ok(streamEvents);
    }
  }
}
