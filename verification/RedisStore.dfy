/**
 * The Redis event store: the server-side append script as an in-place change of counters,
 * sorted sets and hashes, and the client that calls it, parses its reply and reads the
 * indexes back. Everything refines the abstract log.
 */
module RedisStore {
  import opened Common
  import opened EventLog
  import opened Paging
  import opened RedisValues
  import opened Text
  import FlatHash
  import MemoryStore
  import RedisEvents

  type Hash = FlatHash.Hash

  datatype StoreError =
    | Concurrency(conflict: ConcurrencyError)
    | Backend
    | Deserialization

  // ---- the representation of a log ----

  function Position<Id, E>(e: Envelope<Id, E>): nat {
    if e.sequence.Some? then e.sequence.value else 0
  }

  ghost function Pairs<Id, E>(events: Log<Id, E>): (r: seq<Scored>)
    ensures |r| == |events|
  {
    seq(|events|, i requires 0 <= i < |events| => (Position(events[i]), events[i].revision))
  }

  /** A stream's index: every event's sequence, scored by its revision. */
  ghost function StreamIndex<Id(!new), E>(log: Log<Id, E>, id: Id): (r: seq<Scored>)
    ensures |r| == Revision(log, id)
  {
    Pairs(Stream(log, id))
  }

  /** The global index: every sequence, scored by itself. */
  function GlobalIndex(count: nat): (r: seq<Scored>)
    ensures |r| == count
  {
    seq(count, i requires 0 <= i < count => (i + 1, i + 1))
  }

  function CounterOf<Id>(counters: map<Id, nat>, id: Id): nat {
    if id in counters then counters[id] else 0
  }

  ghost predicate StreamIndexed<Id(!new), E>(streams: map<Id, seq<Scored>>, log: Log<Id, E>, id: Id) {
    At(streams, id) == StreamIndex(log, id)
  }

  ghost predicate HashStored<Id, E>(
    codec: RedisEvents.Codec<Id, E>, hashes: map<nat, Hash>, log: Log<Id, E>, i: nat)
    requires i < |log|
  {
    i + 1 in hashes && hashes[i + 1] == RedisEvents.EventHashOf(codec, log[i])
  }

  /** Both indexes and the event hashes hold exactly the events of `log`. */
  ghost predicate Indexed<Id(!new), E>(
    codec: RedisEvents.Codec<Id, E>, streams: map<Id, seq<Scored>>, global: seq<Scored>, hashes: map<nat, Hash>,
    log: Log<Id, E>)
  {
    && Sequenced(log) && Ranked(log)
    && (forall id :: StreamIndexed(streams, log, id))
    && global == GlobalIndex(|log|)
    && (forall i | 0 <= i < |log| :: HashStored(codec, hashes, log, i))
  }

  ghost predicate Counted<Id(!new), E>(revisions: map<Id, nat>, sequence: nat, log: Log<Id, E>) {
    && (forall id :: CounterOf(revisions, id) == Revision(log, id))
    && sequence == |log|
  }

  // ---- sorted sets ----

  function Without(index: seq<Scored>, member: nat): seq<Scored> {
    if index == [] then []
    else if index[0].0 == member then Without(index[1..], member)
    else [index[0]] + Without(index[1..], member)
  }

  function InsertByScore(index: seq<Scored>, member: nat, score: nat): seq<Scored> {
    if index == [] || index[0].1 > score then [(member, score)] + index
    else [index[0]] + InsertByScore(index[1..], member, score)
  }

  /** `ZADD`: a member has one score; the set stays ordered by score. */
  function ZAdd(index: seq<Scored>, member: nat, score: nat): seq<Scored> {
    InsertByScore(Without(index, member), member, score)
  }

  lemma {:induction false} WithoutNothing(index: seq<Scored>, member: nat)
    requires forall i | 0 <= i < |index| :: index[i].0 != member
    ensures Without(index, member) == index
  {
    if index != [] {
      WithoutNothing(index[1..], member);
    }
  }

  lemma {:induction false} ZAddAppends(index: seq<Scored>, member: nat, score: nat)
    requires forall i | 0 <= i < |index| :: index[i].0 != member && index[i].1 <= score
    ensures ZAdd(index, member, score) == index + [(member, score)]
  {
    if index != [] {
      ZAddAppends(index[1..], member, score);
      assert Without(index[1..], member) == index[1..] by { WithoutNothing(index[1..], member); }
      assert index == [index[0]] + index[1..];
    }
  }

  // ---- one event more ----

  /** In a represented log the k-th event of a stream is the log's event at its own sequence. */
  lemma StreamEvent<Id(!new), E>(log: Log<Id, E>, id: Id, k: nat)
    requires Sequenced(log) && Ranked(log) && k < Revision(log, id)
    ensures var e := Stream(log, id)[k];
      && 1 <= Position(e) <= |log| && log[Position(e) - 1] == e
      && e.revision == k + 1
      && StreamIndex(log, id)[k] == (Position(e), k + 1)
  {
    StreamRevisions(log, id, k);
    var i :| 0 <= i < |log| && log[i] == Stream(log, id)[k];
  }

  lemma StreamIndexPush<Id(!new), E>(log: Log<Id, E>, e: Envelope<Id, E>, id: Id)
    ensures StreamIndex(log + [e], id) ==
            StreamIndex(log, id) + if e.aggregateId == id then [(Position(e), e.revision)] else []
  {
    AppendedStream(log, e.aggregateId, [e], id);
  }

  lemma StreamZAdd<Id(!new), E>(log: Log<Id, E>, e: Envelope<Id, E>)
    requires Sequenced(log) && Ranked(log)
    requires e.sequence == Some(|log| + 1) && e.revision == Revision(log, e.aggregateId) + 1
    ensures ZAdd(StreamIndex(log, e.aggregateId), |log| + 1, e.revision) == StreamIndex(log + [e], e.aggregateId)
  {
    hide ZAdd, Stream;
    var index := StreamIndex(log, e.aggregateId);
    forall k | 0 <= k < |index| ensures index[k].0 != |log| + 1 && index[k].1 <= e.revision {
      StreamEvent(log, e.aggregateId, k);
    }
    ZAddAppends(index, |log| + 1, e.revision);
    StreamIndexPush(log, e, e.aggregateId);
  }

  lemma GlobalZAdd(count: nat)
    ensures ZAdd(GlobalIndex(count), count + 1, count + 1) == GlobalIndex(count + 1)
  {
    ZAddAppends(GlobalIndex(count), count + 1, count + 1);
  }

  /** The script's three writes for one event add exactly that event. */
  lemma IndexPush<Id(!new), E>(
    codec: RedisEvents.Codec<Id, E>, streams: map<Id, seq<Scored>>, global: seq<Scored>, hashes: map<nat, Hash>,
    log: Log<Id, E>, e: Envelope<Id, E>)
    requires Indexed(codec, streams, global, hashes, log)
    requires e.sequence == Some(|log| + 1) && e.revision == Revision(log, e.aggregateId) + 1
    ensures var id, n := e.aggregateId, |log| + 1;
      Indexed(codec, streams[id := ZAdd(At(streams, id), n, e.revision)], ZAdd(global, n, n),
              hashes[n := RedisEvents.EventHashOf(codec, e)], log + [e])
  {
    hide ZAdd, Stream, Ranked, StreamIndex, RedisEvents.EventHashOf;
    var id, n := e.aggregateId, |log| + 1;
    StreamZAdd(log, e);
    GlobalZAdd(|log|);
    assert Ranked(log + [e]) by { RankedAppend(log, id, [e]); }
    var streams' := streams[id := ZAdd(At(streams, id), n, e.revision)];
    var hashes' := hashes[n := RedisEvents.EventHashOf(codec, e)];
    assert StreamIndexed(streams, log, id);
    forall other ensures StreamIndexed(streams', log + [e], other) {
      assert StreamIndexed(streams, log, other);
      StreamIndexPush(log, e, other);
    }
    forall i | 0 <= i < |log + [e]| ensures HashStored(codec, hashes', log + [e], i) {
      if i < |log| { assert HashStored(codec, hashes, log, i); }
    }
  }

  // ---- the script's arguments and replies ----

  function ExpectedArg(expected: ExpectedRevision): (Bytes, nat) {
    match expected
    case Any => (Ascii("any"), 0)
    case NoStream => (Ascii("no_stream"), 0)
    case Exact(revision) => (Ascii("exact"), revision)
  }

  function Refused(reason: string, actual: nat): RedisValue
  {
    Array([Bulk(Ascii("ERR")), Bulk(Ascii(reason)), Int(actual)])
  }

  function Inconsistent(actual: nat, cardinality: nat): RedisValue {
    Array([Bulk(Ascii("ERR")), Bulk(Ascii("inconsistent_state")), Int(actual), Int(cardinality)])
  }

  function Appended(first: nat, last: nat, next: nat): RedisValue {
    Array([Bulk(Ascii("OK")), Int(first), Int(last), Int(next)])
  }

  datatype AppendEval = AppendEval(firstSequence: nat, lastSequence: nat, nextRevision: nat)

  function ParseOk(items: seq<RedisValue>): Result<AppendEval, StoreError>
    requires |items| >= 3
  {
    if |items| < 4 then Err(Deserialization) else
      var first, last, next := ValueU64(items[1]), ValueU64(items[2]), ValueU64(items[3]);
      if first.Err? || last.Err? || next.Err? then Err(Deserialization)
      else Ok(AppendEval(first.value, last.value, next.value))
  }

  /**
   * A refusal. The script sends a fourth item with an inconsistency, and only then; the code
   * indexes it unchecked, so on an inconsistency without it (which the script never sends)
   * it would panic where this gives a deserialization error.
   */
  function ParseErr(items: seq<RedisValue>, expected: ExpectedRevision): StoreError
    requires |items| >= 3
  {
    var reason, actual := ValueString(items[1]), ValueU64(items[2]);
    if reason.Err? || actual.Err? then Deserialization
    else if reason.value == Ascii("stream_exists") then Concurrency(StreamAlreadyExists)
    else if reason.value == Ascii("wrong_revision") then Concurrency(WrongExpectedRevision(expected, actual.value))
    else if reason.value == Ascii("inconsistent_state") && (|items| < 4 || ValueU64(items[3]).Err?) then Deserialization
    else Backend
  }

  function ParseAppendReply(reply: RedisValue, expected: ExpectedRevision): Result<AppendEval, StoreError> {
    match ArrayItems(reply)
    case Err(_) => Err(Deserialization)
    case Ok(items) =>
      if |items| < 3 then Err(Deserialization) else
        match ValueString(items[0])
        case Err(_) => Err(Deserialization)
        case Ok(status) =>
          if status == Ascii("OK") then ParseOk(items)
          else if status == Ascii("ERR") then Err(ParseErr(items, expected))
          else Err(Deserialization)
  }

  /** The client reads every reply of the script as what the script meant. */
  lemma RepliesParse(expected: ExpectedRevision, first: nat, last: nat, n: nat, cardinality: nat)
    ensures ParseAppendReply(Appended(first, last, n), expected) == Ok(AppendEval(first, last, n))
    ensures ParseAppendReply(Refused("stream_exists", n), expected) == Err(Concurrency(StreamAlreadyExists))
    ensures ParseAppendReply(Refused("wrong_revision", n), expected) ==
            Err(Concurrency(WrongExpectedRevision(expected, n)))
    ensures ParseAppendReply(Inconsistent(n, cardinality), expected) == Err(Backend)
  {
    hide IsUtf8, Ascii;
    AsciiIsUtf8(Ascii("OK"));
    AsciiIsUtf8(Ascii("ERR"));
    AsciiIsUtf8(Ascii("stream_exists"));
    AsciiIsUtf8(Ascii("wrong_revision"));
    AsciiIsUtf8(Ascii("inconsistent_state"));
  }

  predicate Worded(reply: RedisValue, status: string) {
    reply.Array? && |reply.items| >= 3 && ValueString(reply.items[0]) == Ok(Ascii(status))
  }

  predicate UnknownReason(reason: Result<Bytes, ValueError>) {
    && reason.Ok?
    && reason.value !in {Ascii("stream_exists"), Ascii("wrong_revision"), Ascii("inconsistent_state")}
  }

  /**
   * No other reply is taken for an answer: one without a known status, or without the numbers
   * and the reason that go with it, is a deserialization error, and a reason that the client
   * does not know is a backend error.
   */
  lemma OtherRepliesRefused(reply: RedisValue, expected: ExpectedRevision)
    ensures !Worded(reply, "OK") && !Worded(reply, "ERR") ==> ParseAppendReply(reply, expected) == Err(Deserialization)
    ensures Worded(reply, "OK") && (|reply.items| < 4 || exists k | 1 <= k < 4 :: ValueU64(reply.items[k]).Err?) ==>
      ParseAppendReply(reply, expected) == Err(Deserialization)
    ensures Worded(reply, "ERR") && (ValueString(reply.items[1]).Err? || ValueU64(reply.items[2]).Err?) ==>
      ParseAppendReply(reply, expected) == Err(Deserialization)
    ensures Worded(reply, "ERR") && ValueString(reply.items[1]) == Ok(Ascii("inconsistent_state"))
      ==> |reply.items| < 4 || ValueU64(reply.items[3]).Err? ==>
      ParseAppendReply(reply, expected) == Err(Deserialization)
    ensures Worded(reply, "ERR") && ValueU64(reply.items[2]).Ok? && UnknownReason(ValueString(reply.items[1])) ==>
      ParseAppendReply(reply, expected) == Err(Backend)
  {
    hide IsUtf8, ValueString, ValueU64;
    assert Ascii("OK") != Ascii("ERR") by { assert |Ascii("OK")| == 2; assert |Ascii("ERR")| == 3; }
    assert Ascii("inconsistent_state") !in {Ascii("stream_exists"), Ascii("wrong_revision")} by {
      assert |Ascii("inconsistent_state")| == 18;
      assert |Ascii("stream_exists")| == 13;
      assert |Ascii("wrong_revision")| == 14;
    }
    hide Ascii;
  }

  /** What the script does to a represented log. */
  ghost function ScriptReply<Id(!new), E>(
    log: Log<Id, E>, id: Id, expected: ExpectedRevision, batch: seq<NewEvent<E>>): RedisValue
  {
    var actual := Revision(log, id);
    match CheckExpected(expected, actual)
    case Some(StreamAlreadyExists) => Refused("stream_exists", actual)
    case Some(WrongExpectedRevision(_, _)) => Refused("wrong_revision", actual)
    case None => if batch == [] then Appended(0, 0, actual)
                 else Appended(|log| + 1, |log| + |batch|, actual + |batch|)
  }

  lemma ScriptReplyParses<Id(!new), E>(
    log: Log<Id, E>, id: Id, expected: ExpectedRevision, batch: seq<NewEvent<E>>)
    requires batch != []
    ensures ParseAppendReply(ScriptReply(log, id, expected, batch), expected) ==
            match CheckExpected(expected, Revision(log, id))
            case Some(conflict) => Err(Concurrency(conflict))
            case None => Ok(AppendEval(|log| + 1, |log| + |batch|, Revision(log, id) + |batch|))
  {
    hide ParseAppendReply, Ascii, Stream;
    RepliesParse(expected, |log| + 1, |log| + |batch|, Revision(log, id) + |batch|, 0);
    RepliesParse(expected, 0, 0, Revision(log, id), 0);
  }

  // ---- what a read relies on ----

  /** Counters and timestamps are within their 64-bit types. */
  ghost predicate Fits<Id, E>(log: Log<Id, E>) {
    && |log| <= U64_MAX
    && (forall i | 0 <= i < |log| :: -I64_MAX - 1 <= log[i].recordedAt <= I64_MAX)
  }

  /** The listed events are all of one aggregate type. */
  ghost predicate OfType<Id, E>(
    codec: RedisEvents.Codec<Id, E>, log: Log<Id, E>, sequences: seq<nat>, aggregateType: Bytes)
  {
    forall i | 0 <= i < |sequences| && 1 <= sequences[i] <= |log| ::
      codec.writeId(log[sequences[i] - 1].aggregateId).aggregateType == aggregateType
  }

  /** `events` are the log's events at the listed sequences. */
  ghost predicate EventsAt<Id, E>(log: Log<Id, E>, sequences: seq<nat>, events: Log<Id, E>) {
    && |events| == |sequences|
    && forall i | 0 <= i < |events| :: 1 <= sequences[i] <= |log| && events[i] == log[sequences[i] - 1]
  }

  lemma SameEvents<Id, E>(log: Log<Id, E>, sequences: seq<nat>, a: Log<Id, E>, b: Log<Id, E>)
    requires EventsAt(log, sequences, a) && EventsAt(log, sequences, b)
    ensures a == b
  {
  }

  lemma StreamOfType<Id(!new), E>(
    codec: RedisEvents.Codec<Id, E>, log: Log<Id, E>, id: Id, sequences: seq<nat>, events: Log<Id, E>, revision: nat)
    requires Ranked(log) && EventsAt(log, sequences, events)
    requires events == if revision <= Revision(log, id) then Stream(log, id)[revision..] else []
    ensures OfType(codec, log, sequences, codec.writeId(id).aggregateType)
  {
    hide Stream, Ranked;
    forall i | 0 <= i < |sequences| && 1 <= sequences[i] <= |log| ensures log[sequences[i] - 1].aggregateId == id {
      StreamRevisions(log, id, revision + i);
    }
  }

  lemma {:induction false} RevisionAtMostLength<Id(!new), E>(log: Log<Id, E>, id: Id)
    ensures Revision(log, id) <= |log|
  {
    if log != [] {
      RevisionAtMostLength(log[..|log| - 1], id);
    }
  }

  lemma ListedStorable<Id(!new), E>(log: Log<Id, E>, i: nat)
    requires Sequenced(log) && Ranked(log) && Fits(log) && i < |log|
    ensures RedisEvents.Storable(log[i])
  {
    hide Stream;
    RevisionAtMostLength(log[..i], log[i].aggregateId);
    assert log[i].revision == Revision(log[..i], log[i].aggregateId) + 1;
  }

  lemma TypeReads<Id(!new), E(!new)>(codec: RedisEvents.Codec<Id, E>, e: Envelope<Id, E>)
    requires RedisEvents.Faithful(codec)
    ensures RedisEvents.GetString(RedisEvents.EventHashOf(codec, e), RedisEvents.AggregateType) ==
            Some(codec.writeId(e.aggregateId).aggregateType)
  {
    assert RedisEvents.FaithfulId(codec, e.aggregateId);
    hide RedisEvents.EventHashOf, RedisEvents.GetString, RedisEvents.Faithful, IsUtf8;
    RedisEvents.TextStored(codec, e, RedisEvents.AggregateType);
  }

  /** The hashes of one aggregate type, or all of them. */
  function Wanted(only: Option<Bytes>): Hash -> bool {
    (hash: Hash) => only.None? || RedisEvents.GetString(hash, RedisEvents.AggregateType) == only
  }

  /** A hash without a readable type where one is asked for, or a wanted one that is no event. */
  ghost predicate Unreadable<Id, E>(codec: RedisEvents.Codec<Id, E>, hash: Hash, only: Option<Bytes>) {
    || (only.Some? && RedisEvents.GetString(hash, RedisEvents.AggregateType).None?)
    || (Wanted(only)(hash) && RedisEvents.HashToEnvelope(codec, hash).None?)
  }

  ghost predicate Mapped<Id, E>(codec: RedisEvents.Codec<Id, E>, hashes: seq<Hash>, events: Log<Id, E>) {
    && |events| == |hashes|
    && forall i | 0 <= i < |hashes| :: RedisEvents.HashToEnvelope(codec, hashes[i]) == Some(events[i])
  }

  /** The hash of a listed event maps back to the event, and names its aggregate type. */
  lemma HashReads<Id(!new), E(!new)>(
    codec: RedisEvents.Codec<Id, E>, log: Log<Id, E>, sequences: seq<nat>, k: nat, only: Option<Bytes>)
    requires RedisEvents.Faithful(codec) && Sequenced(log) && Ranked(log) && Fits(log)
    requires k < |sequences| && 1 <= sequences[k] <= |log|
    requires only.Some? ==> OfType(codec, log, sequences, only.value)
    ensures var e := log[sequences[k] - 1]; var hash := RedisEvents.EventHashOf(codec, e);
      && RedisEvents.HashToEnvelope(codec, hash) == Some(e)
      && RedisEvents.GetString(hash, RedisEvents.AggregateType).Some?
      && (only.Some? ==> RedisEvents.GetString(hash, RedisEvents.AggregateType) == only)
  {
    hide RedisEvents.EventHashOf, RedisEvents.HashToEnvelope, RedisEvents.GetString, RedisEvents.Faithful,
         RedisEvents.Storable, Ranked, Sequenced, Fits;
    var e := log[sequences[k] - 1];
    ListedStorable(log, sequences[k] - 1);
    RedisEvents.HashRoundTrip(codec, e);
    TypeReads(codec, e);
  }

  lemma ListedHashReads<Id(!new), E(!new)>(
    codec: RedisEvents.Codec<Id, E>, log: Log<Id, E>, sequences: seq<nat>, k: nat, only: Option<Bytes>, hash: Hash)
    requires RedisEvents.Faithful(codec) && Sequenced(log) && Ranked(log) && Fits(log)
    requires k < |sequences| && 1 <= sequences[k] <= |log|
    requires hash == RedisEvents.EventHashOf(codec, log[sequences[k] - 1])
    requires only.Some? ==> OfType(codec, log, sequences, only.value)
    ensures RedisEvents.HashToEnvelope(codec, hash) == Some(log[sequences[k] - 1])
    ensures Wanted(only)(hash) && !Unreadable(codec, hash, only)
  {
    hide RedisEvents.EventHashOf, RedisEvents.HashToEnvelope, RedisEvents.GetString, Ranked, OfType, Fits,
         RedisEvents.Faithful, Sequenced;
    HashReads(codec, log, sequences, k, only);
  }

  /** The hashes of listed events are all readable, all wanted, and map to the events. */
  lemma AllHashesRead<Id(!new), E(!new)>(
    codec: RedisEvents.Codec<Id, E>, log: Log<Id, E>, sequences: seq<nat>, only: Option<Bytes>, fetched: seq<Hash>)
    requires RedisEvents.Faithful(codec) && Sequenced(log) && Ranked(log) && Fits(log)
    requires |fetched| == |sequences| && forall i | 0 <= i < |sequences| :: 1 <= sequences[i] <= |log|
    requires forall i | 0 <= i < |sequences| :: fetched[i] == RedisEvents.EventHashOf(codec, log[sequences[i] - 1])
    requires only.Some? ==> OfType(codec, log, sequences, only.value)
    ensures Filter(fetched, Wanted(only)) == fetched
    ensures forall k | 0 <= k < |fetched| :: !Unreadable(codec, fetched[k], only)
    ensures forall events | Mapped(codec, fetched, events) :: EventsAt(log, sequences, events)
  {
    hide RedisEvents.EventHashOf, RedisEvents.HashToEnvelope, RedisEvents.GetString, Ranked, OfType, Fits,
         RedisEvents.Faithful, Sequenced, Wanted, Unreadable;
    forall k | 0 <= k < |fetched|
      ensures RedisEvents.HashToEnvelope(codec, fetched[k]) == Some(log[sequences[k] - 1])
      ensures Wanted(only)(fetched[k]) && !Unreadable(codec, fetched[k], only)
    {
      ListedHashReads(codec, log, sequences, k, only, fetched[k]);
    }
    FilterAllOrNone(fetched, Wanted(only));
  }

  // ---- scalar and scored replies ----

  /** `GET` of a stream's revision counter. */
  function CounterReply<Id>(counters: map<Id, nat>, id: Id): RedisValue {
    if id in counters then Bulk(Decimal(counters[id])) else Nil
  }

  lemma U64Reads(n: nat)
    requires n <= U64_MAX
    ensures ValueU64(Bulk(Decimal(n))) == Ok(n)
  {
    hide IsUtf8, ParseU64;
    RedisEvents.DecimalUtf8(n);
    ParsePrinted(n);
  }

  lemma CounterReads<Id>(counters: map<Id, nat>, id: Id)
    requires CounterOf(counters, id) <= U64_MAX
    ensures OptionalU64(CounterReply(counters, id)) == Ok(CounterOf(counters, id))
  {
    hide Decimal, ParseU64;
    if id in counters {
      U64Reads(counters[id]);
    }
  }

  /** What `ZRANGEBYSCORE ... WITHSCORES` answers: members and scores in turn, as text. */
  function ScoredItems(pairs: seq<Scored>): seq<RedisValue> {
    if pairs == [] then [] else
      [Bulk(Decimal(pairs[0].0)), Bulk(Decimal(pairs[0].1))] + ScoredItems(pairs[1..])
  }

  function ScoredReply(pairs: seq<Scored>): RedisValue {
    Array(ScoredItems(pairs))
  }

  function ReadPairs(items: seq<RedisValue>): Result<seq<Scored>, StoreError>
    requires |items| % 2 == 0
  {
    if items == [] then Ok([]) else
      var member, score := ValueU64(items[0]), ValueU64(items[1]);
      if member.Err? || score.Err? then Err(Deserialization)
      else
        match ReadPairs(items[2..])
        case Err(error) => Err(error)
        case Ok(rest) => Ok([(member.value, score.value)] + rest)
  }

  function ReadScoredPage(reply: RedisValue): Result<seq<Scored>, StoreError> {
    match ArrayItems(reply)
    case Err(_) => Err(Deserialization)
    case Ok(items) => if |items| % 2 != 0 then Err(Deserialization) else ReadPairs(items)
  }

  /** A page is read exactly if it is pairs of numbers, as those pairs; any other is refused. */
  lemma {:induction false} ReadPairsExactly(items: seq<RedisValue>)
    requires |items| % 2 == 0
    ensures match ReadPairs(items)
      case Ok(pairs) =>
        && 2 * |pairs| == |items|
        && forall k | 0 <= k < |pairs| ::
             ValueU64(items[2 * k]) == Ok(pairs[k].0) && ValueU64(items[2 * k + 1]) == Ok(pairs[k].1)
      case Err(error) => error == Deserialization && exists k | 0 <= k < |items| :: ValueU64(items[k]).Err?
  {
    hide ValueU64;
    if items != [] {
      ReadPairsExactly(items[2..]);
      match ReadPairs(items)
      case Err(_) =>
        if ValueU64(items[0]).Ok? && ValueU64(items[1]).Ok? {
          var k :| 0 <= k < |items[2..]| && ValueU64(items[2..][k]).Err?;
          assert ValueU64(items[k + 2]).Err?;
        }
      case Ok(pairs) =>
        forall k | 0 <= k < |pairs|
          ensures ValueU64(items[2 * k]) == Ok(pairs[k].0) && ValueU64(items[2 * k + 1]) == Ok(pairs[k].1)
        {
          if k > 0 {
            assert items[2 * k] == items[2..][2 * (k - 1)] && items[2 * k + 1] == items[2..][2 * (k - 1) + 1];
            assert pairs[k] == pairs[1..][k - 1];
          }
        }
    }
  }

  lemma PageRefused(reply: RedisValue)
    ensures ReadScoredPage(reply) == Err(Deserialization) <==>
      || (!reply.Array? && !reply.Nil?)
      || (reply.Array? && |reply.items| % 2 != 0)
      || (reply.Array? && exists k | 0 <= k < |reply.items| :: ValueU64(reply.items[k]).Err?)
    ensures ReadScoredPage(reply).Err? ==> ReadScoredPage(reply) == Err(Deserialization)
  {
    hide ValueU64;
    if reply.Array? && |reply.items| % 2 == 0 {
      ReadPairsExactly(reply.items);
      if ReadPairs(reply.items).Ok? {
        var pairs := ReadPairs(reply.items).value;
        forall k | 0 <= k < |reply.items| ensures ValueU64(reply.items[k]).Ok? {
          var j := k / 2;
          assert ValueU64(reply.items[2 * j]) == Ok(pairs[j].0);
          assert ValueU64(reply.items[2 * j + 1]) == Ok(pairs[j].1);
        }
      }
    }
  }

  lemma ReadPairsPush(member: nat, score: nat, items: seq<RedisValue>)
    requires member <= U64_MAX && score <= U64_MAX && |items| % 2 == 0
    ensures ReadPairs([Bulk(Decimal(member)), Bulk(Decimal(score))] + items) ==
            match ReadPairs(items)
            case Err(error) => Err(error)
            case Ok(rest) => Ok([(member, score)] + rest)
  {
    hide Decimal, ValueU64;
    U64Reads(member);
    U64Reads(score);
    assert ([Bulk(Decimal(member)), Bulk(Decimal(score))] + items)[2..] == items;
  }

  /** A scored page reads back as the pairs the server listed. */
  lemma {:induction false} ScoredRoundTrip(pairs: seq<Scored>)
    requires forall i | 0 <= i < |pairs| :: pairs[i].0 <= U64_MAX && pairs[i].1 <= U64_MAX
    ensures |ScoredItems(pairs)| == 2 * |pairs| && ReadScoredPage(ScoredReply(pairs)) == Ok(pairs)
  {
    hide Decimal, ValueU64;
    if pairs != [] {
      var rest := pairs[1..];
      assert pairs == [pairs[0]] + rest;
      ScoredRoundTrip(rest);
      hide ReadPairs;
      ReadPairsPush(pairs[0].0, pairs[0].1, ScoredItems(rest));
    }
  }

  // ---- index pages ----

  lemma ServedPage(index: seq<Scored>, cursor: nat, size: nat)
    requires forall i | 0 <= i < |index| :: index[i].0 <= U64_MAX && index[i].1 <= U64_MAX
    ensures var page := Take(ScoresAfter(index, cursor), size);
      ReadScoredPage(ScoredReply(page)) == Ok(page) && BoundedScores(page)
  {
    hide ReadScoredPage, ScoredReply;
    var page := Take(ScoresAfter(index, cursor), size);
    forall i | 0 <= i < |page| ensures page[i].0 <= U64_MAX && page[i].1 <= U64_MAX {
      FilterMembers(index, (p: Scored) => p.1 > cursor, page[i]);
    }
    hide ScoresAfter, Take;
    ScoredRoundTrip(page);
  }

  lemma ServedScores(index: seq<Scored>, feed: ScoredFeed<StoreError>)
    requires forall i | 0 <= i < |index| :: index[i].0 <= U64_MAX && index[i].1 <= U64_MAX
    requires forall call, cursor, size ::
      feed(call, cursor, size) == ReadScoredPage(ScoredReply(Take(ScoresAfter(index, cursor), size)))
    ensures ScoresSixtyFourBit(feed) && ServesIndex(feed, index)
  {
    hide ReadScoredPage, ScoredReply, ScoresAfter;
    forall call, cursor, size
      ensures feed(call, cursor, size) == Ok(Take(ScoresAfter(index, cursor), size))
      ensures BoundedScores(feed(call, cursor, size).value)
    {
      ServedPage(index, cursor, size);
    }
  }

  lemma OneShotMembers(index: seq<Scored>, after: nat, limit: Option<nat>, most: nat)
    requires forall i | 0 <= i < |index| :: 1 <= index[i].0 <= most
    ensures forall i | 0 <= i < |OneShot(index, after, limit)| :: 1 <= OneShot(index, after, limit)[i] <= most
  {
    var pairs := ScoresAfter(index, after);
    forall i | 0 <= i < |pairs| ensures 1 <= pairs[i].0 <= most {
      FilterMembers(index, (p: Scored) => p.1 > after, pairs[i]);
    }
  }

  function Limited<T>(s: seq<T>, limit: Option<nat>): seq<T> {
    if limit.Some? then Take(s, limit.value) else s
  }

  /** In an index scored 1, 2, ... a score is a position. */
  lemma CountingScores(index: seq<Scored>, after: nat)
    requires forall i | 0 <= i < |index| :: index[i].1 == i + 1
    ensures var start := if after <= |index| then after else |index|;
            ScoresAfter(index, after) == index[start..]
  {
    var start := ScoresAfterIsTail(index, after);
    if start < |index| {
      assert index[start].1 > after;
    }
    if start > 0 {
      assert index[start - 1].1 <= after;
    }
  }

  /** The index lists exactly `events`, each at its own sequence. */
  ghost predicate Lists<Id, E>(log: Log<Id, E>, index: seq<Scored>, events: Log<Id, E>) {
    && |index| == |events|
    && forall i | 0 <= i < |index| :: 1 <= index[i].0 <= |log| && log[index[i].0 - 1] == events[i]
  }

  /** Listing and reading from one position on, up to a limit. */
  lemma SliceReads<Id, E>(log: Log<Id, E>, index: seq<Scored>, events: Log<Id, E>, start: nat, limit: Option<nat>)
    requires Lists(log, index, events) && start <= |index|
    ensures EventsAt(log, Limited(Members(index[start..]), limit), Limited(events[start..], limit))
  {
    var sequences, tail := Limited(Members(index[start..]), limit), Limited(events[start..], limit);
    forall i | 0 <= i < |tail| ensures sequences[i] == index[start + i].0 && tail[i] == events[start + i] {
      assert index[start..][i] == index[start + i];
    }
  }

  lemma StreamIndexLists<Id(!new), E>(log: Log<Id, E>, id: Id)
    requires Sequenced(log) && Ranked(log)
    ensures var index := StreamIndex(log, id);
      Lists(log, index, Stream(log, id)) && (forall i | 0 <= i < |index| :: index[i].1 == i + 1)
  {
    hide Stream, StreamIndex;
    var index := StreamIndex(log, id);
    forall k | 0 <= k < |index|
      ensures 1 <= index[k].0 <= |log| && index[k].1 == k + 1 && log[index[k].0 - 1] == Stream(log, id)[k]
    {
      StreamEvent(log, id, k);
    }
  }

  /** One read of a stream index past a revision lists the stream's events past it. */
  lemma StreamIndexReads<Id(!new), E>(log: Log<Id, E>, id: Id, revision: nat)
    requires Sequenced(log) && Ranked(log)
    ensures var index := StreamIndex(log, id);
      && AscendingScores(index)
      && (forall i | 0 <= i < |index| :: 1 <= index[i].0 <= |log| && index[i].1 == i + 1)
      && |index| <= |log|
      && EventsAt(log, OneShot(index, revision, None),
                  if revision <= Revision(log, id) then Stream(log, id)[revision..] else [])
  {
    hide Stream, StreamIndex, ScoresAfter, EventsAt, Sequenced, Ranked;
    var index := StreamIndex(log, id);
    StreamIndexLists(log, id);
    RevisionAtMostLength(log, id);
    CountingScores(index, revision);
    SliceReads(log, index, Stream(log, id), if revision <= |index| then revision else |index|, None);
  }

  lemma GlobalIndexLists<Id, E>(log: Log<Id, E>)
    ensures var index := GlobalIndex(|log|);
      && Lists(log, index, log)
      && AscendingScores(index)
      && (forall i | 0 <= i < |index| :: index[i].1 == i + 1)
  {
  }

  /** One read of the global index past a sequence lists the feed past it. */
  lemma GlobalIndexReads<Id, E>(log: Log<Id, E>, after: Option<nat>, limit: Option<nat>)
    requires Sequenced(log)
    ensures var from := if after.Some? then after.value else 0;
      && AscendingScores(GlobalIndex(|log|))
      && EventsAt(log, OneShot(GlobalIndex(|log|), from, limit), Limited(After(log, after), limit))
  {
    hide ScoresAfter, After, EventsAt, Lists, AscendingScores, GlobalIndex;
    var from := if after.Some? then after.value else 0;
    AfterIsSuffix(log, after);
    var index := GlobalIndex(|log|);
    GlobalIndexLists(log);
    CountingScores(index, from);
    SliceReads(log, index, log, if from <= |log| then from else |log|, limit);
  }

  // ---- one batch more ----

  lemma Cardinality<Id(!new), E>(
    codec: RedisEvents.Codec<Id, E>, streams: map<Id, seq<Scored>>, global: seq<Scored>, hashes: map<nat, Hash>,
    log: Log<Id, E>, id: Id)
    requires Indexed(codec, streams, global, hashes, log)
    ensures |At(streams, id)| == Revision(log, id)
  {
    assert StreamIndexed(streams, log, id);
  }

  /** The envelope the script writes next continues sequences and revisions. */
  lemma NextEnvelope<Id(!new), E>(log: Log<Id, E>, id: Id, batch: seq<NewEvent<E>>, i: nat)
    requires i < |batch|
    ensures var envelopes := Envelopes(id, Revision(log, id), batch, Consecutive(|log| + 1, |batch|));
      && envelopes[i] == Seal(batch[i], id, Revision(log, id) + i + 1, |log| + 1 + i)
      && Revision(log + envelopes[..i], id) == Revision(log, id) + i
      && log + envelopes[..i + 1] == log + envelopes[..i] + [envelopes[i]]
  {
    var envelopes := Envelopes(id, Revision(log, id), batch, Consecutive(|log| + 1, |batch|));
    AppendedStream(log, id, envelopes[..i], id);
  }

  /** The counters after a batch. */
  lemma CountersPush<Id(!new), E>(
    revisions: map<Id, nat>, sequence: nat, log: Log<Id, E>, id: Id, batch: seq<NewEvent<E>>)
    requires Counted(revisions, sequence, log)
    ensures Counted(revisions[id := Revision(log, id) + |batch|], sequence + |batch|,
                    log + Envelopes(id, Revision(log, id), batch, Consecutive(|log| + 1, |batch|)))
  {
    var envelopes := Envelopes(id, Revision(log, id), batch, Consecutive(|log| + 1, |batch|));
    forall other ensures Revision(log + envelopes, other) == Revision(log, other) + if other == id then |batch| else 0 {
      AppendedStream(log, id, envelopes, other);
    }
  }

  // ---- the store ----

  class RedisDb<Id(==,!new), E(!new)> {
    const codec: RedisEvents.Codec<Id, E>
    const listing: Hash -> FlatHash.Listing
    var revisions: map<Id, nat>
    var sequence: nat
    var streams: map<Id, seq<Scored>>
    var global: seq<Scored>
    var hashes: map<nat, Hash>

    /** `listing` is the order in which this server lists a hash. */
    constructor (codec: RedisEvents.Codec<Id, E>, listing: Hash -> FlatHash.Listing)
      ensures this.codec == codec && this.listing == listing && Represents([])
    {
      this.codec, this.listing := codec, listing;
      revisions, sequence, streams, global, hashes := map[], 0, map[], [], map[];
    }

    ghost predicate Represents(log: Log<Id, E>)
      reads this
    {
      Indexed(codec, streams, global, hashes, log) && Counted(revisions, sequence, log)
    }

    /** Texts read back as written, and the server lists every field of a hash once. */
    ghost predicate Sound() {
      RedisEvents.Faithful(codec) && RedisEvents.ListsHashes(listing)
    }

    /** The writes for one event: its hash, its place in the stream index and in the global one. */
    method WriteEvent(e: Envelope<Id, E>, ghost log: Log<Id, E>)
      modifies this`streams, this`global, this`hashes
      ensures old(Indexed(codec, streams, global, hashes, log))
        && e.sequence == Some(|log| + 1) && e.revision == Revision(log, e.aggregateId) + 1
        ==> Indexed(codec, streams, global, hashes, log + [e])
    {
      hide RedisEvents.EventHashOf;
      if Indexed(codec, streams, global, hashes, log)
        && e.sequence == Some(|log| + 1) && e.revision == Revision(log, e.aggregateId) + 1 {
        IndexPush(codec, streams, global, hashes, log, e);
      }
      var n := Position(e);
      hashes := hashes[n := RedisEvents.EventHashOf(codec, e)];
      streams := streams[e.aggregateId := ZAdd(At(streams, e.aggregateId), n, e.revision)];
      global := ZAdd(global, n, n);
    }

    /** The script's loop over the events of the batch. */
    method WriteBatch(id: Id, current: nat, first: nat, batch: seq<NewEvent<E>>, ghost log: Log<Id, E>)
      modifies this`streams, this`global, this`hashes
      ensures old(Indexed(codec, streams, global, hashes, log))
        && current == Revision(log, id) && first == |log| + 1
        ==> Indexed(codec, streams, global, hashes, log + Envelopes(id, current, batch, Consecutive(first, |batch|)))
    {
      hide Indexed, ZAdd, Stream, Envelopes, RedisEvents.EventHashOf;
      ghost var envelopes := Envelopes(id, current, batch, Consecutive(first, |batch|));
      ghost var represented :=
        Indexed(codec, streams, global, hashes, log) && current == Revision(log, id) && first == |log| + 1;
      assert log + envelopes[..0] == log;
      for i := 0 to |batch|
        invariant represented ==> Indexed(codec, streams, global, hashes, log + envelopes[..i])
      {
        NextEnvelope(log, id, batch, i);
        WriteEvent(Seal(batch[i], id, current + i + 1, first + i), log + envelopes[..i]);
      }
      assert envelopes[..|batch|] == envelopes;
    }

    /**
     * The append script. On a represented log it does what the atomic append does, and its
     * consistency check never fires; when the check does fire nothing is written.
     */
    method AppendScript(
      id: Id, kind: Bytes, expectedRevision: nat, batch: seq<NewEvent<E>>,
      ghost log: Log<Id, E>, ghost expected: ExpectedRevision)
      returns (reply: RedisValue)
      requires (kind, expectedRevision) == ExpectedArg(expected)
      modifies this
      ensures old(Represents(log)) ==>
        && reply == ScriptReply(log, id, expected, batch)
        && Represents(EventLog.Append(log, id, expected, batch, Consecutive(|log| + 1, |batch|)).0)
      ensures old(|At(streams, id)| != CounterOf(revisions, id)) ==>
        && unchanged(this)
        && reply == Inconsistent(CounterOf(revisions, id), |At(streams, id)|)
    {
      hide Indexed, ZAdd, Stream, Ascii;
      var current := CounterOf(revisions, id);
      var cardinality := |At(streams, id)|;
      ghost var represented := Represents(log);
      assert represented ==> cardinality == current == Revision(log, id) by {
        if represented { Cardinality(codec, streams, global, hashes, log, id); }
      }
      if cardinality != current {
        return Inconsistent(current, cardinality);
      }
      if kind == Ascii("no_stream") && current != 0 {
        return Refused("stream_exists", current);
      }
      if kind == Ascii("exact") && current != expectedRevision {
        return Refused("wrong_revision", current);
      }
      if |batch| == 0 {
        assert represented ==> log + Envelopes(id, current, batch, Consecutive(|log| + 1, 0)) == log;
        return Appended(0, 0, current);
      }
      var first := sequence + 1;
      WriteBatch(id, current, first, batch, log);
      revisions := revisions[id := current + |batch|];
      sequence := sequence + |batch|;
      if represented {
        CountersPush(old(revisions), old(sequence), log, id, batch);
      }
      reply := Appended(first, sequence, current + |batch|);
    }

    /** The client's append. */
    method Append(id: Id, expected: ExpectedRevision, batch: seq<NewEvent<E>>, ghost log: Log<Id, E>)
      returns (result: Result<Log<Id, E>, StoreError>)
      requires Represents(log) && |log| <= U64_MAX
      modifies this
      ensures match EventLog.Append(log, id, expected, batch, Consecutive(|log| + 1, |batch|))
              case (log', Ok(committed)) => Represents(log') && result == Ok(committed)
              case (_, Err(conflict)) => Represents(log) && result == Err(Concurrency(conflict))
    {
      hide Indexed, ScriptReply, ParseAppendReply, Ascii, Stream;
      if batch == [] {
        var counter := OptionalU64(CounterReply(revisions, id));
        RevisionAtMostLength(log, id);
        CounterReads(revisions, id);
        if counter.Err? {
          return Err(Deserialization);
        }
        match CheckExpected(expected, counter.value) {
          case Some(conflict) => return Err(Concurrency(conflict));
          case None =>
        }
        assert log + [] == log;
        return Ok([]);
      }
      var (kind, revision) := ExpectedArg(expected);
      var reply := AppendScript(id, kind, revision, batch, log, expected);
      ScriptReplyParses(log, id, expected, batch);
      var parsed := ParseAppendReply(reply, expected);
      if parsed.Err? {
        return Err(parsed.error);
      }
      if parsed.value.nextRevision < |batch| {
        return Err(Deserialization);
      }
      var base := parsed.value.nextRevision - |batch|;
      result := Ok(Envelopes(id, base, batch, Consecutive(parsed.value.firstSequence, |batch|)));
    }

    /** What `HGETALL` answers for every sequence; nothing when the key is missing. */
    function Stored(): nat -> FlatHash.Listing
      reads this
    {
      var table, list := hashes, listing;
      n => if n in table then list(table[n]) else []
    }

    /**
     * The loop that maps each hash to an envelope, whatever the hashes are: those of another
     * aggregate type than `only` are skipped, and one that cannot be read fails the load.
     */
    method MapHashes(fetched: seq<Hash>, only: Option<Bytes>) returns (result: Result<Log<Id, E>, StoreError>)
      ensures result.Err? <==> exists k | 0 <= k < |fetched| :: Unreadable(codec, fetched[k], only)
      ensures result.Err? ==> result.error == Deserialization
      ensures result.Ok? ==> Mapped(codec, Filter(fetched, Wanted(only)), result.value)
    {
      hide RedisEvents.HashToEnvelope, RedisEvents.GetString;
      var events: Log<Id, E> := [];
      for k := 0 to |fetched|
        invariant forall i | 0 <= i < k :: !Unreadable(codec, fetched[i], only)
        invariant Mapped(codec, Filter(fetched[..k], Wanted(only)), events)
      {
        assert fetched[..k + 1][..k] == fetched[..k];
        var aggregateType := RedisEvents.GetString(fetched[k], RedisEvents.AggregateType);
        if only.Some? && aggregateType.None? {
          return Err(Deserialization);
        }
        if only.None? || aggregateType == only {
          var envelope := RedisEvents.HashToEnvelope(codec, fetched[k]);
          if envelope.None? {
            return Err(Deserialization);
          }
          events := events + [envelope.value];
        }
      }
      assert fetched[..|fetched|] == fetched;
      result := Ok(events);
    }

    /** The fetch answers with the hash of every listed event. */
    lemma FetchedHashes(log: Log<Id, E>, sequences: seq<nat>)
      requires Sound() && Represents(log)
      requires forall i | 0 <= i < |sequences| :: 1 <= sequences[i] <= |log|
      ensures var fetched := FlatHash.FetchAll(Stored(), sequences);
        && fetched.Ok? && |fetched.value| == |sequences|
        && forall i | 0 <= i < |sequences| ::
             fetched.value[i] == RedisEvents.EventHashOf(codec, log[sequences[i] - 1])
    {
      hide RedisEvents.EventHashOf, FlatHash.Unpack, FlatHash.Flatten, FlatHash.AsMap, FlatHash.Readable,
           FlatHash.DistinctFields, RedisEvents.ListsHashes;
      var listings := FlatHash.Fetched(Stored(), sequences);
      forall i | 0 <= i < |sequences|
        ensures FlatHash.DistinctFields(listings[i]) && FlatHash.Readable(listings[i])
        ensures FlatHash.AsMap(listings[i]) == RedisEvents.EventHashOf(codec, log[sequences[i] - 1])
      {
        assert HashStored(codec, hashes, log, sequences[i] - 1);
        RedisEvents.ListedReadable(codec, log[sequences[i] - 1], listing);
      }
      FlatHash.FlatRoundTrip(listings);
    }

    /**
     * The events at the listed sequences: their hashes, fetched in chunks, and each hash mapped
     * to an envelope. Events of another aggregate type than `only` are skipped.
     */
    method FetchEvents(sequences: seq<nat>, only: Option<Bytes>, ghost log: Log<Id, E>)
      returns (result: Result<Log<Id, E>, StoreError>)
      requires Sound() && Represents(log) && Fits(log)
      requires forall i | 0 <= i < |sequences| :: 1 <= sequences[i] <= |log|
      requires only.Some? ==> OfType(codec, log, sequences, only.value)
      ensures result.Ok? && EventsAt(log, sequences, result.value)
    {
      hide Counted, HashStored, StreamIndexed, Fits, OfType, RedisEvents.EventHashOf, FlatHash.FetchAll;
      var fetched := FlatHash.LoadSequenceHashes(Stored(), sequences);
      FetchedHashes(log, sequences);
      if fetched.Err? {
        return Err(Deserialization);
      }
      AllHashesRead(codec, log, sequences, only, fetched.value);
      result := MapHashes(fetched.value, only);
    }

    /** Reads an index past a score and then the events it lists. */
    method LoadIndex(index: seq<Scored>, after: nat, limit: Option<nat>, only: Option<Bytes>, ghost log: Log<Id, E>)
      returns (result: Result<Log<Id, E>, StoreError>)
      requires Sound() && Represents(log) && Fits(log)
      requires AscendingScores(index) && (forall i | 0 <= i < |index| :: index[i].1 <= U64_MAX)
      requires forall i | 0 <= i < |index| :: 1 <= index[i].0 <= |log|
      requires only.Some? ==> OfType(codec, log, OneShot(index, after, limit), only.value)
      ensures result.Ok? && EventsAt(log, OneShot(index, after, limit), result.value)
    {
      hide Indexed, Counted, RedisEvents.Faithful, RedisEvents.ListsHashes, ReadScoredPage, ScoredReply, OfType;
      var feed: ScoredFeed<StoreError> :=
        (call: nat, cursor: nat, size: nat) => ReadScoredPage(ScoredReply(Take(ScoresAfter(index, cursor), size)));
      ServedScores(index, feed);
      var sequences, pages := LoadIndexedSequences(feed, after, limit, index);
      OneShotMembers(index, after, limit, |log|);
      result := FetchEvents(sequences.value, only, log);
    }

    method LoadAfterRevision(id: Id, revision: nat, ghost log: Log<Id, E>)
      returns (result: Result<Log<Id, E>, StoreError>)
      requires Sound() && Represents(log) && Fits(log)
      ensures result == Ok(if revision <= Revision(log, id) then Stream(log, id)[revision..] else [])
    {
      hide Stream, StreamIndex, OneShot, HashStored, RedisEvents.Faithful, RedisEvents.ListsHashes;
      assert StreamIndexed(streams, log, id);
      StreamIndexReads(log, id, revision);
      var only := codec.writeId(id).aggregateType;
      ghost var rest := if revision <= Revision(log, id) then Stream(log, id)[revision..] else [];
      StreamOfType(codec, log, id, OneShot(StreamIndex(log, id), revision, None), rest, revision);
      result := LoadIndex(At(streams, id), revision, None, Some(only), log);
      SameEvents(log, OneShot(StreamIndex(log, id), revision, None), result.value, rest);
    }

    /** A load returns the stream. */
    method Load(id: Id, ghost log: Log<Id, E>) returns (result: Result<Log<Id, E>, StoreError>)
      requires Sound() && Represents(log) && Fits(log)
      ensures result == Ok(Stream(log, id))
    {
      result := LoadAfterRevision(id, 0, log);
      assert Stream(log, id)[0..] == Stream(log, id);
    }

    /** Global reads, limited or not. */
    method LoadGlobalAfter(after: Option<nat>, limit: Option<nat>, ghost log: Log<Id, E>)
      returns (result: Result<Log<Id, E>, StoreError>)
      requires Sound() && Represents(log) && Fits(log)
      ensures result == Ok(Limited(After(log, after), limit))
    {
      hide After, OneShot, HashStored, StreamIndexed, RedisEvents.Faithful, RedisEvents.ListsHashes;
      var from := if after.Some? then after.value else 0;
      GlobalIndexReads(log, after, limit);
      result := LoadIndex(global, from, limit, None, log);
      SameEvents(log, OneShot(GlobalIndex(|log|), from, limit), result.value, Limited(After(log, after), limit));
    }
  }

  // ---- both stores ----

  lemma FitsAfterAppend<Id(!new), E>(
    log: Log<Id, E>, id: Id, expected: ExpectedRevision, batch: seq<NewEvent<E>>, sequences: seq<nat>)
    requires Fits(log) && |sequences| == |batch| && |log| + |batch| <= U64_MAX
    requires forall i | 0 <= i < |batch| :: -I64_MAX - 1 <= batch[i].recordedAt <= I64_MAX
    ensures Fits(EventLog.Append(log, id, expected, batch, sequences).0)
  {
    hide Stream;
  }

  /**
   * The Redis store and the in-memory store, given the same history and the same append,
   * answer alike, and what they then load is the old stream followed by what was answered.
   */
  method AppendToBoth<Id(==,!new), E(!new)>(
    redis: RedisDb<Id, E>, memory: MemoryStore.InMemoryEventStore<Id, E>,
    id: Id, expected: ExpectedRevision, batch: seq<NewEvent<E>>)
    returns (result: Result<Log<Id, E>, StoreError>, loaded: Result<Log<Id, E>, StoreError>)
    requires memory.Valid() && redis.Represents(memory.global) && redis.Sound()
    requires Fits(memory.global) && |memory.global| + |batch| <= U64_MAX
    requires forall i | 0 <= i < |batch| :: -I64_MAX - 1 <= batch[i].recordedAt <= I64_MAX
    modifies redis, memory
    ensures memory.Valid() && redis.Represents(memory.global)
    ensures loaded == Ok(Stream(memory.global, id))
    ensures result.Ok? ==> loaded == Ok(Stream(old(memory.global), id) + result.value)
    ensures result.Err? ==> result.error.Concurrency? && memory.global == old(memory.global)
  {
    ghost var log := memory.global;
    assert memory.nextSequence == |log| + 1;
    FitsAfterAppend(log, id, expected, batch, Consecutive(|log| + 1, |batch|));
    hide RedisEvents.Faithful, RedisEvents.ListsHashes, Indexed, Counted, Stream, Envelopes, Fits, Consecutive,
         MemoryStore.Indexed, Ranked, Sequenced;
    AppendMeaning(log, id, expected, batch, Consecutive(|log| + 1, |batch|), id);
    result := redis.Append(id, expected, batch, log);
    var other := memory.Append(id, expected, batch);
    assert result == match other case Ok(v) => Ok(v) case Err(e) => Err(Concurrency(e));
    loaded := redis.Load(id, memory.global);
  }
}
