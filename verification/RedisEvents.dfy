/**
 * One event as the ten fields of its Redis hash, and back: numbers as decimal text, texts
 * as UTF-8, payload and metadata as bytes. How ids and events become text is the codec's.
 */
module RedisEvents {
  import opened Common
  import opened EventLog
  import opened Text
  import opened FlatHash

  const U32_MAX: nat := 0xFFFF_FFFF

  datatype Field =
    | EventId | AggregateId | AggregateType | Revision | Sequence
    | EventType | EventVersion | Payload | Metadata | RecordedAtMs

  function Name(f: Field): Bytes {
    match f
    case EventId => Ascii("event_id")
    case AggregateId => Ascii("aggregate_id")
    case AggregateType => Ascii("aggregate_type")
    case Revision => Ascii("revision")
    case Sequence => Ascii("sequence")
    case EventType => Ascii("event_type")
    case EventVersion => Ascii("event_version")
    case Payload => Ascii("payload")
    case Metadata => Ascii("metadata")
    case RecordedAtMs => Ascii("recorded_at_ms")
  }

  /** An event's type, schema version, payload and metadata as they are stored. */
  datatype EventText = EventText(eventType: Bytes, version: nat, payload: Bytes, metadata: Bytes)

  /** An aggregate's type and id as they are stored. */
  datatype IdText = IdText(aggregateType: Bytes, aggregateId: Bytes)

  datatype Codec<!Id, !E> = Codec(
    writeId: Id -> IdText,
    readId: IdText -> Option<Id>,
    writeEvent: E -> EventText,
    readEvent: EventText -> Option<E>,
    writeEventId: string -> Bytes,
    readEventId: Bytes -> Option<string>)

  ghost predicate FaithfulId<Id, E>(codec: Codec<Id, E>, id: Id) {
    && codec.readId(codec.writeId(id)) == Some(id)
    && IsUtf8(codec.writeId(id).aggregateType) && IsUtf8(codec.writeId(id).aggregateId)
  }

  ghost predicate FaithfulEvent<Id, E>(codec: Codec<Id, E>, e: E) {
    && codec.readEvent(codec.writeEvent(e)) == Some(e)
    && IsUtf8(codec.writeEvent(e).eventType) && codec.writeEvent(e).version <= U32_MAX
  }

  ghost predicate FaithfulEventId<Id, E>(codec: Codec<Id, E>, s: string) {
    codec.readEventId(codec.writeEventId(s)) == Some(s) && IsUtf8(codec.writeEventId(s))
  }

  /** Reading undoes writing, and texts are UTF-8. */
  ghost predicate Faithful<Id(!new), E(!new)>(codec: Codec<Id, E>) {
    && (forall id :: FaithfulId(codec, id))
    && (forall e :: FaithfulEvent(codec, e))
    && (forall s :: FaithfulEventId(codec, s))
  }

  /** What the script stores under one field. */
  function FieldValue<Id, E>(codec: Codec<Id, E>, e: Envelope<Id, E>, f: Field): Bytes {
    match f
    case EventId => codec.writeEventId(e.eventId)
    case AggregateId => codec.writeId(e.aggregateId).aggregateId
    case AggregateType => codec.writeId(e.aggregateId).aggregateType
    case Revision => Decimal(e.revision)
    case Sequence => Decimal(if e.sequence.Some? then e.sequence.value else 0)
    case EventType => codec.writeEvent(e.event).eventType
    case EventVersion => Decimal(codec.writeEvent(e.event).version)
    case Payload => codec.writeEvent(e.event).payload
    case Metadata => codec.writeEvent(e.event).metadata
    case RecordedAtMs => DecimalInt(e.recordedAt)
  }

  lemma NamesDiffer(f: Field, g: Field)
    requires Name(f) == Name(g)
    ensures f == g
  {
    hide IsUtf8;
    assert |Name(f)| == |Name(g)| && Name(f)[0] == Name(g)[0];
  }

  /** The order in which the script passes the fields to `HSET`. */
  function FieldAt(i: nat): Field {
    if i == 0 then EventId
    else if i == 1 then AggregateId
    else if i == 2 then AggregateType
    else if i == 3 then Revision
    else if i == 4 then Sequence
    else if i == 5 then EventType
    else if i == 6 then EventVersion
    else if i == 7 then Payload
    else if i == 8 then Metadata
    else RecordedAtMs
  }

  lemma FieldIndex(f: Field) returns (i: nat)
    ensures i < 10 && FieldAt(i) == f
  {
    i := match f
      case EventId => 0 case AggregateId => 1 case AggregateType => 2 case Revision => 3 case Sequence => 4
      case EventType => 5 case EventVersion => 6 case Payload => 7 case Metadata => 8 case RecordedAtMs => 9;
  }

  function HsetArgs<Id, E>(codec: Codec<Id, E>, e: Envelope<Id, E>): (r: Listing)
    ensures |r| == 10
  {
    seq(10, i requires 0 <= i < 10 => (Name(FieldAt(i)), FieldValue(codec, e, FieldAt(i))))
  }

  lemma ArgsDistinct<Id, E>(codec: Codec<Id, E>, e: Envelope<Id, E>)
    ensures DistinctFields(HsetArgs(codec, e))
  {
    hide Name, FieldValue;
    forall i, j | 0 <= i < j < 10 ensures HsetArgs(codec, e)[i].0 != HsetArgs(codec, e)[j].0 {
      if Name(FieldAt(i)) == Name(FieldAt(j)) {
        NamesDiffer(FieldAt(i), FieldAt(j));
      }
    }
  }

  /** The hash `HSET` builds: each field under its name. */
  function EventHashOf<Id, E>(codec: Codec<Id, E>, e: Envelope<Id, E>): Hash {
    ArgsDistinct(codec, e);
    AsMap(HsetArgs(codec, e))
  }

  lemma FieldStored<Id, E>(codec: Codec<Id, E>, e: Envelope<Id, E>, f: Field)
    ensures Name(f) in EventHashOf(codec, e) && EventHashOf(codec, e)[Name(f)] == FieldValue(codec, e, f)
  {
    hide Name, FieldValue, FieldAt;
    ArgsDistinct(codec, e);
    var i := FieldIndex(f);
    assert HsetArgs(codec, e)[i] == (Name(f), FieldValue(codec, e, f));
    assert HsetArgs(codec, e)[i].0 in AsMap(HsetArgs(codec, e));
  }

  lemma NameUtf8(f: Field)
    ensures IsUtf8(Name(f))
  {
    AsciiIsUtf8(Name(f));
  }

  lemma NamesUtf8<Id, E>(codec: Codec<Id, E>, e: Envelope<Id, E>)
    ensures forall n | n in EventHashOf(codec, e) :: IsUtf8(n)
  {
    hide Name, FieldValue, IsUtf8, FieldAt;
    ArgsDistinct(codec, e);
    forall n | n in EventHashOf(codec, e) ensures IsUtf8(n) {
      var i :| 0 <= i < 10 && HsetArgs(codec, e)[i].0 == n;
      NameUtf8(FieldAt(i));
    }
  }

  function Get(hash: Hash, f: Field): Option<Bytes> {
    if Name(f) in hash then Some(hash[Name(f)]) else None
  }

  function GetString(hash: Hash, f: Field): Option<Bytes> {
    match Get(hash, f)
    case Some(bytes) => if IsUtf8(bytes) then Some(bytes) else None
    case None => None
  }

  function GetU64(hash: Hash, f: Field): Option<nat> {
    match GetString(hash, f)
    case Some(text) => ParseU64(text)
    case None => None
  }

  function GetI64(hash: Hash, f: Field): Option<int> {
    match GetString(hash, f)
    case Some(text) => ParseI64(text)
    case None => None
  }

  /** The client's mapping of a hash to an envelope; any missing or unreadable field fails it. */
  function HashToEnvelope<Id, E>(codec: Codec<Id, E>, hash: Hash): Option<Envelope<Id, E>> {
    var eventId, aggregateId := GetString(hash, EventId), GetString(hash, AggregateId);
    var aggregateType, revision := GetString(hash, AggregateType), GetU64(hash, Revision);
    var sequence, eventType := GetU64(hash, Sequence), GetString(hash, EventType);
    var version, payload := GetU64(hash, EventVersion), Get(hash, Payload);
    var metadata, recordedAt := Get(hash, Metadata), GetI64(hash, RecordedAtMs);
    if eventId.None? || aggregateId.None? || aggregateType.None? || revision.None? || sequence.None?
       || eventType.None? || version.None? || payload.None? || metadata.None? || recordedAt.None? then None
    else if version.value > U32_MAX then None
    else
      var id := codec.readId(IdText(aggregateType.value, aggregateId.value));
      var event := codec.readEvent(EventText(eventType.value, version.value, payload.value, metadata.value));
      var name := codec.readEventId(eventId.value);
      if id.None? || event.None? || name.None? then None
      else Some(Envelope(name.value, id.value, revision.value, Some(sequence.value), event.value, recordedAt.value))
  }

  /**
   * A stored event with a missing field, text that is not UTF-8 or a number that is none is
   * not read as an event. Payload and metadata are bytes and may be anything.
   */
  lemma UnreadableFieldRefused<Id, E>(codec: Codec<Id, E>, hash: Hash, f: Field)
    requires
      || Get(hash, f).None?
      || (f != Payload && f != Metadata && !IsUtf8(Get(hash, f).value))
      || (f in {Revision, Sequence, EventVersion} && ParseU64(Get(hash, f).value).None?)
      || (f == RecordedAtMs && ParseI64(Get(hash, f).value).None?)
      || (f == EventVersion && ParseU64(Get(hash, f).value).value > U32_MAX)
    ensures HashToEnvelope(codec, hash).None?
  {
    hide IsUtf8, ParseU64, ParseI64;
    match f
    case EventId => case AggregateId => case AggregateType => case Revision => case Sequence =>
    case EventType => case EventVersion => case Payload => case Metadata => case RecordedAtMs =>
  }

  /** Counters fit 64 bits unsigned and timestamps 64 bits signed, as their types say. */
  predicate Storable<Id, E>(e: Envelope<Id, E>) {
    && e.revision <= U64_MAX
    && e.sequence.Some? && e.sequence.value <= U64_MAX
    && -I64_MAX - 1 <= e.recordedAt <= I64_MAX
  }

  lemma DecimalUtf8(n: int)
    ensures IsUtf8(DecimalInt(n))
  {
    DecimalParses(if n < 0 then -n else n);
    AsciiIsUtf8(DecimalInt(n));
  }

  lemma NumberStored<Id, E>(codec: Codec<Id, E>, e: Envelope<Id, E>, f: Field, n: int)
    requires FieldValue(codec, e, f) == DecimalInt(n)
    ensures 0 <= n <= U64_MAX ==> GetU64(EventHashOf(codec, e), f) == Some(n)
    ensures -I64_MAX - 1 <= n <= I64_MAX ==> GetI64(EventHashOf(codec, e), f) == Some(n)
  {
    FieldStored(codec, e, f);
    hide EventHashOf, Name, FieldValue, DecimalInt, IsUtf8, ParseU64, ParseI64;
    DecimalUtf8(n);
    ParsePrinted(n);
  }

  lemma TextStored<Id, E>(codec: Codec<Id, E>, e: Envelope<Id, E>, f: Field)
    ensures Get(EventHashOf(codec, e), f) == Some(FieldValue(codec, e, f))
    ensures IsUtf8(FieldValue(codec, e, f)) ==>
      GetString(EventHashOf(codec, e), f) == Some(FieldValue(codec, e, f))
  {
    FieldStored(codec, e, f);
    hide EventHashOf, Name, FieldValue, IsUtf8;
  }

  /** What the script writes for an event the client reads back as that event. */
  lemma HashRoundTrip<Id(!new), E(!new)>(codec: Codec<Id, E>, e: Envelope<Id, E>)
    requires Faithful(codec) && Storable(e)
    ensures HashToEnvelope(codec, EventHashOf(codec, e)) == Some(e)
  {
    hide EventHashOf, Name, IsUtf8, GetString, GetU64, GetI64, Get, Decimal;
    assert FaithfulId(codec, e.aggregateId) && FaithfulEvent(codec, e.event) && FaithfulEventId(codec, e.eventId);
    NumberStored(codec, e, Revision, e.revision);
    NumberStored(codec, e, Sequence, e.sequence.value);
    NumberStored(codec, e, EventVersion, codec.writeEvent(e.event).version);
    NumberStored(codec, e, RecordedAtMs, e.recordedAt);
    TextStored(codec, e, EventId);
    TextStored(codec, e, AggregateId);
    TextStored(codec, e, AggregateType);
    TextStored(codec, e, EventType);
    TextStored(codec, e, Payload);
    TextStored(codec, e, Metadata);
  }

  /** How the server lists a hash: every field once, in whatever order. */
  ghost predicate ListsHashes(listing: Hash -> Listing) {
    forall hash :: DistinctFields(listing(hash)) && AsMap(listing(hash)) == hash
  }

  /** However the server lists it, a stored event is readable. */
  lemma ListedReadable<Id, E>(codec: Codec<Id, E>, e: Envelope<Id, E>, listing: Hash -> Listing)
    requires ListsHashes(listing)
    ensures var l := listing(EventHashOf(codec, e));
      DistinctFields(l) && Readable(l) && AsMap(l) == EventHashOf(codec, e)
  {
    var hash := EventHashOf(codec, e);
    FieldStored(codec, e, EventId);
    NamesUtf8(codec, e);
    hide EventHashOf, IsUtf8, Name;
    var l := listing(hash);
    assert DistinctFields(l) && AsMap(l) == hash;
    forall i | 0 <= i < |l| ensures IsUtf8(l[i].0) {
      assert l[i].0 in AsMap(l);
    }
    AsMapEmpty(l);
  }
}
