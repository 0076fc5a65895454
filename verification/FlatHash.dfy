/**
 * The flat hash batch: one reply carries the hashes of many events as a length prefix
 * followed by that many field and value items per event. The server-side script writes
 * it, the client unpacks it, fetching at most 256 events per round trip.
 */
module FlatHash {
  import opened Common
  import opened RedisValues
  import opened Text

  const HASH_FETCH_CHUNK_SIZE: nat := 256

  type Hash = map<Bytes, Bytes>

  /** A stored hash as `HGETALL` lists it, in whatever order; empty when the key is missing. */
  type Listing = seq<(Bytes, Bytes)>

  datatype UnpackError =
    | BadItem(error: ValueError)
    | OddFields
    | EndedEarly
    | PrefixNotInteger
    | NegativePrefix
    | Truncated
    | Missing
    | TrailingItems

  type Unpacked = Result<seq<Hash>, UnpackError>

  // ---- what the script sends ----

  function Entries(listing: Listing): (r: seq<RedisValue>)
    ensures |r| == 2 * |listing|
  {
    if listing == [] then [] else
      Entries(listing[..|listing| - 1]) + [Bulk(listing[|listing| - 1].0), Bulk(listing[|listing| - 1].1)]
  }

  /** One event of the batch: its item count, then its items. */
  function Framed(items: seq<RedisValue>): seq<RedisValue> {
    [Int(|items|)] + items
  }

  function Flatten(listings: seq<Listing>): seq<RedisValue> {
    if listings == [] then [] else Framed(Entries(listings[0])) + Flatten(listings[1..])
  }

  function Fetched(stored: nat -> Listing, sequences: seq<nat>): (r: seq<Listing>)
    ensures |r| == |sequences|
  {
    seq(|sequences|, i requires 0 <= i < |sequences| => stored(sequences[i]))
  }

  // ---- what the client makes of it ----

  /** Field and value pairs read in order; a repeated field keeps its last value. */
  function HashFromItems(items: seq<RedisValue>): Result<Hash, UnpackError>
    requires |items| % 2 == 0
  {
    if items == [] then Ok(map[]) else
      match HashFromItems(items[..|items| - 2])
      case Err(error) => Err(error)
      case Ok(hash) =>
        match ValueString(items[|items| - 2])
        case Err(error) => Err(BadItem(error))
        case Ok(field) =>
          match ValueBytes(items[|items| - 1])
          case Err(error) => Err(BadItem(error))
          case Ok(value) => Ok(hash[field := value])
  }

  function EventHash(entries: seq<RedisValue>): Result<Hash, UnpackError> {
    if |entries| % 2 != 0 then Err(OddFields) else
      match HashFromItems(entries)
      case Err(error) => Err(error)
      case Ok(hash) => if hash == map[] then Err(Missing) else Ok(hash)
  }

  function Prepend(hashes: seq<Hash>, more: Unpacked): Unpacked {
    match more
    case Err(error) => Err(error)
    case Ok(rest) => Ok(hashes + rest)
  }

  function Unpack(items: seq<RedisValue>, count: nat): Unpacked
    decreases count
  {
    if count == 0 then (if items == [] then Ok([]) else Err(TrailingItems))
    else if items == [] then Err(EndedEarly)
    else if !items[0].Int? then Err(PrefixNotInteger)
    else if items[0].number < 0 then Err(NegativePrefix)
    else if items[0].number > |items| - 1 then Err(Truncated)
    else
      match EventHash(items[1..1 + items[0].number])
      case Err(error) => Err(error)
      case Ok(hash) => Prepend([hash], Unpack(items[1 + items[0].number..], count - 1))
  }

  function UnpackReply(reply: RedisValue, count: nat): Unpacked {
    match ArrayItems(reply)
    case Err(error) => Err(BadItem(error))
    case Ok(items) => Unpack(items, count)
  }

  lemma {:induction false} FirstErrorStays(items: seq<RedisValue>, k: nat)
    requires |items| % 2 == 0 && 2 * k <= |items|
    requires HashFromItems(items[..2 * k]).Err?
    ensures HashFromItems(items) == HashFromItems(items[..2 * k])
  {
    if 2 * k == |items| {
      assert items[..2 * k] == items;
    } else {
      var init := items[..|items| - 2];
      assert init[..2 * k] == items[..2 * k];
      FirstErrorStays(init, k);
    }
  }

  method RedisHashFromItems(items: seq<RedisValue>) returns (result: Result<Hash, UnpackError>)
    ensures result == if |items| % 2 != 0 then Err(OddFields) else HashFromItems(items)
  {
    if |items| % 2 != 0 {
      return Err(OddFields);
    }
    var hash: Hash := map[];
    for k := 0 to |items| / 2
      invariant HashFromItems(items[..2 * k]) == Ok(hash)
    {
      assert items[..2 * (k + 1)][..2 * k] == items[..2 * k];
      var field := ValueString(items[2 * k]);
      var value := ValueBytes(items[2 * k + 1]);
      if field.Err? || value.Err? {
        FirstErrorStays(items, k + 1);
        return Err(BadItem(if field.Err? then field.error else value.error));
      }
      hash := hash[field.value := value.value];
    }
    assert items[..2 * (|items| / 2)] == items;
    result := Ok(hash);
  }

  method ReadEventHash(entries: seq<RedisValue>) returns (result: Result<Hash, UnpackError>)
    ensures result == EventHash(entries)
  {
    result := RedisHashFromItems(entries);
    if result.Ok? && result.value == map[] {
      return Err(Missing);
    }
  }

  /** What unpacking does at one position of the reply. */
  lemma UnpackHere(items: seq<RedisValue>, cursor: nat, count: nat)
    requires cursor <= |items|
    ensures count == 0 ==> Unpack(items[cursor..], count) == if cursor == |items| then Ok([]) else Err(TrailingItems)
    ensures count > 0 && cursor == |items| ==> Unpack(items[cursor..], count) == Err(EndedEarly)
    ensures count > 0 && cursor < |items| && !items[cursor].Int? ==>
      Unpack(items[cursor..], count) == Err(PrefixNotInteger)
  {
    hide EventHash;
  }

  lemma UnpackCounted(items: seq<RedisValue>, cursor: nat, count: nat)
    requires cursor < |items| && count > 0 && items[cursor].Int?
    ensures var length := items[cursor].number;
      Unpack(items[cursor..], count) ==
        if length < 0 then Err(NegativePrefix)
        else if cursor + 1 + length > |items| then Err(Truncated)
        else match EventHash(items[cursor + 1..cursor + 1 + length])
          case Err(error) => Err(error)
          case Ok(hash) => Prepend([hash], Unpack(items[cursor + 1 + length..], count - 1))
  {
    hide EventHash;
    var rest, length := items[cursor..], items[cursor].number;
    if 0 <= length && cursor + 1 + length <= |items| {
      assert rest[1..1 + length] == items[cursor + 1..cursor + 1 + length];
      assert rest[1 + length..] == items[cursor + 1 + length..];
    }
  }

  lemma PrependNothing(more: Unpacked)
    ensures Prepend([], more) == more
  {
    if more.Ok? {
      assert [] + more.value == more.value;
    }
  }

  lemma PrependTwice(a: seq<Hash>, b: seq<Hash>, more: Unpacked)
    ensures Prepend(a, Prepend(b, more)) == Prepend(a + b, more)
  {
    if more.Ok? {
      assert a + (b + more.value) == (a + b) + more.value;
    }
  }

  method UnpackFlatHashBatch(reply: RedisValue, count: nat) returns (result: Unpacked)
    ensures result == UnpackReply(reply, count)
  {
    hide EventHash, Unpack;
    var items;
    match ArrayItems(reply) {
      case Err(error) => return Err(BadItem(error));
      case Ok(listed) => items := listed;
    }
    var cursor, hashes: seq<Hash> := 0, [];
    PrependNothing(Unpack(items, count));
    assert items[0..] == items;
    for k := 0 to count
      invariant cursor <= |items|
      invariant Unpack(items, count) == Prepend(hashes, Unpack(items[cursor..], count - k))
    {
      UnpackHere(items, cursor, count - k);
      if cursor >= |items| {
        return Err(EndedEarly);
      }
      if !items[cursor].Int? {
        return Err(PrefixNotInteger);
      }
      UnpackCounted(items, cursor, count - k);
      var length := items[cursor].number;
      if length < 0 {
        return Err(NegativePrefix);
      }
      cursor := cursor + 1;
      if cursor + length > |items| {
        return Err(Truncated);
      }
      var entries := items[cursor..cursor + length];
      cursor := cursor + length;
      var hash := ReadEventHash(entries);
      if hash.Err? {
        return Err(hash.error);
      }
      PrependTwice(hashes, [hash.value], Unpack(items[cursor..], count - k - 1));
      hashes := hashes + [hash.value];
    }
    UnpackHere(items, cursor, 0);
    if cursor != |items| {
      return Err(TrailingItems);
    }
    assert hashes + [] == hashes;
    result := Ok(hashes);
  }

  // ---- round trip ----

  predicate DistinctFields(listing: Listing) {
    forall i, j | 0 <= i < j < |listing| :: listing[i].0 != listing[j].0
  }

  /** The hash itself, whatever order its fields were listed in. */
  function AsMap(listing: Listing): Hash
    requires DistinctFields(listing)
  {
    map i | 0 <= i < |listing| :: listing[i].0 := listing[i].1
  }

  predicate FieldsUtf8(listing: Listing) {
    forall i | 0 <= i < |listing| :: IsUtf8(listing[i].0)
  }

  lemma HashPush(items: seq<RedisValue>, field: Bytes, value: Bytes)
    requires |items| % 2 == 0
    ensures HashFromItems(items + [Bulk(field), Bulk(value)]) ==
            match HashFromItems(items)
            case Err(error) => Err(error)
            case Ok(hash) => if IsUtf8(field) then Ok(hash[field := value]) else Err(BadItem(NotUtf8))
  {
    hide IsUtf8;
    var all := items + [Bulk(field), Bulk(value)];
    assert all[..|all| - 2] == items;
  }

  lemma AsMapPush(init: Listing, last: (Bytes, Bytes))
    requires DistinctFields(init + [last])
    ensures DistinctFields(init) && AsMap(init + [last]) == AsMap(init)[last.0 := last.1]
  {
    var all := init + [last];
    assert forall i | 0 <= i < |init| :: all[i] == init[i];
    assert all[|init|] == last;
  }

  lemma FieldsPush(init: Listing, last: (Bytes, Bytes))
    ensures FieldsUtf8(init + [last]) <==> FieldsUtf8(init) && IsUtf8(last.0)
  {
    hide IsUtf8;
    var all := init + [last];
    assert forall i | 0 <= i < |init| :: all[i] == init[i];
    assert all[|init|] == last;
  }

  lemma {:induction false} EntriesRoundTrip(listing: Listing)
    requires DistinctFields(listing)
    ensures HashFromItems(Entries(listing)) ==
            if FieldsUtf8(listing) then Ok(AsMap(listing)) else Err(BadItem(NotUtf8))
  {
    hide IsUtf8;
    if listing != [] {
      var init, last := listing[..|listing| - 1], listing[|listing| - 1];
      assert listing == init + [last];
      assert Entries(listing) == Entries(init) + [Bulk(last.0), Bulk(last.1)];
      hide HashFromItems, Entries, AsMap, FieldsUtf8, DistinctFields;
      AsMapPush(init, last);
      FieldsPush(init, last);
      EntriesRoundTrip(init);
      HashPush(Entries(init), last.0, last.1);
    }
  }

  predicate Readable(listing: Listing) {
    listing != [] && FieldsUtf8(listing)
  }

  lemma AsMapEmpty(listing: Listing)
    requires DistinctFields(listing)
    ensures listing == [] <==> AsMap(listing) == map[]
  {
    assert |listing| > 0 ==> listing[0].0 in AsMap(listing);
  }

  lemma EventRoundTrip(listing: Listing)
    requires DistinctFields(listing)
    ensures if Readable(listing) then EventHash(Entries(listing)) == Ok(AsMap(listing))
            else EventHash(Entries(listing)).Err?
  {
    hide HashFromItems, IsUtf8, Entries, AsMap, DistinctFields, FieldsUtf8;
    EntriesRoundTrip(listing);
    AsMapEmpty(listing);
  }

  /** One frame at the front of a reply is one event. */
  lemma UnpackFrame(entries: seq<RedisValue>, rest: seq<RedisValue>, count: nat)
    ensures Unpack(Framed(entries) + rest, count + 1) ==
            match EventHash(entries)
            case Err(error) => Err(error)
            case Ok(hash) => Prepend([hash], Unpack(rest, count))
  {
    hide EventHash;
    var items := Framed(entries) + rest;
    assert items[0] == Int(|entries|);
    assert items[1..1 + |entries|] == entries;
    assert items[1 + |entries|..] == rest;
  }

  ghost predicate AllDistinct(listings: seq<Listing>) {
    forall i | 0 <= i < |listings| :: DistinctFields(listings[i])
  }

  function AsMaps(listings: seq<Listing>): (r: seq<Hash>)
    requires AllDistinct(listings)
    ensures |r| == |listings|
  {
    seq(|listings|, i requires 0 <= i < |listings| => AsMap(listings[i]))
  }

  lemma NothingToUnpack()
    ensures Unpack(Flatten([]), 0) == Ok([])
  {
  }

  lemma UnpackFirst(listings: seq<Listing>)
    requires listings != []
    ensures Unpack(Flatten(listings), |listings|) ==
            match EventHash(Entries(listings[0]))
            case Err(error) => Err(error)
            case Ok(hash) => Prepend([hash], Unpack(Flatten(listings[1..]), |listings| - 1))
  {
    hide EventHash, Entries, Framed, Unpack;
    UnpackFrame(Entries(listings[0]), Flatten(listings[1..]), |listings| - 1);
  }

  /**
   * Unpacking the script's reply returns the stored hashes in request order, whatever
   * their field order, if and only if each exists and has readable field names.
   */
  lemma {:induction false} FlatRoundTrip(listings: seq<Listing>)
    requires AllDistinct(listings)
    ensures if forall i | 0 <= i < |listings| :: Readable(listings[i])
            then Unpack(Flatten(listings), |listings|) == Ok(AsMaps(listings))
            else Unpack(Flatten(listings), |listings|).Err?
  {
    hide EventHash, AsMap, Entries, Framed, Readable, Unpack, Flatten;
    NothingToUnpack();
    if listings != [] {
      var first, rest := listings[0], listings[1..];
      FlatRoundTrip(rest);
      EventRoundTrip(first);
      UnpackFirst(listings);
      assert forall i | 1 <= i < |listings| :: listings[i] == rest[i - 1];
      assert AsMaps(listings) == [AsMap(first)] + AsMaps(rest);
    }
  }

  // ---- accepted replies ----

  function Frames(batch: seq<seq<RedisValue>>): seq<RedisValue> {
    if batch == [] then [] else Framed(batch[0]) + Frames(batch[1..])
  }

  lemma AcceptedFrame(items: seq<RedisValue>, count: nat) returns (entries: seq<RedisValue>, rest: seq<RedisValue>)
    requires count > 0 && Unpack(items, count).Ok?
    ensures items == Framed(entries) + rest && |rest| < |items|
    ensures EventHash(entries).Ok? && Unpack(rest, count - 1).Ok?
    ensures Unpack(items, count).value == [EventHash(entries).value] + Unpack(rest, count - 1).value
  {
    hide EventHash;
    var length := items[0].number;
    entries, rest := items[1..1 + length], items[1 + length..];
    assert items == [items[0]] + entries + rest;
  }

  lemma NothingAccepted(items: seq<RedisValue>)
    requires Unpack(items, 0).Ok?
    ensures items == [] && Unpack(items, 0).value == []
  {
  }

  /** Every accepted reply is consumed completely: it is one frame per event and nothing else. */
  lemma {:induction false} AcceptedIsFrames(items: seq<RedisValue>, count: nat) returns (batch: seq<seq<RedisValue>>)
    requires Unpack(items, count).Ok?
    ensures |batch| == count == |Unpack(items, count).value|
    ensures items == Frames(batch)
    ensures forall i | 0 <= i < count :: EventHash(batch[i]) == Ok(Unpack(items, count).value[i])
    decreases count
  {
    hide EventHash, Unpack, Framed;
    if count == 0 {
      NothingAccepted(items);
      batch := [];
    } else {
      var entries, rest := AcceptedFrame(items, count);
      var more := AcceptedIsFrames(rest, count - 1);
      batch := [entries] + more;
      assert batch[1..] == more && batch[0] == entries;
      forall i | 0 <= i < count ensures EventHash(batch[i]) == Ok(Unpack(items, count).value[i]) {
        if i > 0 {
          assert batch[i] == more[i - 1];
        }
      }
    }
  }

  // ---- fetching in chunks ----

  /** One unpacking followed by another; the first failure is the failure of both. */
  function Then(a: Unpacked, b: Unpacked): Unpacked {
    match a
    case Err(error) => Err(error)
    case Ok(hashes) => Prepend(hashes, b)
  }

  lemma ThenPrepend(first: seq<Hash>, a: Unpacked, b: Unpacked)
    ensures Then(Prepend(first, a), b) == Prepend(first, Then(a, b))
  {
    if a.Ok? {
      PrependTwice(first, a.value, b);
    }
  }

  /** A batch that is the concatenation of two unpacks as the two one after the other. */
  lemma {:induction false} UnpackTwoBatches(a: seq<Listing>, b: seq<Listing>)
    ensures Unpack(Flatten(a + b), |a| + |b|) == Then(Unpack(Flatten(a), |a|), Unpack(Flatten(b), |b|))
  {
    hide EventHash, Entries, Framed, Unpack, Flatten;
    if a == [] {
      assert a + b == b;
      NothingToUnpack();
      PrependNothing(Unpack(Flatten(b), |b|));
    } else {
      UnpackTwoBatches(a[1..], b);
      assert (a + b)[1..] == a[1..] + b;
      UnpackFirst(a + b);
      UnpackFirst(a);
      if EventHash(Entries(a[0])).Ok? {
        ThenPrepend([EventHash(Entries(a[0])).value], Unpack(Flatten(a[1..]), |a| - 1), Unpack(Flatten(b), |b|));
      }
    }
  }

  /** The outcome of one unlimited fetch of the stored hashes. */
  function FetchAll(stored: nat -> Listing, sequences: seq<nat>): Unpacked {
    UnpackReply(Array(Flatten(Fetched(stored, sequences))), |sequences|)
  }

  method FetchChunk(stored: nat -> Listing, chunk: seq<nat>) returns (unpacked: Unpacked)
    ensures unpacked == FetchAll(stored, chunk)
  {
    unpacked := UnpackFlatHashBatch(Array(Flatten(Fetched(stored, chunk))), |chunk|);
  }

  /** What the chunk `done..end` adds, and that a failure in it is the failure of the whole fetch. */
  lemma FetchSplit(stored: nat -> Listing, sequences: seq<nat>, done: nat, end: nat)
    requires done <= end <= |sequences|
    ensures FetchAll(stored, sequences[..0]) == Ok([])
    ensures FetchAll(stored, sequences[..end]) ==
            Then(FetchAll(stored, sequences[..done]), FetchAll(stored, sequences[done..end]))
    ensures FetchAll(stored, sequences) == Then(FetchAll(stored, sequences[..end]), FetchAll(stored, sequences[end..]))
  {
    hide Unpack, Flatten;
    NothingToUnpack();
    assert Fetched(stored, sequences[..0]) == [];
    var a, b := Fetched(stored, sequences[..done]), Fetched(stored, sequences[done..end]);
    var c := Fetched(stored, sequences[end..]);
    assert Fetched(stored, sequences[..end]) == a + b;
    assert Fetched(stored, sequences) == (a + b) + c;
    UnpackTwoBatches(a, b);
    UnpackTwoBatches(a + b, c);
  }

  /** Fetches the hashes of `sequences` in chunks; the outcome is that of one unlimited fetch. */
  method LoadSequenceHashes(stored: nat -> Listing, sequences: seq<nat>) returns (result: Unpacked)
    ensures result == FetchAll(stored, sequences)
  {
    var hashes: seq<Hash> := [];
    var done := 0;
    FetchSplit(stored, sequences, 0, 0);
    hide FetchAll;
    while done < |sequences|
      invariant done <= |sequences|
      invariant FetchAll(stored, sequences[..done]) == Ok(hashes)
    {
      var end := if |sequences| <= done + HASH_FETCH_CHUNK_SIZE then |sequences| else done + HASH_FETCH_CHUNK_SIZE;
      var unpacked := FetchChunk(stored, sequences[done..end]);
      FetchSplit(stored, sequences, done, end);
      if unpacked.Err? {
        return Err(unpacked.error);
      }
      hashes := hashes + unpacked.value;
      done := end;
    }
    assert sequences[..done] == sequences;
    result := Ok(hashes);
  }
}
