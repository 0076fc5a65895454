/**
 * The Redis wire protocol (RESP2) as the client writes and reads it: commands are arrays
 * of bulk strings; replies are decoded recursively with limits on line length, bulk
 * size, array length and nesting depth.
 */
module Resp {
  import opened Common
  import opened RedisValues
  import opened Text

  const MAX_RESP_BULK_BYTES: nat := 64 * 1024 * 1024
  const MAX_RESP_LINE_BYTES: nat := 1024 * 1024
  const MAX_RESP_ARRAY_LEN: nat := 1_000_000
  const MAX_RESP_DEPTH: nat := 32

  const CR: byte := 13
  const LF: byte := 10
  const STAR: byte := 42
  const DOLLAR: byte := 36
  const PLUS: byte := 43
  const MINUS: byte := 45
  const COLON: byte := 58

  datatype RespError =
    | UnexpectedEnd
    | LineTooLong
    | LineWithoutCrlf
    | LineNotUtf8
    | BadNumber
    | BulkTooLong
    | BulkWithoutCrlf
    | ArrayTooLong
    | TooDeep
    | UnknownPrefix
    | Server(message: Bytes)

  /** A decoded value and the bytes left behind it. */
  datatype Decoded<+T> = Decoded(value: T, rest: Bytes)

  type Decoding<+T> = Result<Decoded<T>, RespError>

  // ---- encoding ----

  function Crlf(): Bytes {
    [CR, LF]
  }

  function EncodeBulk(bytes: Bytes): Bytes {
    [DOLLAR] + Decimal(|bytes|) + Crlf() + bytes + Crlf()
  }

  function EncodeBulks(args: seq<Bytes>): Bytes {
    if args == [] then [] else EncodeBulk(args[0]) + EncodeBulks(args[1..])
  }

  function EncodeCommand(command: Bytes, args: seq<Bytes>): Bytes {
    [STAR] + Decimal(|args| + 1) + Crlf() + EncodeBulks([command] + args)
  }

  lemma {:induction false} EncodeBulksPush(args: seq<Bytes>, last: Bytes)
    ensures EncodeBulks(args + [last]) == EncodeBulks(args) + EncodeBulk(last)
  {
    hide EncodeBulk;
    if args == [] {
      assert [last][1..] == [];
    } else {
      EncodeBulksPush(args[1..], last);
      assert (args + [last])[1..] == args[1..] + [last];
    }
  }

  method PushBulk(output: Bytes, bytes: Bytes) returns (r: Bytes)
    ensures r == output + EncodeBulk(bytes)
  {
    r := output + ([DOLLAR] + Decimal(|bytes|) + Crlf());
    r := r + bytes;
    r := r + Crlf();
  }

  method EncodeRespCommand(command: Bytes, args: seq<Bytes>) returns (output: Bytes)
    ensures output == EncodeCommand(command, args)
  {
    output := [STAR] + Decimal(|args| + 1) + Crlf();
    ghost var header := output;
    output := PushBulk(output, command);
    assert EncodeBulks([command]) == EncodeBulk(command) by { assert [command][1..] == []; }
    for i := 0 to |args|
      invariant output == header + EncodeBulks([command] + args[..i])
    {
      EncodeBulksPush([command] + args[..i], args[i]);
      assert [command] + args[..i + 1] == ([command] + args[..i]) + [args[i]];
      output := PushBulk(output, args[i]);
    }
    assert args[..|args|] == args;
  }

  // ---- decoding ----

  /** Bytes up to and including the first line feed, at most `limit` of them. */
  function LineEnd(input: Bytes, limit: nat): (n: nat)
    ensures n <= |input| && n <= limit
  {
    if input == [] || limit == 0 then 0
    else if input[0] == LF then 1
    else 1 + LineEnd(input[1..], limit - 1)
  }

  /** Reads one line within `max` bytes, CRLF included. */
  function ReadLineWithin(input: Bytes, max: nat): Decoding<Bytes> {
    var n := LineEnd(input, max + 1);
    if n > max then Err(LineTooLong)
    else if n < 2 || input[n - 2] != CR || input[n - 1] != LF then Err(LineWithoutCrlf)
    else if !IsUtf8(input[..n - 2]) then Err(LineNotUtf8)
    else Ok(Decoded(input[..n - 2], input[n..]))
  }

  function ReadLine(input: Bytes): Decoding<Bytes> {
    ReadLineWithin(input, MAX_RESP_LINE_BYTES)
  }

  function ReadNumber(input: Bytes): Decoding<int> {
    match ReadLine(input)
    case Err(error) => Err(error)
    case Ok(line) =>
      match ParseI64(line.value)
      case None => Err(BadNumber)
      case Some(n) => Ok(Decoded(n, line.rest))
  }

  function ReadBulk(input: Bytes, length: int): Decoding<RedisValue> {
    if length < 0 then Ok(Decoded(Nil, input))
    else if length > MAX_RESP_BULK_BYTES then Err(BulkTooLong)
    else if length + 2 > |input| then Err(UnexpectedEnd)
    else if input[length..length + 2] != Crlf() then Err(BulkWithoutCrlf)
    else Ok(Decoded(Bulk(input[..length]), input[length + 2..]))
  }

  function DepthLeft(depth: nat): nat {
    if depth < MAX_RESP_DEPTH then MAX_RESP_DEPTH - depth else 0
  }

  function DecodeBulk(body: Bytes): Decoding<RedisValue> {
    match ReadNumber(body)
    case Ok(n) => ReadBulk(n.rest, n.value)
    case Err(e) => Err(e)
  }

  function Decode(input: Bytes, depth: nat): Decoding<RedisValue>
    decreases DepthLeft(depth), 1
  {
    if depth >= MAX_RESP_DEPTH then Err(TooDeep)
    else if input == [] then Err(UnexpectedEnd)
    else if input[0] == PLUS then
      (match ReadLine(input[1..]) case Ok(line) => Ok(Decoded(Status(line.value), line.rest)) case Err(e) => Err(e))
    else if input[0] == MINUS then
      (match ReadLine(input[1..]) case Ok(line) => Err(Server(line.value)) case Err(e) => Err(e))
    else if input[0] == COLON then
      (match ReadNumber(input[1..]) case Ok(n) => Ok(Decoded(Int(n.value), n.rest)) case Err(e) => Err(e))
    else if input[0] == DOLLAR then DecodeBulk(input[1..])
    else if input[0] == STAR then DecodeArray(input[1..], depth)
    else Err(UnknownPrefix)
  }

  function DecodeArray(body: Bytes, depth: nat): Decoding<RedisValue>
    requires depth < MAX_RESP_DEPTH
    decreases DepthLeft(depth), 0
  {
    match ReadNumber(body)
    case Err(e) => Err(e)
    case Ok(n) =>
      if n.value < 0 then Ok(Decoded(Nil, n.rest))
      else if n.value > MAX_RESP_ARRAY_LEN then Err(ArrayTooLong)
      else
        match DecodeItems(n.rest, n.value, depth + 1)
        case Err(e) => Err(e)
        case Ok(items) => Ok(Decoded(Array(items.value), items.rest))
  }

  function DecodeItems(input: Bytes, count: nat, depth: nat): Decoding<seq<RedisValue>>
    decreases DepthLeft(depth), count + 2
  {
    if count == 0 then Ok(Decoded([], input)) else
      match Decode(input, depth)
      case Err(e) => Err(e)
      case Ok(first) => Prepend([first.value], DecodeItems(first.rest, count - 1, depth))
  }

  function Prepend(items: seq<RedisValue>, more: Decoding<seq<RedisValue>>): Decoding<seq<RedisValue>> {
    match more
    case Err(e) => Err(e)
    case Ok(d) => Ok(Decoded(items + d.value, d.rest))
  }

  lemma PrependNothing(more: Decoding<seq<RedisValue>>)
    ensures Prepend([], more) == more
  {
    if more.Ok? {
      assert [] + more.value.value == more.value.value;
    }
  }

  lemma PrependTwice(a: seq<RedisValue>, b: seq<RedisValue>, more: Decoding<seq<RedisValue>>)
    ensures Prepend(a, Prepend(b, more)) == Prepend(a + b, more)
  {
    if more.Ok? {
      assert a + (b + more.value.value) == (a + b) + more.value.value;
    }
  }

  /** The client's reader: a stream of bytes consumed from the front. */
  class Reader {
    var rest: Bytes

    constructor (input: Bytes)
      ensures rest == input
    {
      rest := input;
    }

    method ReadRespLine() returns (result: Result<Bytes, RespError>)
      modifies this
      ensures match ReadLine(old(rest))
              case Ok(line) => result == Ok(line.value) && rest == line.rest
              case Err(error) => result == Err(error)
    {
      var input := rest;
      var limit := MAX_RESP_LINE_BYTES + 1;
      var n := 0;
      while n < |input| && n < limit && (n == 0 || input[n - 1] != LF)
        invariant n <= |input| && n <= limit
        invariant n > 0 && input[n - 1] == LF ==> LineEnd(input, limit) == n
        invariant n == 0 || input[n - 1] != LF ==> LineEnd(input, limit) == n + LineEnd(input[n..], limit - n)
      {
        assert input[n..][1..] == input[n + 1..];
        n := n + 1;
      }
      if n > MAX_RESP_LINE_BYTES {
        return Err(LineTooLong);
      }
      if n < 2 || input[n - 2] != CR || input[n - 1] != LF {
        return Err(LineWithoutCrlf);
      }
      rest := input[n..];
      if !IsUtf8(input[..n - 2]) {
        return Err(LineNotUtf8);
      }
      return Ok(input[..n - 2]);
    }

    method ReadRespNumber() returns (result: Result<int, RespError>)
      modifies this
      ensures match ReadNumber(old(rest))
              case Ok(number) => result == Ok(number.value) && rest == number.rest
              case Err(error) => result == Err(error)
    {
      var line := ReadRespLine();
      if line.Err? {
        return Err(line.error);
      }
      match ParseI64(line.value) {
        case None => return Err(BadNumber);
        case Some(n) => return Ok(n);
      }
    }

    method ReadRespBulk() returns (result: Result<RedisValue, RespError>)
      modifies this
      ensures match DecodeBulk(old(rest))
              case Ok(bulk) => result == Ok(bulk.value) && rest == bulk.rest
              case Err(error) => result == Err(error)
    {
      var number := ReadRespNumber();
      if number.Err? {
        return Err(number.error);
      }
      var length := number.value;
      if length < 0 {
        return Ok(Nil);
      }
      if length > MAX_RESP_BULK_BYTES {
        return Err(BulkTooLong);
      }
      if length + 2 > |rest| {
        return Err(UnexpectedEnd);
      }
      var bytes := rest[..length];
      var crlf := rest[length..length + 2];
      rest := rest[length + 2..];
      if crlf != Crlf() {
        return Err(BulkWithoutCrlf);
      }
      return Ok(Bulk(bytes));
    }

    method ReadRespValueAtDepth(depth: nat) returns (result: Result<RedisValue, RespError>)
      modifies this
      ensures match Decode(old(rest), depth)
              case Ok(decoded) => result == Ok(decoded.value) && rest == decoded.rest
              case Err(error) => result == Err(error)
      decreases DepthLeft(depth), 1
    {
      if depth >= MAX_RESP_DEPTH {
        return Err(TooDeep);
      }
      if rest == [] {
        return Err(UnexpectedEnd);
      }
      var prefix := rest[0];
      rest := rest[1..];
      if prefix == PLUS {
        var line := ReadRespLine();
        return if line.Ok? then Ok(Status(line.value)) else Err(line.error);
      } else if prefix == MINUS {
        var line := ReadRespLine();
        return if line.Ok? then Err(Server(line.value)) else Err(line.error);
      } else if prefix == COLON {
        var number := ReadRespNumber();
        return if number.Ok? then Ok(Int(number.value)) else Err(number.error);
      } else if prefix == DOLLAR {
        result := ReadRespBulk();
      } else if prefix == STAR {
        result := ReadRespArray(depth);
      } else {
        return Err(UnknownPrefix);
      }
    }

    method ReadRespArray(depth: nat) returns (result: Result<RedisValue, RespError>)
      requires depth < MAX_RESP_DEPTH
      modifies this
      ensures match DecodeArray(old(rest), depth)
              case Ok(decoded) => result == Ok(decoded.value) && rest == decoded.rest
              case Err(error) => result == Err(error)
      decreases DepthLeft(depth), 0
    {
      var length := ReadRespNumber();
      if length.Err? {
        return Err(length.error);
      }
      if length.value < 0 {
        return Ok(Nil);
      }
      if length.value > MAX_RESP_ARRAY_LEN {
        return Err(ArrayTooLong);
      }
      var items := ReadRespItems(length.value, depth + 1);
      return if items.Ok? then Ok(Array(items.value)) else Err(items.error);
    }

    method ReadRespItems(count: nat, depth: nat) returns (result: Result<seq<RedisValue>, RespError>)
      modifies this
      ensures match DecodeItems(old(rest), count, depth)
              case Ok(decoded) => result == Ok(decoded.value) && rest == decoded.rest
              case Err(error) => result == Err(error)
      decreases DepthLeft(depth), 2
    {
      var values: seq<RedisValue> := [];
      PrependNothing(DecodeItems(rest, count, depth));
      for i := 0 to count
        invariant DecodeItems(old(rest), count, depth) == Prepend(values, DecodeItems(rest, count - i, depth))
      {
        ghost var before, here := values, rest;
        var item := ReadRespValueAtDepth(depth);
        if item.Err? {
          return Err(item.error);
        }
        values := values + [item.value];
        PrependTwice(before, [item.value], DecodeItems(rest, count - i - 1, depth));
      }
      assert values + [] == values;
      return Ok(values);
    }
  }

  // ---- reading exactly one frame ----

  /** `rest` is what is left of `input` once a frame at its front is taken. */
  ghost predicate LeftOver(input: Bytes, rest: Bytes) {
    |rest| <= |input| && input[|input| - |rest|..] == rest
  }

  ghost function Frame(input: Bytes, rest: Bytes): Bytes
    requires |rest| <= |input|
  {
    input[..|input| - |rest|]
  }

  /** A line read stops right behind its line feed: other bytes may follow. */
  lemma {:induction false} LineEndStable(input: Bytes, limit: nat, other: Bytes)
    requires LineEnd(input, limit) > 0 && input[LineEnd(input, limit) - 1] == LF
    ensures LineEnd(input[..LineEnd(input, limit)] + other, limit) == LineEnd(input, limit)
  {
    var n := LineEnd(input, limit);
    if input[0] != LF {
      assert input[1..][n - 2] == LF;
      LineEndStable(input[1..], limit - 1, other);
      assert (input[..n] + other)[1..] == input[1..][..n - 1] + other;
    }
  }

  lemma ReadLineStable(input: Bytes, max: nat, other: Bytes)
    requires ReadLineWithin(input, max).Ok?
    ensures var line := ReadLineWithin(input, max).value;
      && LeftOver(input, line.rest)
      && ReadLineWithin(Frame(input, line.rest) + other, max) == Ok(Decoded(line.value, other))
  {
    var n := LineEnd(input, max + 1);
    LineEndStable(input, max + 1, other);
    var again := input[..n] + other;
    assert again[..n - 2] == input[..n - 2];
    assert again[n..] == other;
  }

  lemma ReadNumberStable(input: Bytes, other: Bytes)
    requires ReadNumber(input).Ok?
    ensures var number := ReadNumber(input).value;
      && LeftOver(input, number.rest)
      && ReadNumber(Frame(input, number.rest) + other) == Ok(Decoded(number.value, other))
  {
    ReadLineStable(input, MAX_RESP_LINE_BYTES, other);
  }

  lemma ReadBulkStable(input: Bytes, length: int, other: Bytes)
    requires ReadBulk(input, length).Ok?
    ensures var bulk := ReadBulk(input, length).value;
      && LeftOver(input, bulk.rest)
      && ReadBulk(Frame(input, bulk.rest) + other, length) == Ok(Decoded(bulk.value, other))
  {
    if length >= 0 {
      var again := input[..length + 2] + other;
      assert again[length..length + 2] == input[length..length + 2];
      assert again[..length] == input[..length];
      assert again[length + 2..] == other;
    } else {
      assert input[..0] + other == other;
    }
  }

  /** A frame made of two consecutive parts. */
  lemma FrameOfTwo(input: Bytes, middle: Bytes, rest: Bytes, other: Bytes)
    requires LeftOver(input, middle) && LeftOver(middle, rest)
    ensures LeftOver(input, rest)
    ensures Frame(input, rest) + other == Frame(input, middle) + (Frame(middle, rest) + other)
  {
    var k := |input| - |middle|;
    assert input == input[..k] + middle;
    assert middle == Frame(middle, rest) + rest;
  }

  lemma FrameOfPrefix(input: Bytes, rest: Bytes, other: Bytes)
    requires input != [] && LeftOver(input[1..], rest)
    ensures LeftOver(input, rest) && |rest| < |input|
    ensures (Frame(input, rest) + other)[0] == input[0]
    ensures (Frame(input, rest) + other)[1..] == Frame(input[1..], rest) + other
  {
  }

  /** Decoding `input` reads one frame, and reads it again whatever bytes follow. */
  ghost predicate ReadsFrame(input: Bytes, depth: nat, other: Bytes) {
    var result := Decode(input, depth);
    && result.Ok?
    && LeftOver(input, result.value.rest) && |result.value.rest| < |input|
    && Decode(Frame(input, result.value.rest) + other, depth) == Ok(Decoded(result.value.value, other))
  }

  ghost predicate ReadsItems(input: Bytes, count: nat, depth: nat, other: Bytes) {
    var result := DecodeItems(input, count, depth);
    && result.Ok?
    && |result.value.value| == count && LeftOver(input, result.value.rest)
    && DecodeItems(Frame(input, result.value.rest) + other, count, depth) == Ok(Decoded(result.value.value, other))
  }

  lemma ReadsLineFrame(input: Bytes, depth: nat, other: Bytes)
    requires Decode(input, depth).Ok? && input[0] in {PLUS, COLON}
    ensures ReadsFrame(input, depth, other)
  {
    var d := Decode(input, depth).value;
    ReadLineStable(input[1..], MAX_RESP_LINE_BYTES, other);
    FrameOfPrefix(input, d.rest, other);
  }

  /** The frame of a counted value, taken apart behind its count. */
  lemma CountedFrame(input: Bytes, body: Bytes, number: Decoded<int>, rest: Bytes, other: Bytes)
    requires input != [] && body == input[1..]
    requires ReadNumber(body) == Ok(number) && LeftOver(number.rest, rest)
    ensures LeftOver(input, rest) && |rest| < |input|
    ensures var again := Frame(input, rest) + other;
      && again[0] == input[0]
      && ReadNumber(again[1..]) == Ok(Decoded(number.value, Frame(number.rest, rest) + other))
  {
    ReadNumberStable(body, Frame(number.rest, rest) + other);
    FrameOfTwo(body, number.rest, rest, other);
    FrameOfPrefix(input, rest, other);
  }

  lemma ReadsBulkFrame(input: Bytes, depth: nat, other: Bytes)
    requires Decode(input, depth).Ok? && input[0] == DOLLAR
    ensures ReadsFrame(input, depth, other)
  {
    hide ReadNumber, ReadBulk;
    var d := Decode(input, depth).value;
    var number := ReadNumber(input[1..]).value;
    ReadBulkStable(number.rest, number.value, other);
    CountedFrame(input, input[1..], number, d.rest, other);
  }

  lemma ReadsArrayFrame(input: Bytes, depth: nat, other: Bytes)
    requires Decode(input, depth).Ok? && input[0] == STAR
    requires ReadNumber(input[1..]).Ok?
    requires var number := ReadNumber(input[1..]).value;
      number.value >= 0 ==> ReadsItems(number.rest, number.value, depth + 1, other)
    ensures ReadsFrame(input, depth, other)
  {
    var d := Decode(input, depth).value;
    var number := ReadNumber(input[1..]).value;
    assert Frame(number.rest, number.rest) + other == other;
    CountedFrame(input, input[1..], number, d.rest, other);
  }

  /**
   * Decoding reads exactly its own frame: whatever follows the frame is left untouched,
   * and replacing what follows changes nothing but what is left.
   */
  lemma {:induction false} DecodesOneFrame(input: Bytes, depth: nat, other: Bytes)
    requires Decode(input, depth).Ok?
    ensures ReadsFrame(input, depth, other)
    decreases DepthLeft(depth), 0
  {
    if input[0] == STAR {
      var number := ReadNumber(input[1..]).value;
      if number.value >= 0 {
        ItemsOneFrame(number.rest, number.value, depth + 1, other);
      }
      ReadsArrayFrame(input, depth, other);
    } else if input[0] == DOLLAR {
      ReadsBulkFrame(input, depth, other);
    } else {
      ReadsLineFrame(input, depth, other);
    }
  }

  lemma {:induction false} ItemsOneFrame(input: Bytes, count: nat, depth: nat, other: Bytes)
    requires DecodeItems(input, count, depth).Ok?
    ensures ReadsItems(input, count, depth, other)
    decreases DepthLeft(depth), count + 1
  {
    hide Decode;
    var d := DecodeItems(input, count, depth).value;
    if count == 0 {
      assert Frame(input, input) + other == other;
    } else {
      var first := Decode(input, depth).value;
      ItemsOneFrame(first.rest, count - 1, depth, other);
      DecodesOneFrame(input, depth, Frame(first.rest, d.rest) + other);
      FrameOfTwo(input, first.rest, d.rest, other);
    }
  }

  // ---- round trip of commands ----

  /** A line of plain ASCII without line feeds is read back whole, if it fits. */
  lemma {:induction false} LineEndOf(text: Bytes, rest: Bytes, limit: nat)
    requires forall i | 0 <= i < |text| :: text[i] != LF
    ensures LineEnd(text + Crlf() + rest, limit) == if |text| + 2 <= limit then |text| + 2 else limit
  {
    var line := text + Crlf() + rest;
    if text == [] {
      assert line[1..] == [LF] + rest;
      assert line[0] == CR;
      if limit > 1 {
        assert LineEnd(line[1..], limit - 1) == 1;
      }
    } else if limit > 0 {
      LineEndOf(text[1..], rest, limit - 1);
      assert line[1..] == text[1..] + Crlf() + rest;
    }
  }

  /** A line's text: no line feed in it. */
  predicate OneLine(text: Bytes) {
    forall i | 0 <= i < |text| :: text[i] != LF
  }

  lemma LineParts(text: Bytes, rest: Bytes)
    ensures var line := text + Crlf() + rest;
      && |line| >= |text| + 2 && line[|text|] == CR && line[|text| + 1] == LF
      && line[..|text|] == text && line[|text| + 2..] == rest
  {
    var line := text + Crlf() + rest;
    assert line[|text|] == Crlf()[0] && line[|text| + 1] == Crlf()[1];
    assert line[..|text|] == text && line[|text| + 2..] == rest;
  }

  lemma LineRoundTrip(text: Bytes, rest: Bytes, max: nat)
    requires OneLine(text)
    ensures ReadLineWithin(text + Crlf() + rest, max) ==
            if |text| + 2 > max then Err(LineTooLong)
            else if IsUtf8(text) then Ok(Decoded(text, rest)) else Err(LineNotUtf8)
  {
    hide IsUtf8, LineEnd, Crlf;
    LineEndOf(text, rest, max + 1);
    LineParts(text, rest);
  }

  /** Reading back a printed length, and refusing the ones that do not fit the line or 64 bits. */
  lemma LengthRoundTrip(n: nat, rest: Bytes)
    ensures n < 1_000_000_000 ==> ReadNumber(Decimal(n) + Crlf() + rest) == Ok(Decoded(n, rest))
    ensures ReadNumber(Decimal(n) + Crlf() + rest).Ok? ==>
      ReadNumber(Decimal(n) + Crlf() + rest) == Ok(Decoded(n, rest))
  {
    DecimalParses(n);
    ParsePrinted(n);
    AsciiIsUtf8(Decimal(n));
    LineRoundTrip(Decimal(n), rest, MAX_RESP_LINE_BYTES);
    if n < 1_000_000_000 {
      DecimalLength(n, 9) by { assert Pow10(3) == 1000; assert Pow10(6) == 1_000_000; }
    }
  }

  function Bulks(args: seq<Bytes>): (r: seq<RedisValue>)
    ensures |r| == |args|
  {
    seq(|args|, i requires 0 <= i < |args| => Bulk(args[i]))
  }

  predicate BulksFit(args: seq<Bytes>) {
    forall i | 0 <= i < |args| :: |args[i]| <= MAX_RESP_BULK_BYTES
  }

  /** Decoding succeeds exactly when `fits`, and then yields `value` and leaves `rest`. */
  ghost predicate DecodesIff<T>(decoding: Decoding<T>, fits: bool, value: T, rest: Bytes) {
    if fits then decoding == Ok(Decoded(value, rest)) else decoding.Err?
  }

  lemma BulkBodyRoundTrip(bytes: Bytes, tail: Bytes)
    ensures DecodesIff(ReadBulk(bytes + Crlf() + tail, |bytes|), |bytes| <= MAX_RESP_BULK_BYTES, Bulk(bytes), tail)
  {
    var body := bytes + Crlf() + tail;
    assert body[..|bytes|] == bytes;
    assert body[|bytes|..|bytes| + 2] == Crlf();
    assert body[|bytes| + 2..] == tail;
  }

  lemma BulkRoundTrip(bytes: Bytes, tail: Bytes, depth: nat)
    requires depth < MAX_RESP_DEPTH
    ensures DecodesIff(Decode(EncodeBulk(bytes) + tail, depth), |bytes| <= MAX_RESP_BULK_BYTES, Bulk(bytes), tail)
  {
    var body := bytes + Crlf() + tail;
    var input := EncodeBulk(bytes) + tail;
    assert input[0] == DOLLAR && input[1..] == Decimal(|bytes|) + Crlf() + body;
    LengthRoundTrip(|bytes|, body);
    BulkBodyRoundTrip(bytes, tail);
  }

  lemma {:induction false} BulksRoundTrip(args: seq<Bytes>, tail: Bytes, depth: nat)
    requires depth < MAX_RESP_DEPTH
    ensures DecodesIff(DecodeItems(EncodeBulks(args) + tail, |args|, depth), BulksFit(args), Bulks(args), tail)
  {
    hide Decode;
    if args == [] {
      assert EncodeBulks(args) + tail == tail;
    } else {
      var more := EncodeBulks(args[1..]) + tail;
      assert EncodeBulks(args) + tail == EncodeBulk(args[0]) + more;
      BulkRoundTrip(args[0], more, depth);
      BulksRoundTrip(args[1..], tail, depth);
      assert BulksFit(args) <==> |args[0]| <= MAX_RESP_BULK_BYTES && BulksFit(args[1..]) by {
        assert forall i | 1 <= i < |args| :: args[i] == args[1..][i - 1];
      }
      assert Bulks(args) == [Bulk(args[0])] + Bulks(args[1..]);
    }
  }

  predicate CommandFits(command: Bytes, args: seq<Bytes>) {
    |args| + 1 <= MAX_RESP_ARRAY_LEN && BulksFit([command] + args)
  }

  function CommandValue(command: Bytes, args: seq<Bytes>): RedisValue {
    Array(Bulks([command] + args))
  }

  /**
   * A command decodes to the array of exactly its bulk strings and leaves exactly what
   * followed it, if and only if it is within the decoder's limits.
   */
  lemma CommandRoundTrip(command: Bytes, args: seq<Bytes>, tail: Bytes, depth: nat)
    requires depth + 1 < MAX_RESP_DEPTH
    ensures DecodesIff(Decode(EncodeCommand(command, args) + tail, depth), CommandFits(command, args),
                       CommandValue(command, args), tail)
  {
    hide DecodeItems, EncodeBulks, Decimal, ReadNumber;
    var all := [command] + args;
    var body := EncodeBulks(all) + tail;
    var input := EncodeCommand(command, args) + tail;
    assert input[0] == STAR && input[1..] == Decimal(|all|) + Crlf() + body;
    LengthRoundTrip(|all|, body);
    BulksRoundTrip(all, tail, depth + 1);
  }

  function EncodeCommands(commands: seq<(Bytes, seq<Bytes>)>): Bytes {
    if commands == [] then [] else
      EncodeCommand(commands[0].0, commands[0].1) + EncodeCommands(commands[1..])
  }

  function CommandValues(commands: seq<(Bytes, seq<Bytes>)>): (r: seq<RedisValue>)
    ensures |r| == |commands|
  {
    seq(|commands|, i requires 0 <= i < |commands| => CommandValue(commands[i].0, commands[i].1))
  }

  /** Pipelined commands decode one by one. */
  lemma {:induction false} PipelineRoundTrip(commands: seq<(Bytes, seq<Bytes>)>, tail: Bytes, depth: nat)
    requires depth + 1 < MAX_RESP_DEPTH
    requires forall i | 0 <= i < |commands| :: CommandFits(commands[i].0, commands[i].1)
    ensures DecodeItems(EncodeCommands(commands) + tail, |commands|, depth) ==
            Ok(Decoded(CommandValues(commands), tail))
  {
    hide Decode;
    if commands == [] {
      assert EncodeCommands(commands) + tail == tail;
    } else {
      var more := EncodeCommands(commands[1..]) + tail;
      assert EncodeCommands(commands) + tail == EncodeCommand(commands[0].0, commands[0].1) + more;
      CommandRoundTrip(commands[0].0, commands[0].1, more, depth);
      PipelineRoundTrip(commands[1..], tail, depth);
      assert CommandValues(commands) == [CommandValue(commands[0].0, commands[0].1)] + CommandValues(commands[1..]);
    }
  }

  // ---- round trip of replies ----

  /** A reply as the server writes it. */
  function Wire(value: RedisValue): Bytes
    decreases value, 0
  {
    match value
    case Nil => [DOLLAR] + DecimalInt(-1) + Crlf()
    case Status(text) => [PLUS] + text + Crlf()
    case Int(number) => [COLON] + DecimalInt(number) + Crlf()
    case Bulk(bytes) => EncodeBulk(bytes)
    case Array(items) => [STAR] + Decimal(|items|) + Crlf() + Wires(items)
  }

  function Wires(items: seq<RedisValue>): Bytes {
    if items == [] then [] else Wire(items[0]) + Wires(items[1..])
  }

  /** Status lines are single lines. */
  predicate OneLiners(value: RedisValue) {
    match value
    case Status(text) => OneLine(text)
    case Array(items) => forall i | 0 <= i < |items| :: OneLiners(items[i])
    case _ => true
  }

  /** The value is within the decoder's limits: nesting, lines, integers, bulk sizes and array lengths. */
  predicate ReplyFits(value: RedisValue, depth: nat) {
    && depth < MAX_RESP_DEPTH
    && match value
       case Nil => true
       case Status(text) => |text| + 2 <= MAX_RESP_LINE_BYTES && IsUtf8(text)
       case Int(number) => -I64_MAX - 1 <= number <= I64_MAX
       case Bulk(bytes) => |bytes| <= MAX_RESP_BULK_BYTES
       case Array(items) =>
         |items| <= MAX_RESP_ARRAY_LEN && forall i | 0 <= i < |items| :: ReplyFits(items[i], depth + 1)
  }

  lemma Pow10Of19()
    ensures Pow10(19) == 10_000_000_000_000_000_000
  {
    assert Pow10(3) == 1000;
    assert Pow10(6) == 1_000_000;
    assert Pow10(9) == 1_000_000_000;
    assert Pow10(12) == 1_000_000_000_000;
    assert Pow10(15) == 1_000_000_000_000_000;
    assert Pow10(18) == 1_000_000_000_000_000_000;
  }

  /** An integer line reads back exactly if 64 bits hold it. */
  lemma NumberRoundTrip(n: int, rest: Bytes)
    ensures DecodesIff(ReadNumber(DecimalInt(n) + Crlf() + rest), -I64_MAX - 1 <= n <= I64_MAX, n, rest)
  {
    var text := DecimalInt(n);
    var magnitude: nat := if n < 0 then -n else n;
    DecimalParses(magnitude);
    AsciiIsUtf8(text);
    LineRoundTrip(text, rest, MAX_RESP_LINE_BYTES);
    ParsePrinted(n);
    if -I64_MAX - 1 <= n <= I64_MAX {
      Pow10Of19();
      DecimalLength(magnitude, 19);
    }
    hide ParseI64, Decimal, IsUtf8;
  }

  lemma StatusLine(text: Bytes, tail: Bytes)
    requires OneLine(text)
    ensures DecodesIff(ReadLine(text + Crlf() + tail), |text| + 2 <= MAX_RESP_LINE_BYTES && IsUtf8(text), text, tail)
  {
    hide IsUtf8;
    LineRoundTrip(text, tail, MAX_RESP_LINE_BYTES);
  }

  lemma ScalarRoundTrip(value: RedisValue, tail: Bytes, depth: nat)
    requires !value.Array? && OneLiners(value) && depth < MAX_RESP_DEPTH
    ensures DecodesIff(Decode(Wire(value) + tail, depth), ReplyFits(value, depth), value, tail)
  {
    hide Decimal, ReadNumber, ReadLine, IsUtf8;
    var input := Wire(value) + tail;
    match value
    case Nil =>
      assert input[1..] == DecimalInt(-1) + Crlf() + tail;
      NumberRoundTrip(-1, tail);
    case Status(text) =>
      assert input[1..] == text + Crlf() + tail;
      StatusLine(text, tail);
    case Int(number) =>
      assert input[1..] == DecimalInt(number) + Crlf() + tail;
      NumberRoundTrip(number, tail);
    case Bulk(bytes) => BulkRoundTrip(bytes, tail, depth);
  }

  lemma ArrayRoundTrip(items: seq<RedisValue>, tail: Bytes, depth: nat)
    requires depth < MAX_RESP_DEPTH
    requires DecodesIff(DecodeItems(Wires(items) + tail, |items|, depth + 1),
                        forall i | 0 <= i < |items| :: ReplyFits(items[i], depth + 1), items, tail)
    ensures DecodesIff(Decode(Wire(Array(items)) + tail, depth), ReplyFits(Array(items), depth), Array(items), tail)
  {
    hide Decimal, ReadNumber, DecodeItems, Wires;
    var input := Wire(Array(items)) + tail;
    assert input[1..] == Decimal(|items|) + Crlf() + (Wires(items) + tail);
    LengthRoundTrip(|items|, Wires(items) + tail);
  }

  /**
   * Every reply, however nested, decodes to exactly itself and leaves exactly what followed
   * it, if and only if it is within the decoder's limits.
   */
  lemma {:induction false} ReplyRoundTrip(value: RedisValue, tail: Bytes, depth: nat)
    requires OneLiners(value)
    ensures DecodesIff(Decode(Wire(value) + tail, depth), ReplyFits(value, depth), value, tail)
    decreases value, 0
  {
    if depth < MAX_RESP_DEPTH {
      hide Decode, DecodeItems, Wire, Wires;
      if value.Array? {
        RepliesRoundTrip(value.items, tail, depth + 1);
        ArrayRoundTrip(value.items, tail, depth);
      } else {
        ScalarRoundTrip(value, tail, depth);
      }
    }
  }

  lemma {:induction false} RepliesRoundTrip(items: seq<RedisValue>, tail: Bytes, depth: nat)
    requires forall i | 0 <= i < |items| :: OneLiners(items[i])
    ensures DecodesIff(DecodeItems(Wires(items) + tail, |items|, depth),
                       forall i | 0 <= i < |items| :: ReplyFits(items[i], depth), items, tail)
    decreases items, 1
  {
    hide Decode, Wire, ReplyFits;
    if items == [] {
      assert Wires(items) + tail == tail;
    } else {
      var more := Wires(items[1..]) + tail;
      assert Wires(items) + tail == Wire(items[0]) + more;
      ReplyRoundTrip(items[0], more, depth);
      RepliesRoundTrip(items[1..], tail, depth);
      assert forall i | 1 <= i < |items| :: items[i] == items[1..][i - 1];
      assert items == [items[0]] + items[1..];
    }
  }

  /** An error line is the server's error, and a negative array length is nil too. */
  lemma OtherReplies(text: Bytes, tail: Bytes, depth: nat)
    requires OneLine(text) && depth < MAX_RESP_DEPTH
    ensures |text| + 2 <= MAX_RESP_LINE_BYTES && IsUtf8(text) ==>
      Decode([MINUS] + text + Crlf() + tail, depth) == Err(Server(text))
    ensures Decode([MINUS] + text + Crlf() + tail, depth).Err?
    ensures Decode([STAR] + DecimalInt(-1) + Crlf() + tail, depth) == Ok(Decoded(Nil, tail))
  {
    hide IsUtf8, ReadLine, ReadNumber, Decimal;
    StatusLine(text, tail);
    assert ([MINUS] + text + Crlf() + tail)[1..] == text + Crlf() + tail;
    NumberRoundTrip(-1, tail);
    assert ([STAR] + DecimalInt(-1) + Crlf() + tail)[1..] == DecimalInt(-1) + Crlf() + tail;
  }

  /** Why a reply is refused before its contents are read. */
  lemma RefusedReplies(input: Bytes, depth: nat)
    ensures depth >= MAX_RESP_DEPTH ==> Decode(input, depth) == Err(TooDeep)
    ensures depth < MAX_RESP_DEPTH && input == [] ==> Decode(input, depth) == Err(UnexpectedEnd)
    ensures depth < MAX_RESP_DEPTH && input != [] && input[0] !in {PLUS, MINUS, COLON, DOLLAR, STAR} ==>
      Decode(input, depth) == Err(UnknownPrefix)
  {
  }

  /** Why a number, a bulk length or an array length is refused. */
  lemma RefusedNumbers(text: Bytes, tail: Bytes, depth: nat)
    requires OneLine(text) && |text| + 2 <= MAX_RESP_LINE_BYTES && IsUtf8(text) && depth < MAX_RESP_DEPTH
    ensures ParseI64(text).None? ==>
      forall prefix | prefix in {COLON, DOLLAR, STAR} ::
        Decode([prefix] + text + Crlf() + tail, depth) == Err(BadNumber)
    ensures ParseI64(text).Some? && ParseI64(text).value > MAX_RESP_BULK_BYTES ==>
      Decode([DOLLAR] + text + Crlf() + tail, depth) == Err(BulkTooLong)
    ensures ParseI64(text).Some? && ParseI64(text).value > MAX_RESP_ARRAY_LEN ==>
      Decode([STAR] + text + Crlf() + tail, depth) == Err(ArrayTooLong)
  {
    hide IsUtf8, ReadLine, ParseI64;
    StatusLine(text, tail);
    forall prefix: byte ensures ([prefix] + text + Crlf() + tail)[1..] == text + Crlf() + tail {
    }
  }

  lemma {:induction false} NoLineEnd(text: Bytes, limit: nat)
    requires OneLine(text)
    ensures LineEnd(text, limit) == if |text| < limit then |text| else limit
  {
    if text != [] && limit > 0 {
      NoLineEnd(text[1..], limit - 1);
    }
  }

  lemma UnendedLine(text: Bytes, max: nat)
    requires OneLine(text)
    ensures ReadLineWithin(text, max) == Err(if |text| > max then LineTooLong else LineWithoutCrlf)
  {
    hide IsUtf8;
    NoLineEnd(text, max + 1);
  }

  /** A line that is too long, not UTF-8 or cut off is refused as such, whatever kind of reply it opens. */
  lemma RefusedLines(text: Bytes, tail: Bytes, prefix: byte, depth: nat)
    requires OneLine(text) && depth < MAX_RESP_DEPTH && prefix in {PLUS, MINUS, COLON, DOLLAR, STAR}
    ensures |text| + 2 > MAX_RESP_LINE_BYTES ==> Decode([prefix] + text + Crlf() + tail, depth) == Err(LineTooLong)
    ensures |text| + 2 <= MAX_RESP_LINE_BYTES && !IsUtf8(text) ==>
      Decode([prefix] + text + Crlf() + tail, depth) == Err(LineNotUtf8)
    ensures Decode([prefix] + text, depth) ==
            Err(if |text| > MAX_RESP_LINE_BYTES then LineTooLong else LineWithoutCrlf)
  {
    hide IsUtf8, ParseI64, ReadLineWithin, OneLine;
    LineRoundTrip(text, tail, MAX_RESP_LINE_BYTES);
    UnendedLine(text, MAX_RESP_LINE_BYTES);
    assert ([prefix] + text + Crlf() + tail)[1..] == text + Crlf() + tail;
    assert ([prefix] + text)[1..] == text;
  }
}
