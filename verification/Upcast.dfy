/**
 * Upcaster chains: a registry of schema-version hops per event type, and the loop that
 * follows them from a stored version to the newest one. Registries are arbitrary: hops may
 * skip versions, go backwards, form cycles, or lead nowhere.
 */
module Upcast {
  import opened Common

  type u32 = n: nat | n <= 0xFFFF_FFFF

  datatype Upcaster<!P> = Upcaster(source: u32, target: u32, convert: P -> Result<P, string>)

  /** The hops of one event type, by source version. */
  type Versions<!P> = map<u32, Upcaster<P>>

  datatype UpcastError =
    | DoesNotAdvance(source: u32, target: u32)
    | ConversionFailed(message: string)
    | NoPath(reached: u32, registered: u32)

  datatype Upgraded<+P> = Upgraded(version: u32, payload: P)

  // ---- the chain ----

  /** Follows the hops from `version`; every hop must advance, which also bounds the chain. */
  function Follow<P>(versions: Versions<P>, version: u32, payload: P): Result<Upgraded<P>, UpcastError>
    decreases 0xFFFF_FFFF - version
  {
    if version !in versions then Ok(Upgraded(version, payload)) else
      var hop := versions[version];
      if hop.target <= version then Err(DoesNotAdvance(version, hop.target))
      else
        match hop.convert(payload)
        case Err(message) => Err(ConversionFailed(message))
        case Ok(converted) => Follow(versions, hop.target, converted)
  }

  /** `m` is the highest target version of any hop. */
  ghost predicate IsHighest<P>(versions: Versions<P>, m: u32) {
    && (exists s | s in versions :: versions[s].target == m)
    && (forall s | s in versions :: versions[s].target <= m)
  }

  lemma HighestIsUnique<P>(versions: Versions<P>, a: u32, b: u32)
    requires IsHighest(versions, a) && IsHighest(versions, b)
    ensures a == b
  {
  }

  lemma {:induction false} HighestExists<P>(versions: Versions<P>)
    requires versions != map[]
    ensures exists m: u32 :: IsHighest(versions, m)
    decreases |versions|
  {
    var s :| s in versions;
    var rest := versions - {s};
    if rest == map[] {
      assert forall t | t in versions :: t == s by {
        forall t | t in versions ensures t == s { assert t != s ==> t in rest; }
      }
      assert IsHighest(versions, versions[s].target);
    } else {
      assert |rest| < |versions| by { assert rest.Keys == versions.Keys - {s}; }
      HighestExists(rest);
      var m: u32 :| IsHighest(rest, m);
      var t :| t in rest && rest[t].target == m;
      var higher: u32 := if versions[s].target > m then versions[s].target else m;
      assert versions[t].target == m;
      assert IsHighest(versions, higher) by {
        forall u | u in versions ensures versions[u].target <= higher {
          if u != s { assert u in rest; }
        }
      }
    }
  }

  /** The highest registered target. */
  ghost function Highest<P>(versions: Versions<P>): (m: u32)
    requires versions != map[]
    ensures IsHighest(versions, m)
  {
    HighestExists(versions);
    var m: u32 :| IsHighest(versions, m);
    m
  }

  // ---- paths ----

  /** A chain of advancing hops from the first version to the last. */
  ghost predicate IsPath<P>(versions: Versions<P>, path: seq<u32>) {
    && path != []
    && (forall i | 0 <= i < |path| - 1 ::
          path[i] in versions && path[i + 1] == versions[path[i]].target && path[i + 1] > path[i])
  }

  /** A path that cannot be continued. */
  ghost predicate IsFullPath<P>(versions: Versions<P>, path: seq<u32>) {
    IsPath(versions, path) && path[|path| - 1] !in versions
  }

  lemma TailIsPath<P>(versions: Versions<P>, path: seq<u32>)
    requires IsPath(versions, path) && |path| > 1
    ensures IsPath(versions, path[1..])
  {
    var tail := path[1..];
    forall i | 0 <= i < |tail| - 1
      ensures tail[i] in versions && tail[i + 1] == versions[tail[i]].target && tail[i + 1] > tail[i]
    {
      assert tail[i] == path[i + 1] && tail[i + 1] == path[i + 2];
    }
  }

  /** The composition of the conversions along a path. */
  ghost function Compose<P>(versions: Versions<P>, path: seq<u32>, payload: P): Result<P, string>
    requires IsPath(versions, path)
  {
    if |path| == 1 then Ok(payload) else
      match versions[path[0]].convert(payload)
      case Err(message) => Err(message)
      case Ok(converted) =>
        assert IsPath(versions, path[1..]) by { TailIsPath(versions, path); }
        Compose(versions, path[1..], converted)
  }

  lemma PathPush<P>(versions: Versions<P>, version: u32, tail: seq<u32>)
    requires IsPath(versions, tail) && version in versions
    requires versions[version].target == tail[0] && tail[0] > version
    ensures IsPath(versions, [version] + tail)
  {
    var path := [version] + tail;
    forall i | 0 <= i < |path| - 1
      ensures path[i] in versions && path[i + 1] == versions[path[i]].target && path[i + 1] > path[i]
    {
      if i > 0 { assert path[i] == tail[i - 1] && path[i + 1] == tail[i]; }
    }
  }

  /** From one version there is at most one full path. */
  lemma {:induction false} PathIsUnique<P>(versions: Versions<P>, a: seq<u32>, b: seq<u32>)
    requires IsFullPath(versions, a) && IsFullPath(versions, b) && a[0] == b[0]
    ensures a == b
    decreases |a|
  {
    if |a| == 1 {
      assert |b| == 1;
    } else {
      assert a[0] in versions;
      assert |b| > 1;
      TailIsPath(versions, a);
      TailIsPath(versions, b);
      assert a[1..][|a| - 2] == a[|a| - 1] && b[1..][|b| - 2] == b[|b| - 1];
      assert a[1..][0] == a[1] && b[1..][0] == b[1];
      PathIsUnique(versions, a[1..], b[1..]);
      assert a == [a[0]] + a[1..] && b == [b[0]] + b[1..];
    }
  }

  /** A successful chain followed the full path from its version and composed its conversions. */
  lemma {:induction false} FollowedPath<P>(versions: Versions<P>, version: u32, payload: P) returns (path: seq<u32>)
    requires Follow(versions, version, payload).Ok?
    ensures IsFullPath(versions, path) && path[0] == version
    ensures Follow(versions, version, payload).value.version == path[|path| - 1]
    ensures Compose(versions, path, payload) == Ok(Follow(versions, version, payload).value.payload)
    decreases 0xFFFF_FFFF - version
  {
    if version !in versions {
      path := [version];
    } else {
      var hop := versions[version];
      var tail := FollowedPath(versions, hop.target, hop.convert(payload).value);
      PathPush(versions, version, tail);
      path := [version] + tail;
      assert path[1..] == tail;
    }
  }

  /** A full path whose conversions all succeed is followed to its end. */
  lemma {:induction false} PathIsFollowed<P>(versions: Versions<P>, path: seq<u32>, payload: P)
    requires IsFullPath(versions, path) && Compose(versions, path, payload).Ok?
    ensures Follow(versions, path[0], payload) ==
            Ok(Upgraded(path[|path| - 1], Compose(versions, path, payload).value))
    decreases |path|
  {
    if |path| > 1 {
      assert path[0] in versions && path[1] == versions[path[0]].target && path[1] > path[0];
      TailIsPath(versions, path);
      assert path[1..][|path| - 2] == path[|path| - 1];
      PathIsFollowed(versions, path[1..], versions[path[0]].convert(payload).value);
    }
  }

  /** Versions along a path ascend, and past the first they are targets of hops. */
  lemma {:induction false} PathEnd<P>(versions: Versions<P>, path: seq<u32>, m: u32)
    requires IsPath(versions, path) && (forall s | s in versions :: versions[s].target <= m)
    ensures path[0] <= path[|path| - 1]
    ensures |path| > 1 ==> path[|path| - 1] <= m
    decreases |path|
  {
    if |path| > 1 {
      TailIsPath(versions, path);
      assert path[1..][|path| - 2] == path[|path| - 1] && path[1..][0] == path[1];
      assert path[0] in versions && path[1] == versions[path[0]].target;
      PathEnd(versions, path[1..], m);
    }
  }

  // ---- the registry ----

  /** What upcasting one event type comes to, given the highest registered target. */
  function UpcastWith<P>(versions: Versions<P>, highest: u32, version: u32, payload: P)
    : Result<Upgraded<P>, UpcastError>
  {
    match Follow(versions, version, payload)
    case Err(error) => Err(error)
    case Ok(done) => if done.version < highest then Err(NoPath(done.version, highest)) else Ok(done)
  }

  /** What upcasting comes to with these registered hops; an unregistered type passes through. */
  ghost function Upcasted<P>(
    upcasters: map<string, Versions<P>>, eventType: string, version: u32, payload: P)
    : Result<Upgraded<P>, UpcastError>
  {
    if eventType !in upcasters || upcasters[eventType] == map[] then Ok(Upgraded(version, payload))
    else UpcastWith(upcasters[eventType], Highest(upcasters[eventType]), version, payload)
  }

  method HighestTarget<P>(versions: Versions<P>) returns (highest: u32)
    requires versions != map[]
    ensures IsHighest(versions, highest)
  {
    var first :| first in versions;
    highest := versions[first].target;
    var remaining := versions.Keys - {first};
    while remaining != {}
      invariant remaining <= versions.Keys
      invariant exists s | s in versions :: versions[s].target == highest
      invariant forall s | s in versions && s !in remaining :: versions[s].target <= highest
      decreases |remaining|
    {
      var s :| s in remaining;
      remaining := remaining - {s};
      if versions[s].target > highest {
        highest := versions[s].target;
      }
    }
  }

  class UpcasterRegistry<P> {
    var upcasters: map<string, Versions<P>>

    ghost predicate Valid()
      reads this
    {
      forall t | t in upcasters ::
        upcasters[t] != map[] && (forall s | s in upcasters[t] :: upcasters[t][s].source == s)
    }

    constructor ()
      ensures Valid() && upcasters == map[]
    {
      upcasters := map[];
    }

    predicate IsEmpty()
      reads this
    {
      upcasters == map[]
    }

    predicate HasUpcasters(eventType: string)
      reads this
    {
      eventType in upcasters
    }

    /** One hop per source version; a second one is refused and changes nothing. */
    method Register(eventType: string, upcaster: Upcaster<P>) returns (accepted: bool)
      requires Valid()
      modifies this
      ensures Valid()
      ensures accepted <==> !(eventType in old(upcasters) && upcaster.source in old(upcasters)[eventType])
      ensures !accepted ==> upcasters == old(upcasters)
      ensures accepted ==>
        && upcasters.Keys == old(upcasters).Keys + {eventType}
        && (forall t | t in old(upcasters) && t != eventType :: upcasters[t] == old(upcasters)[t])
        && upcasters[eventType] ==
             (if eventType in old(upcasters) then old(upcasters)[eventType] else map[])[upcaster.source := upcaster]
    {
      var versions: Versions<P> := if eventType in upcasters then upcasters[eventType] else map[];
      if upcaster.source in versions {
        return false;
      }
      assert upcaster.source in versions[upcaster.source := upcaster];
      upcasters := upcasters[eventType := versions[upcaster.source := upcaster]];
      accepted := true;
    }

    /**
     * Follows the chain of an event type; always terminates. An unregistered type passes
     * through, a registered one must arrive at or past its highest target.
     */
    method UpcastPayload(eventType: string, version: u32, payload: P)
      returns (result: Result<Upgraded<P>, UpcastError>)
      requires Valid()
      ensures result == Upcasted(upcasters, eventType, version, payload)
      ensures eventType !in upcasters ==> result == Ok(Upgraded(version, payload))
      ensures eventType in upcasters ==>
        result == UpcastWith(upcasters[eventType], Highest(upcasters[eventType]), version, payload)
    {
      if eventType !in upcasters {
        return Ok(Upgraded(version, payload));
      }
      var versions := upcasters[eventType];
      var highest := HighestTarget(versions);
      HighestIsUnique(versions, highest, Highest(versions));
      var current, bytes := version, payload;
      while current in versions
        invariant Follow(versions, version, payload) == Follow(versions, current, bytes)
        decreases 0xFFFF_FFFF - current
      {
        var hop := versions[current];
        if hop.target <= current {
          return Err(DoesNotAdvance(current, hop.target));
        }
        var converted := hop.convert(bytes);
        if converted.Err? {
          return Err(ConversionFailed(converted.error));
        }
        bytes, current := converted.value, hop.target;
      }
      if current < highest {
        return Err(NoPath(current, highest));
      }
      result := Ok(Upgraded(current, bytes));
    }

    /** Agrees with `UpcastPayload`, which it only calls when there is something to do. */
    method PreparePayload(eventType: string, version: u32, payload: P)
      returns (result: Result<Upgraded<P>, UpcastError>)
      requires Valid()
      ensures result == Upcasted(upcasters, eventType, version, payload)
      ensures eventType !in upcasters ==> result == Ok(Upgraded(version, payload))
    {
      if IsEmpty() || !HasUpcasters(eventType) {
        return Ok(Upgraded(version, payload));
      }
      result := UpcastPayload(eventType, version, payload);
    }
  }

  // ---- main results ----

  /**
   * Upcasting succeeds exactly if a full path leads from the stored version to or past the
   * highest target and every conversion on it succeeds; the result is then the highest
   * target (or the stored version, if that is newer) with the composed payload.
   */
  lemma UpcastIsComposition<P>(versions: Versions<P>, m: u32, version: u32, payload: P, result: Upgraded<P>)
    requires IsHighest(versions, m)
    ensures UpcastWith(versions, m, version, payload) == Ok(result) <==>
            exists path ::
              && IsFullPath(versions, path) && path[0] == version && path[|path| - 1] >= m
              && Compose(versions, path, payload) == Ok(result.payload) && result.version == path[|path| - 1]
    ensures UpcastWith(versions, m, version, payload) == Ok(result) ==>
            result.version == (if version > m then version else m)
  {
    if UpcastWith(versions, m, version, payload) == Ok(result) {
      var path := FollowedPath(versions, version, payload);
      PathEnd(versions, path, m);
    }
    forall path | IsFullPath(versions, path) && path[0] == version && path[|path| - 1] >= m
        && Compose(versions, path, payload) == Ok(result.payload) && result.version == path[|path| - 1]
      ensures UpcastWith(versions, m, version, payload) == Ok(result)
    {
      PathIsFollowed(versions, path, payload);
    }
  }

  /** The chain cannot go on behind `path`, for this reason. */
  ghost predicate StopsBehind<P>(versions: Versions<P>, m: u32, path: seq<u32>, payload: P, error: UpcastError)
    requires IsPath(versions, path)
  {
    var at, reached := path[|path| - 1], Compose(versions, path, payload);
    && reached.Ok?
    && match error
       case DoesNotAdvance(source, target) =>
         at == source && source in versions && versions[source].target == target <= source
       case ConversionFailed(message) =>
         at in versions && versions[at].target > at && versions[at].convert(reached.value) == Err(message)
       case NoPath(end, registered) => at == end && end !in versions && end < registered == m
  }

  lemma {:induction false} FailedPath<P>(versions: Versions<P>, m: u32, version: u32, payload: P)
    returns (path: seq<u32>)
    requires Follow(versions, version, payload).Err?
    ensures IsPath(versions, path) && path[0] == version
    ensures StopsBehind(versions, m, path, payload, Follow(versions, version, payload).error)
    decreases 0xFFFF_FFFF - version
  {
    var hop := versions[version];
    if hop.target <= version || hop.convert(payload).Err? {
      path := [version];
    } else {
      var tail := FailedPath(versions, m, hop.target, hop.convert(payload).value);
      PathPush(versions, version, tail);
      path := [version] + tail;
      assert path[1..] == tail;
    }
  }

  /**
   * A failure names where the chain stops: behind the hops that did convert, at one that
   * does not advance, at one whose conversion fails, or at an end below the highest target.
   */
  lemma UpcastFailsWhereItStops<P>(versions: Versions<P>, m: u32, version: u32, payload: P)
    requires UpcastWith(versions, m, version, payload).Err?
    ensures exists path ::
      && IsPath(versions, path) && path[0] == version
      && StopsBehind(versions, m, path, payload, UpcastWith(versions, m, version, payload).error)
  {
    if Follow(versions, version, payload).Err? {
      var path := FailedPath(versions, m, version, payload);
    } else {
      var path := FollowedPath(versions, version, payload);
      assert StopsBehind(versions, m, path, payload, UpcastWith(versions, m, version, payload).error);
    }
  }

  /** Upcasting a result again changes nothing. */
  lemma UpcastTwice<P>(versions: Versions<P>, m: u32, version: u32, payload: P)
    requires UpcastWith(versions, m, version, payload).Ok?
    ensures var result := UpcastWith(versions, m, version, payload).value;
            UpcastWith(versions, m, result.version, result.payload) == Ok(result)
  {
    var path := FollowedPath(versions, version, payload);
  }
}
