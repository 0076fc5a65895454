/**
 * Lease-based idempotent execution: executors poll a key, reserve it under a lease, run
 * the command against the event store, then save the result or release the key. Nothing
 * fences an executor whose lease ran out, so duplicates are possible; this module bounds
 * them exactly.
 */
module LeaseIdempotency {
  import opened Common

  const SAVE_MAX_ATTEMPTS: nat := 3
  const RELEASE_MAX_ATTEMPTS: nat := 3
  const DEFAULT_LEASE_MS: nat := 60_000

  datatype Lease = Lease(owner: string, expiresAtMs: nat)

  datatype State<+V> = Pending(lease: Lease) | Complete(value: V)

  datatype Entry<+V> = Entry(state: State<V>, updatedAtMs: nat)

  predicate IsExpired(lease: Lease, nowMs: nat) {
    nowMs >= lease.expiresAtMs
  }

  /** What `reserve` does to one key: the new entry, and whether the key was granted. */
  function ReserveEntry<V>(entry: Option<Entry<V>>, nowMs: nat, lease: Lease): (Option<Entry<V>>, bool) {
    match entry
    case None => (Some(Entry(Pending(lease), nowMs)), true)
    case Some(Entry(Pending(held), _)) =>
      if IsExpired(held, nowMs) then (Some(Entry(Pending(lease), nowMs)), true) else (entry, false)
    case Some(Entry(Complete(_), _)) => (entry, false)
  }

  predicate IsExpiredPending<V>(entry: Entry<V>, nowMs: nat) {
    entry.state.Pending? && IsExpired(entry.state.lease, nowMs)
  }

  predicate IsStaleComplete<V>(entry: Entry<V>, cutoffMs: nat) {
    entry.state.Complete? && entry.updatedAtMs < cutoffMs
  }

  /** The in-memory store; every operation touches only the entries it is about. */
  class InMemoryIdempotencyStore<V> {
    var entries: map<string, Entry<V>>

    constructor ()
      ensures entries == map[]
    {
      entries := map[];
    }

    function Find(key: string): Option<Entry<V>>
      reads this
    {
      if key in entries then Some(entries[key]) else None
    }

    function Load(key: string): (r: Option<State<V>>)
      reads this
      ensures r == match Find(key) case Some(entry) => Some(entry.state) case None => None
    {
      if key in entries then Some(entries[key].state) else None
    }

    method ReserveWithLease(key: string, nowMs: nat, lease: Lease) returns (granted: bool)
      modifies this
      ensures (Find(key), granted) == ReserveEntry(old(Find(key)), nowMs, lease)
      ensures granted <==>
        match old(Find(key))
        case None => true
        case Some(Entry(Pending(held), _)) => held.expiresAtMs <= nowMs
        case Some(Entry(Complete(_), _)) => false
      ensures Find(key) == if granted then Some(Entry(Pending(lease), nowMs)) else old(Find(key))
      ensures forall other | other != key :: Find(other) == old(Find(other))
    {
      if key in entries {
        match entries[key].state {
          case Pending(held) =>
            if IsExpired(held, nowMs) {
              entries := entries[key := Entry(Pending(lease), nowMs)];
              return true;
            }
            return false;
          case Complete(_) => return false;
        }
      }
      entries := entries[key := Entry(Pending(lease), nowMs)];
      granted := true;
    }

    /** Only the owner of a pending entry extends it; the owner itself never changes. */
    method Heartbeat(key: string, owner: string, nowMs: nat) returns (extended: bool)
      modifies this
      ensures extended <==>
        && old(Load(key)).Some? && old(Load(key)).value.Pending?
        && old(Load(key)).value.lease.owner == owner
      ensures Find(key) == if extended
        then Some(Entry(Pending(Lease(owner, nowMs + DEFAULT_LEASE_MS)), nowMs)) else old(Find(key))
      ensures forall other | other != key :: Find(other) == old(Find(other))
    {
      if key !in entries { return false; }
      match entries[key].state {
        case Complete(_) => return false;
        case Pending(lease) =>
          if lease.owner != owner { return false; }
          entries := entries[key := Entry(Pending(Lease(lease.owner, nowMs + DEFAULT_LEASE_MS)), nowMs)];
          extended := true;
      }
    }

    method Save(key: string, value: V, nowMs: nat)
      modifies this
      ensures Find(key) == Some(Entry(Complete(value), nowMs))
      ensures forall other | other != key :: Find(other) == old(Find(other))
    {
      entries := entries[key := Entry(Complete(value), nowMs)];
    }

    method Remove(key: string)
      modifies this
      ensures Find(key) == None
      ensures forall other | other != key :: Find(other) == old(Find(other))
    {
      entries := entries - {key};
    }

    /** Drops exactly the expired pending entries and counts them. */
    method ExpireStalePending(nowMs: nat) returns (removed: nat)
      modifies this
      ensures removed == |set k | k in old(entries) && IsExpiredPending(old(entries)[k], nowMs)|
      ensures forall k ::
        Find(k) ==
        match old(Find(k))
        case Some(Entry(Pending(held), _)) => if held.expiresAtMs <= nowMs then None else old(Find(k))
        case other => other
      ensures removed == |old(entries)| - |entries|
    {
      var before := entries;
      var dropped := set k | k in before && IsExpiredPending(before[k], nowMs);
      entries := map k | k in before && !IsExpiredPending(before[k], nowMs) :: before[k];
      assert entries.Keys == before.Keys - dropped;
      removed := |before| - |entries|;
    }

    /** Drops exactly the completed entries last updated before the cutoff. */
    method ExpireCompletedBefore(cutoffMs: nat) returns (removed: nat)
      modifies this
      ensures removed == |set k | k in old(entries) && IsStaleComplete(old(entries)[k], cutoffMs)|
      ensures forall k ::
        Find(k) ==
        match old(Find(k))
        case Some(Entry(Complete(_), updatedAtMs)) => if updatedAtMs < cutoffMs then None else old(Find(k))
        case other => other
      ensures removed == |old(entries)| - |entries|
    {
      var before := entries;
      var dropped := set k | k in before && IsStaleComplete(before[k], cutoffMs);
      entries := map k | k in before && !IsStaleComplete(before[k], cutoffMs) :: before[k];
      assert entries.Keys == before.Keys - dropped;
      removed := |before| - |entries|;
    }
  }

  /**
   * A key is granted exactly if it is free or its lease has run out, to the millisecond; a
   * grant starts the new lease, and anything else leaves the entry alone.
   */
  lemma ReserveMeaning<V>(entry: Option<Entry<V>>, nowMs: nat, lease: Lease)
    ensures var (entry', granted) := ReserveEntry(entry, nowMs, lease);
      && (granted <==>
            entry.None? || (entry.value.state.Pending? && entry.value.state.lease.expiresAtMs <= nowMs))
      && entry' == if granted then Some(Entry(Pending(lease), nowMs)) else entry
  {
  }

  /** What one attempt at a store operation does: whether it took effect, and what it reports. */
  datatype Attempt = Attempt(effect: bool, ok: bool)

  /** Some attempt within the retry budget took effect (and, if `reported`, said so). */
  predicate SomeAttempt(attempts: nat -> Attempt, limit: nat, reported: bool) {
    exists i | 1 <= i <= limit :: attempts(i).effect && (reported ==> attempts(i).ok)
  }

  method SaveWithRetry<V>(
    store: InMemoryIdempotencyStore<V>, key: string, value: V, nowMs: nat, attempts: nat -> Attempt)
    returns (saved: bool)
    modifies store
    ensures saved <==> SomeAttempt(attempts, SAVE_MAX_ATTEMPTS, true)
    ensures store.Find(key) == if SomeAttempt(attempts, SAVE_MAX_ATTEMPTS, false)
      then Some(Entry(Complete(value), nowMs)) else old(store.Find(key))
    ensures forall other | other != key :: store.Find(other) == old(store.Find(other))
  {
    for i := 1 to SAVE_MAX_ATTEMPTS + 1
      invariant !SomeAttempt(attempts, i - 1, true)
      invariant store.Find(key) == if SomeAttempt(attempts, i - 1, false)
        then Some(Entry(Complete(value), nowMs)) else old(store.Find(key))
      invariant forall other | other != key :: store.Find(other) == old(store.Find(other))
    {
      if attempts(i).effect {
        store.Save(key, value, nowMs);
        if attempts(i).ok { return true; }
      }
    }
    saved := false;
  }

  method ReleaseWithRetry<V>(store: InMemoryIdempotencyStore<V>, key: string, attempts: nat -> Attempt)
    returns (released: bool)
    modifies store
    ensures released <==> SomeAttempt(attempts, RELEASE_MAX_ATTEMPTS, true)
    ensures store.Find(key) == if SomeAttempt(attempts, RELEASE_MAX_ATTEMPTS, false) then None else old(store.Find(key))
    ensures forall other | other != key :: store.Find(other) == old(store.Find(other))
  {
    for i := 1 to RELEASE_MAX_ATTEMPTS + 1
      invariant !SomeAttempt(attempts, i - 1, true)
      invariant store.Find(key) == if SomeAttempt(attempts, i - 1, false) then None else old(store.Find(key))
      invariant forall other | other != key :: store.Find(other) == old(store.Find(other))
    {
      if attempts(i).effect {
        store.Remove(key);
        if attempts(i).ok { return true; }
      }
    }
    released := false;
  }

  // ---- the protocol on one key ----

  /** Where one call of the repository's idempotent execute stands. */
  datatype Executor<+V> =
    | Polling
    | Reserving
    | Executing
    | Saving(batch: V, attempt: nat)
    | Releasing(attempt: nat)
    | ReturnedOk(value: V)
    | ReturnedErr

  /**
   * `batches` lists what was committed under the key. The counters record the events that
   * can cost a duplicate: leases reclaimed after expiry, entries removed from outside
   * (purges, expiry sweeps, administrators), removals that took effect although they
   * reported failure, and appends that committed although they reported failure.
   */
  datatype World<V> = World(
    entry: Option<Entry<V>>,
    executors: seq<Executor<V>>,
    batches: seq<V>,
    reclaims: nat,
    outside: nat,
    hiddenRemovals: nat,
    hiddenCommits: nat)

  datatype Action<+V> =
    | Arrive
    | Poll(executor: nat, nowMs: nat)
    | GiveUp(executor: nat)
    | Reserve(executor: nat, nowMs: nat, owner: string)
    | ReserveFails(executor: nat)
    | AppendOk(executor: nat, batch: V)
    | AppendFails(executor: nat)
    | AppendHidden(executor: nat, batch: V)
    | SaveResult(executor: nat, effect: bool, ok: bool, nowMs: nat)
    | RemoveKey(executor: nat, effect: bool, ok: bool)
    | Crash(executor: nat)
    | Heartbeat(owner: string, nowMs: nat)
    | RemoveFromOutside

  function Goes<V>(w: World<V>, x: nat, to: Executor<V>): World<V>
    requires x < |w.executors|
  {
    w.(executors := w.executors[x := to])
  }

  /** The executor asks for the key under a lease of the default length. */
  function ReserveStep<V>(w: World<V>, x: nat, nowMs: nat, owner: string): World<V>
    requires x < |w.executors|
  {
    var (entry, granted) := ReserveEntry(w.entry, nowMs, Lease(owner, nowMs + DEFAULT_LEASE_MS));
    if granted
    then Goes(w, x, Executing).(entry := entry, reclaims := w.reclaims + if w.entry.Some? then 1 else 0)
    else Goes(w, x, Polling)
  }

  /** One save attempt; it reports success only if it took effect. */
  function SaveStep<V>(w: World<V>, x: nat, effect: bool, ok: bool, nowMs: nat): World<V>
    requires x < |w.executors| && w.executors[x].Saving?
  {
    var s := w.executors[x];
    var next := if ok && effect then ReturnedOk(s.batch)
      else if s.attempt < SAVE_MAX_ATTEMPTS then Saving(s.batch, s.attempt + 1) else ReturnedErr;
    Goes(w, x, next).(entry := if effect then Some(Entry(Complete(s.batch), nowMs)) else w.entry)
  }

  /** One release attempt; it reports success only if it took effect. */
  function RemoveStep<V>(w: World<V>, x: nat, effect: bool, ok: bool): World<V>
    requires x < |w.executors| && w.executors[x].Releasing?
  {
    var s := w.executors[x];
    var done := (ok && effect) || s.attempt >= RELEASE_MAX_ATTEMPTS;
    Goes(w, x, if done then ReturnedErr else Releasing(s.attempt + 1)).(
      entry := if effect then None else w.entry,
      hiddenRemovals := w.hiddenRemovals + if effect && !ok then 1 else 0)
  }

  function Step<V>(w: World<V>, a: Action<V>): World<V> {
    match a
    case Arrive => w.(executors := w.executors + [Polling])
    case Poll(x, nowMs) =>
      if x >= |w.executors| || !w.executors[x].Polling? then w
      else (match w.entry
            case Some(Entry(Complete(value), _)) => Goes(w, x, ReturnedOk(value))
            case Some(Entry(Pending(lease), _)) => if IsExpired(lease, nowMs) then Goes(w, x, Reserving) else w
            case None => Goes(w, x, Reserving))
    case GiveUp(x) =>
      if x >= |w.executors| || !(w.executors[x].Polling? || w.executors[x].Reserving?) then w
      else Goes(w, x, ReturnedErr)
    case Reserve(x, nowMs, owner) =>
      if x >= |w.executors| || !w.executors[x].Reserving? then w else ReserveStep(w, x, nowMs, owner)
    case ReserveFails(x) =>
      if x >= |w.executors| || !w.executors[x].Reserving? then w else Goes(w, x, ReturnedErr)
    case AppendOk(x, batch) =>
      if x >= |w.executors| || !w.executors[x].Executing? then w
      else Goes(w, x, Saving(batch, 1)).(batches := w.batches + [batch])
    case AppendFails(x) =>
      if x >= |w.executors| || !w.executors[x].Executing? then w else Goes(w, x, Releasing(1))
    case AppendHidden(x, batch) =>
      if x >= |w.executors| || !w.executors[x].Executing? then w
      else Goes(w, x, Releasing(1)).(batches := w.batches + [batch], hiddenCommits := w.hiddenCommits + 1)
    case SaveResult(x, effect, ok, nowMs) =>
      if x >= |w.executors| || !w.executors[x].Saving? then w else SaveStep(w, x, effect, ok, nowMs)
    case RemoveKey(x, effect, ok) =>
      if x >= |w.executors| || !w.executors[x].Releasing? then w else RemoveStep(w, x, effect, ok)
    case Crash(x) =>
      if x >= |w.executors| || w.executors[x].ReturnedOk? then w else Goes(w, x, ReturnedErr)
    case Heartbeat(owner, nowMs) =>
      (match w.entry
       case Some(Entry(Pending(lease), _)) =>
         if lease.owner == owner
         then w.(entry := Some(Entry(Pending(Lease(owner, nowMs + DEFAULT_LEASE_MS)), nowMs))) else w
       case _ => w)
    case RemoveFromOutside =>
      if w.entry.Some? then w.(entry := None, outside := w.outside + 1) else w
  }

  function Start<V>(): World<V> {
    World(None, [], [], 0, 0, 0, 0)
  }

  ghost function Run<V>(actions: seq<Action<V>>): World<V> {
    FoldLeft(Step, Start(), actions)
  }

  // ---- what executors are granted and told ----

  /** The key is taken: completed, or pending under a lease that still runs. */
  ghost predicate IsTaken<V>(w: World<V>, nowMs: nat) {
    w.entry.Some? && (w.entry.value.state.Pending? ==> nowMs < w.entry.value.state.lease.expiresAtMs)
  }

  /**
   * Exclusion: while the key is taken, no poll and no reservation lets an executor run the
   * command or touches the entry; whoever polls a completed key returns its result, and
   * whoever polls a pending one waits.
   */
  lemma TakenKeyIsNotGranted<V>(w: World<V>, x: nat, nowMs: nat, owner: string)
    requires IsTaken(w, nowMs) && x < |w.executors|
    ensures var w' := Step(w, Poll(x, nowMs));
      && w'.entry == w.entry && w'.batches == w.batches && |w'.executors| == |w.executors|
      && (forall y | 0 <= y < |w.executors| && w'.executors[y].Executing? :: w.executors[y].Executing?)
      && (w.executors[x].Polling? ==>
            w'.executors[x] == if w.entry.value.state.Complete? then ReturnedOk(w.entry.value.state.value) else Polling)
    ensures var w' := Step(w, Reserve(x, nowMs, owner));
      && w'.entry == w.entry && w'.batches == w.batches && |w'.executors| == |w.executors|
      && (forall y | 0 <= y < |w.executors| && w'.executors[y].Executing? :: w.executors[y].Executing?)
      && (w.executors[x].Reserving? ==> w'.executors[x] == Polling)
  {
  }

  /** A free key, and one whose lease ran out, is granted to whoever asks first, under a full lease. */
  lemma OpenKeyIsGranted<V>(w: World<V>, x: nat, nowMs: nat, owner: string)
    requires !IsTaken(w, nowMs) && x < |w.executors|
    ensures var w' := Step(w, Poll(x, nowMs));
      w.executors[x].Polling? ==> w'.executors == w.executors[x := Reserving] && w'.entry == w.entry
    ensures var w' := Step(w, Reserve(x, nowMs, owner));
      w.executors[x].Reserving? ==>
        && w'.executors == w.executors[x := Executing]
        && w'.entry == Some(Entry(Pending(Lease(owner, nowMs + 60_000)), nowMs))
        && w'.reclaims == w.reclaims + (if w.entry.None? then 0 else 1)
  {
  }

  /** A commit is followed by up to three saves of its batch; the caller is told Ok exactly if one reports success. */
  lemma SaveMeaning<V>(w: World<V>, x: nat, effect: bool, ok: bool, nowMs: nat)
    requires x < |w.executors| && w.executors[x].Saving?
    ensures var w' := Step(w, SaveResult(x, effect, ok, nowMs)); var Saving(batch, attempt) := w.executors[x];
      && |w'.executors| == |w.executors| && w'.batches == w.batches
      && w'.entry == (if effect then Some(Entry(Complete(batch), nowMs)) else w.entry)
      && (effect && ok ==> w'.executors[x] == ReturnedOk(batch))
      && (!(effect && ok) && attempt < 3 ==> w'.executors[x] == Saving(batch, attempt + 1))
      && (!(effect && ok) && attempt >= 3 ==> w'.executors[x] == ReturnedErr)
  {
  }

  /** A failed command frees its key by up to three releases, and its caller is told of the failure. */
  lemma ReleaseMeaning<V>(w: World<V>, x: nat, effect: bool, ok: bool)
    requires x < |w.executors| && w.executors[x].Releasing?
    ensures var w' := Step(w, RemoveKey(x, effect, ok)); var attempt := w.executors[x].attempt;
      && |w'.executors| == |w.executors| && w'.batches == w.batches
      && w'.entry == (if effect then None else w.entry)
      && w'.hiddenRemovals == w.hiddenRemovals + (if effect && !ok then 1 else 0)
      && (effect && ok ==> w'.executors[x] == ReturnedErr)
      && (!(effect && ok) && attempt < 3 ==> w'.executors[x] == Releasing(attempt + 1))
      && (!(effect && ok) && attempt >= 3 ==> w'.executors[x] == ReturnedErr)
  {
  }

  /** Who holds the key runs the command once: committed and known, failed, or committed but reported failed. */
  lemma ExecuteMeaning<V>(w: World<V>, x: nat, batch: V)
    requires x < |w.executors| && w.executors[x].Executing?
    ensures var w' := Step(w, AppendOk(x, batch));
      w'.batches == w.batches + [batch] && w'.executors == w.executors[x := Saving(batch, 1)] && w'.entry == w.entry
    ensures var w' := Step(w, AppendFails(x));
      w'.batches == w.batches && w'.executors == w.executors[x := Releasing(1)] && w'.entry == w.entry
    ensures var w' := Step(w, AppendHidden(x, batch));
      && w'.batches == w.batches + [batch] && w'.executors == w.executors[x := Releasing(1)] && w'.entry == w.entry
      && w'.hiddenCommits == w.hiddenCommits + 1
  {
  }

  /** Giving up, a failed reservation and a crash end a call with an error and touch nothing else. */
  lemma LeavingMeaning<V>(w: World<V>, x: nat)
    requires x < |w.executors|
    ensures Step(w, GiveUp(x)) ==
            if w.executors[x].Polling? || w.executors[x].Reserving?
            then w.(executors := w.executors[x := ReturnedErr]) else w
    ensures Step(w, ReserveFails(x)) ==
            if w.executors[x].Reserving? then w.(executors := w.executors[x := ReturnedErr]) else w
    ensures Step(w, Crash(x)) ==
            if w.executors[x].ReturnedOk? then w else w.(executors := w.executors[x := ReturnedErr])
  {
  }

  /** A heartbeat extends a pending lease of its owner by the full length, and does nothing else. */
  lemma HeartbeatMeaning<V>(w: World<V>, owner: string, nowMs: nat)
    ensures var w' := Step(w, Heartbeat(owner, nowMs));
      && w' == w.(entry := w'.entry)
      && (if w.entry.Some? && w.entry.value.state.Pending? && w.entry.value.state.lease.owner == owner
          then w'.entry == Some(Entry(Pending(Lease(owner, nowMs + 60_000)), nowMs))
          else w'.entry == w.entry)
  {
  }

  /** Removing the entry from outside frees the key and is counted if there was one. */
  lemma OutsideMeaning<V>(w: World<V>)
    ensures var w' := Step(w, RemoveFromOutside);
      && w'.entry.None? && w'.executors == w.executors && w'.batches == w.batches
      && w'.outside == w.outside + (if w.entry.Some? then 1 else 0)
  {
  }

  /** A call that finds the key open and runs undisturbed, and one that comes after it. */
  function TwoCalls<V>(n: nat, now: nat, later: nat, owner: string, batch: V): seq<Action<V>> {
    [Arrive, Poll(n, now)] + [Reserve(n, now, owner), AppendOk(n, batch)] + [SaveResult(n, true, true, now), Arrive]
    + [Poll(n + 1, later)]
  }

  /** The world after a new executor took the key. */
  function Taken<V>(w: World<V>, now: nat, owner: string): World<V> {
    w.(entry := Some(Entry(Pending(Lease(owner, now + DEFAULT_LEASE_MS)), now)),
       executors := w.executors + [Executing],
       reclaims := w.reclaims + if w.entry.Some? then 1 else 0)
  }

  lemma ThirdStepTakes<V>(w: World<V>, n: nat, now: nat, owner: string)
    requires !IsTaken(w, now) && n == |w.executors|
    ensures Step(Step(Step(w, Arrive), Poll(n, now)), Reserve(n, now, owner)) == Taken(w, now, owner)
  {
    var w1 := Step(w, Arrive);
    var w2 := Step(w1, Poll(n, now));
    assert w2.executors == w.executors + [Reserving];
    assert Step(w2, Reserve(n, now, owner)).executors == w.executors + [Executing];
  }

  /** The holder of the key commits and saves. */
  lemma HolderFinishes<V>(w: World<V>, x: nat, now: nat, batch: V)
    requires x < |w.executors| && w.executors[x].Executing?
    ensures Step(Step(w, AppendOk(x, batch)), SaveResult(x, true, true, now)) ==
            w.(entry := Some(Entry(Complete(batch), now)), executors := w.executors[x := ReturnedOk(batch)],
               batches := w.batches + [batch])
  {
    var committed := Step(w, AppendOk(x, batch));
    assert committed.executors[x := ReturnedOk(batch)] == w.executors[x := ReturnedOk(batch)];
  }

  /** A newcomer reads the result of a completed key. */
  lemma NewcomerReads<V>(w: World<V>, n: nat, later: nat, batch: V, at: nat)
    requires w.entry == Some(Entry(Complete(batch), at)) && n == |w.executors|
    ensures Step(Step(w, Arrive), Poll(n, later)) == w.(executors := w.executors + [ReturnedOk(batch)])
  {
    assert Step(Step(w, Arrive), Poll(n, later)).executors == w.executors + [ReturnedOk(batch)];
  }

  lemma TwoCallsAreSevenSteps<V>(w: World<V>, n: nat, now: nat, later: nat, owner: string, batch: V)
    ensures FoldLeft(Step, w, TwoCalls(n, now, later, owner, batch)) ==
            var w3 := Step(Step(Step(w, Arrive), Poll(n, now)), Reserve(n, now, owner));
            var w5 := Step(Step(w3, AppendOk(n, batch)), SaveResult(n, true, true, now));
            Step(Step(w5, Arrive), Poll(n + 1, later))
  {
    hide Step;
    var first: seq<Action<V>> := [Arrive, Poll(n, now)];
    var second: seq<Action<V>> := [Reserve(n, now, owner), AppendOk(n, batch)];
    var third: seq<Action<V>> := [SaveResult(n, true, true, now), Arrive];
    FoldLeftPair(Step<V>, w, Arrive, Poll(n, now));
    FoldLeftConcat(Step<V>, w, first, second);
    var w2 := FoldLeft(Step<V>, w, first);
    FoldLeftPair(Step<V>, w2, Reserve(n, now, owner), AppendOk(n, batch));
    FoldLeftConcat(Step<V>, w, first + second, third);
    var w4 := FoldLeft(Step<V>, w, first + second);
    FoldLeftPair(Step<V>, w4, SaveResult(n, true, true, now), Arrive);
    FoldLeftPush(Step<V>, w, first + second + third, Poll(n + 1, later));
  }

  /**
   * What the key is for: a call that finds it open and runs undisturbed commits its batch
   * and returns it, and a call after it returns the same batch without running the command.
   */
  lemma SecondCallGetsFirstResult<V>(w: World<V>, now: nat, later: nat, owner: string, batch: V)
    requires !IsTaken(w, now)
    ensures var n := |w.executors|; var w' := FoldLeft(Step, w, TwoCalls(n, now, later, owner, batch));
      && w'.executors == w.executors + [ReturnedOk(batch), ReturnedOk(batch)]
      && w'.batches == w.batches + [batch]
      && w'.entry == Some(Entry(Complete(batch), now))
  {
    hide Step, FoldLeft, TwoCalls;
    var n := |w.executors|;
    TwoCallsAreSevenSteps(w, n, now, later, owner, batch);
    ThirdStepTakes(w, n, now, owner);
    var taken := Taken(w, now, owner);
    HolderFinishes(taken, n, now, batch);
    var finished := Step(Step(taken, AppendOk(n, batch)), SaveResult(n, true, true, now));
    assert finished.executors == w.executors + [ReturnedOk(batch)];
    NewcomerReads(finished, n + 1, later, batch, now);
    assert w.executors + [ReturnedOk(batch)] + [ReturnedOk(batch)]
        == w.executors + [ReturnedOk(batch), ReturnedOk(batch)];
  }

  // ---- the bound ----

  predicate Owes<V>(x: Executor<V>) {
    x.Executing? || x.Releasing?
  }

  /** Executors that may still commit or still remove the key. */
  function Debt<V>(executors: seq<Executor<V>>): nat {
    if executors == [] then 0 else
      Debt(executors[..|executors| - 1]) + if Owes(executors[|executors| - 1]) then 1 else 0
  }

  lemma {:induction false} DebtUpdate<V>(executors: seq<Executor<V>>, x: nat, to: Executor<V>)
    requires x < |executors|
    ensures Debt(executors[x := to]) ==
            Debt(executors) - (if Owes(executors[x]) then 1 else 0) + if Owes(to) then 1 else 0
  {
    var init := executors[..|executors| - 1];
    if x == |init| {
      assert executors[x := to][..|init|] == init;
    } else {
      DebtUpdate(init, x, to);
      assert executors[x := to][..|init|] == init[x := to];
    }
  }

  function Allowance<V>(w: World<V>): nat {
    1 + w.reclaims + w.outside + w.hiddenRemovals + w.hiddenCommits
  }

  /** Commits so far, commits still possible, and the grant a vacant key would give away. */
  ghost predicate Bounded<V>(w: World<V>) {
    |w.batches| + Debt(w.executors) + (if w.entry.None? then 1 else 0) <= Allowance(w)
  }

  /** An executor's own step changes no other executor. */
  lemma StepMovesOne<V>(w: World<V>, a: Action<V>)
    requires !a.Arrive? && !a.Heartbeat? && !a.RemoveFromOutside?
    ensures var w' := Step(w, a);
      |w'.executors| == |w.executors| &&
      (a.executor < |w.executors| ==> w'.executors == w.executors[a.executor := w'.executors[a.executor]])
      && (a.executor >= |w.executors| ==> w' == w)
  {
    if a.executor < |w.executors| {
      assert w.executors[a.executor := w.executors[a.executor]] == w.executors;
    }
  }

  function Vacant<V>(w: World<V>): nat {
    if w.entry.None? then 1 else 0
  }

  function Owed<V>(x: Executor<V>): nat {
    if Owes(x) then 1 else 0
  }

  /** What an executor's step adds on one side of the bound it pays for on the other. */
  lemma OwnStepBalances<V>(w: World<V>, a: Action<V>)
    requires !a.Arrive? && !a.Heartbeat? && !a.RemoveFromOutside? && a.executor < |w.executors|
    ensures var w' := Step(w, a);
      && |w'.executors| == |w.executors|
      && |w'.batches| + Owed(w'.executors[a.executor]) + Vacant(w') + Allowance(w) <=
         |w.batches| + Owed(w.executors[a.executor]) + Vacant(w) + Allowance(w')
  {
    hide IsExpired;
  }

  lemma StepKeepsBound<V>(w: World<V>, a: Action<V>)
    requires Bounded(w)
    ensures Bounded(Step(w, a))
  {
    var w' := Step(w, a);
    if a.Arrive? {
      assert w'.executors[..|w.executors|] == w.executors;
    } else if !a.Heartbeat? && !a.RemoveFromOutside? {
      StepMovesOne(w, a);
      if a.executor < |w.executors| {
        OwnStepBalances(w, a);
        DebtUpdate(w.executors, a.executor, w'.executors[a.executor]);
        hide Debt, Step, Allowance, Owes;
      }
    }
  }

  /**
   * In every run, the batches committed under the key number at most one more than the
   * reclaims, outside removals, hidden removals and hidden commits together.
   */
  lemma {:induction false} CommitBound<V>(actions: seq<Action<V>>)
    ensures Bounded(Run(actions))
    ensures |Run(actions).batches| <= Allowance(Run(actions))
  {
    if actions != [] {
      CommitBound(actions[..|actions| - 1]);
      StepKeepsBound(Run(actions[..|actions| - 1]), actions[|actions| - 1]);
    }
  }

  ghost predicate ResultCommitted<V>(x: Executor<V>, batches: seq<V>) {
    && (x.Saving? ==> x.batch in batches)
    && (x.ReturnedOk? ==> x.value in batches)
  }

  /** Everything stored, held or returned as a result was committed under the key. */
  ghost predicate ResultsCommitted<V>(w: World<V>) {
    && (w.entry.Some? && w.entry.value.state.Complete? ==> w.entry.value.state.value in w.batches)
    && (forall x | 0 <= x < |w.executors| :: ResultCommitted(w.executors[x], w.batches))
  }

  lemma BatchesGrow<V>(w: World<V>, a: Action<V>)
    ensures w.batches <= Step(w, a).batches
    ensures forall b | b in w.batches :: b in Step(w, a).batches
    ensures (a.AppendOk? || a.AppendHidden?) && Step(w, a) != w ==> a.batch in Step(w, a).batches
  {
    if (a.AppendOk? || a.AppendHidden?) && Step(w, a) != w {
      assert Step(w, a).batches[|w.batches|] == a.batch;
    }
  }

  lemma StepKeepsExecutorResult<V>(w: World<V>, a: Action<V>, x: nat)
    requires ResultsCommitted(w) && x < |Step(w, a).executors|
    ensures ResultCommitted(Step(w, a).executors[x], Step(w, a).batches)
  {
    hide ReserveEntry, IsExpired;
    BatchesGrow(w, a);
    if x < |w.executors| {
      assert ResultCommitted(w.executors[x], w.batches);
    }
  }

  lemma StepKeepsStoredResult<V>(w: World<V>, a: Action<V>)
    requires ResultsCommitted(w)
    ensures var w' := Step(w, a);
      w'.entry.Some? && w'.entry.value.state.Complete? ==> w'.entry.value.state.value in w'.batches
  {
    BatchesGrow(w, a);
    if a.SaveResult? && a.executor < |w.executors| {
      assert ResultCommitted(w.executors[a.executor], w.batches);
    }
  }

  lemma StepKeepsResults<V>(w: World<V>, a: Action<V>)
    requires ResultsCommitted(w)
    ensures ResultsCommitted(Step(w, a))
  {
    StepKeepsStoredResult(w, a);
    forall x | 0 <= x < |Step(w, a).executors|
      ensures ResultCommitted(Step(w, a).executors[x], Step(w, a).batches)
    {
      StepKeepsExecutorResult(w, a, x);
    }
    hide Step, ResultCommitted;
  }

  lemma {:induction false} RunResultsCommitted<V>(actions: seq<Action<V>>)
    ensures ResultsCommitted(Run(actions))
  {
    if actions != [] {
      RunResultsCommitted(actions[..|actions| - 1]);
      StepKeepsResults(Run(actions[..|actions| - 1]), actions[|actions| - 1]);
    }
  }

  /** Without any of the four events there is at most one batch, and every Ok is that batch. */
  lemma AtMostOneBatch<V>(actions: seq<Action<V>>, x: nat)
    requires Allowance(Run(actions)) == 1
    ensures var w := Run(actions);
      && |w.batches| <= 1
      && (x < |w.executors| && w.executors[x].ReturnedOk? ==> w.batches == [w.executors[x].value])
  {
    hide Run, Bounded;
    CommitBound(actions);
    RunResultsCommitted(actions);
    var w := Run(actions);
    if x < |w.executors| { assert ResultCommitted(w.executors[x], w.batches); }
  }

  // ---- the bound is attained ----

  /** When the clock was read for an action, if it was. */
  function TimeOf<V>(a: Action<V>): Option<nat> {
    match a
    case Poll(_, nowMs) => Some(nowMs)
    case Reserve(_, nowMs, _) => Some(nowMs)
    case SaveResult(_, _, _, nowMs) => Some(nowMs)
    case Heartbeat(_, nowMs) => Some(nowMs)
    case _ => None
  }

  /** One clock that never goes back and ends no later than `end`; owners are named after the time of their lease. */
  predicate Timely<V>(actions: seq<Action<V>>, owners: nat -> string, end: nat) {
    actions == [] ||
    var a := actions[|actions| - 1];
    && (a.Reserve? ==> a.owner == owners(a.nowMs))
    && (TimeOf(a).Some? ==> TimeOf(a).value <= end)
    && Timely(actions[..|actions| - 1], owners, if TimeOf(a).Some? then TimeOf(a).value else end)
  }

  lemma {:induction false} TimelyLater<V>(actions: seq<Action<V>>, owners: nat -> string, end: nat, later: nat)
    requires Timely(actions, owners, end) && end <= later
    ensures Timely(actions, owners, later)
  {
    if actions != [] && TimeOf(actions[|actions| - 1]).None? {
      TimelyLater(actions[..|actions| - 1], owners, end, later);
    }
  }

  /** A run whose last executor holds the key under a lease taken at `at`, and has yet to append. */
  ghost predicate HolderReady<V>(actions: seq<Action<V>>, owners: nat -> string, at: nat) {
    && Timely(actions, owners, at)
    && var w := Run(actions);
      && w.entry == Some(Entry(Pending(Lease(owners(at), at + DEFAULT_LEASE_MS)), at))
      && w.executors != [] && w.executors[|w.executors| - 1] == Executing
  }

  /** The counters, and how many batches were committed. */
  ghost predicate Counted<V>(w: World<V>, r: nat, o: nat, h: nat, c: nat, batches: nat) {
    && w.reclaims == r && w.outside == o && w.hiddenRemovals == h && w.hiddenCommits == c
    && |w.batches| == batches
  }

  /** One more step that does not read the clock. */
  lemma StepPush<V>(before: seq<Action<V>>, a: Action<V>, owners: nat -> string, end: nat)
    requires Timely(before, owners, end) && TimeOf(a).None?
    ensures Run(before + [a]) == Step(Run(before), a)
    ensures Timely(before + [a], owners, end)
  {
    hide Step;
    FoldLeftPush(Step<V>, Start(), before, a);
    assert (before + [a])[..|before|] == before;
  }

  /** A new executor arrives and gets the key, because it is vacant or its lease ran out. */
  function TakesKey<V>(before: seq<Action<V>>, n: nat, now: nat, owner: string): seq<Action<V>> {
    before + [Arrive] + [Poll(n, now)] + [Reserve(n, now, owner)]
  }

  /** One more step that reads the clock. */
  lemma ClockPush<V>(before: seq<Action<V>>, a: Action<V>, owners: nat -> string, end: nat, now: nat)
    requires Timely(before, owners, end) && end <= now
    requires TimeOf(a) == Some(now) && (a.Reserve? ==> a.owner == owners(now))
    ensures Run(before + [a]) == Step(Run(before), a)
    ensures Timely(before + [a], owners, now)
  {
    hide Step;
    FoldLeftPush(Step<V>, Start(), before, a);
    TimelyLater(before, owners, end, now);
    assert (before + [a])[..|before|] == before;
  }

  lemma Takes<V>(before: seq<Action<V>>, n: nat, owners: nat -> string, end: nat, now: nat)
    requires Timely(before, owners, end) && end <= now
    requires !IsTaken(Run(before), now) && n == |Run(before).executors|
    ensures Run(TakesKey(before, n, now, owners(now))) == Taken(Run(before), now, owners(now))
    ensures Timely(TakesKey(before, n, now, owners(now)), owners, now)
  {
    hide Run, Step, Timely;
    StepPush<V>(before, Arrive, owners, end);
    ClockPush<V>(before + [Arrive], Poll(n, now), owners, end, now);
    ClockPush<V>(before + [Arrive] + [Poll(n, now)], Reserve(n, now, owners(now)), owners, now, now);
    ThirdStepTakes(Run(before), n, now, owners(now));
  }

  lemma HolderAppends<V>(before: seq<Action<V>>, batch: V, owners: nat -> string, at: nat)
    requires HolderReady(before, owners, at)
    ensures var w := Run(before);
      var appended := before + [AppendOk(|w.executors| - 1, batch)];
      && Timely(appended, owners, at)
      && Run(appended) ==
         w.(executors := w.executors[|w.executors| - 1 := Saving(batch, 1)], batches := w.batches + [batch])
  {
    hide Run, Timely;
    StepPush(before, AppendOk(|Run(before).executors| - 1, batch), owners, at);
  }

  /** The holder commits; its lease runs out, so the key is reclaimed. */
  lemma CostOfReclaim<V>(
    before: seq<Action<V>>, batch: V, owners: nat -> string, at: nat, r: nat, o: nat, h: nat, c: nat, b: nat)
    returns (actions: seq<Action<V>>)
    requires HolderReady(before, owners, at) && Counted(Run(before), r, o, h, c, b)
    ensures HolderReady(actions, owners, at + DEFAULT_LEASE_MS) && Counted(Run(actions), r + 1, o, h, c, b + 1)
  {
    hide Run, Step, Timely;
    var n := |Run(before).executors|;
    HolderAppends(before, batch, owners, at);
    var appended := before + [AppendOk(n - 1, batch)];
    var now := at + DEFAULT_LEASE_MS;
    actions := TakesKey(appended, n, now, owners(now));
    Takes(appended, n, owners, at, now);
  }

  /** The holder commits; its entry is removed from outside before it saves. */
  lemma CostOfOutsideRemoval<V>(
    before: seq<Action<V>>, batch: V, owners: nat -> string, at: nat, r: nat, o: nat, h: nat, c: nat, b: nat)
    returns (actions: seq<Action<V>>)
    requires HolderReady(before, owners, at) && Counted(Run(before), r, o, h, c, b)
    ensures HolderReady(actions, owners, at + DEFAULT_LEASE_MS) && Counted(Run(actions), r, o + 1, h, c, b + 1)
  {
    hide Run, Timely;
    var n := |Run(before).executors|;
    HolderAppends(before, batch, owners, at);
    var appended := before + [AppendOk(n - 1, batch)];
    StepPush<V>(appended, RemoveFromOutside, owners, at);
    var now := at + DEFAULT_LEASE_MS;
    actions := TakesKey(appended + [RemoveFromOutside], n, now, owners(now));
    Takes(appended + [RemoveFromOutside], n, owners, at, now);
  }

  /** The holder commits, is told it failed, and releases the key. */
  lemma CostOfHiddenCommit<V>(
    before: seq<Action<V>>, batch: V, owners: nat -> string, at: nat, r: nat, o: nat, h: nat, c: nat, b: nat)
    returns (actions: seq<Action<V>>)
    requires HolderReady(before, owners, at) && Counted(Run(before), r, o, h, c, b)
    ensures HolderReady(actions, owners, at + DEFAULT_LEASE_MS) && Counted(Run(actions), r, o, h, c + 1, b + 1)
  {
    hide Run, Timely;
    var n := |Run(before).executors|;
    var hidden := before + [AppendHidden(n - 1, batch)];
    StepPush(before, AppendHidden(n - 1, batch), owners, at);
    StepPush<V>(hidden, RemoveKey(n - 1, true, true), owners, at);
    var now := at + DEFAULT_LEASE_MS;
    actions := TakesKey(hidden + [RemoveKey(n - 1, true, true)], n, now, owners(now));
    Takes(hidden + [RemoveKey(n - 1, true, true)], n, owners, at, now);
  }

  /** The holder fails and releases the key, but is told the release failed and will try again. */
  lemma HiddenRelease<V>(before: seq<Action<V>>, owners: nat -> string, at: nat) returns (released: seq<Action<V>>)
    requires HolderReady(before, owners, at)
    ensures Timely(released, owners, at)
    ensures var w := Run(before);
      Run(released) == w.(entry := None, executors := w.executors[|w.executors| - 1 := Releasing(2)],
                          hiddenRemovals := w.hiddenRemovals + 1)
  {
    hide Run, Timely;
    var n := |Run(before).executors|;
    StepPush<V>(before, AppendFails(n - 1), owners, at);
    StepPush<V>(before + [AppendFails(n - 1)], RemoveKey(n - 1, true, false), owners, at);
    released := before + [AppendFails(n - 1)] + [RemoveKey(n - 1, true, false)];
  }

  lemma SecondRelease<V>(before: seq<Action<V>>, x: nat, owners: nat -> string, at: nat)
    requires Timely(before, owners, at)
    requires x < |Run(before).executors| && Run(before).executors[x] == Releasing(2)
    ensures Timely(before + [RemoveKey(x, true, true)], owners, at)
    ensures var w := Run(before);
      Run(before + [RemoveKey(x, true, true)]) == w.(entry := None, executors := w.executors[x := ReturnedErr])
  {
    hide Run, Timely;
    StepPush<V>(before, RemoveKey(x, true, true), owners, at);
  }

  /** Its second release takes the key from the next holder, which has committed by then. */
  lemma CostOfHiddenRemoval<V>(
    before: seq<Action<V>>, batch: V, owners: nat -> string, at: nat, r: nat, o: nat, h: nat, c: nat, b: nat)
    returns (actions: seq<Action<V>>)
    requires HolderReady(before, owners, at) && Counted(Run(before), r, o, h, c, b)
    ensures HolderReady(actions, owners, at + DEFAULT_LEASE_MS) && Counted(Run(actions), r, o, h + 1, c, b + 1)
  {
    hide Run, Step, Timely;
    var n := |Run(before).executors|;
    var released := HiddenRelease(before, owners, at);
    Takes(released, n, owners, at, at);
    var taken := TakesKey<V>(released, n, at, owners(at));
    HolderAppends(taken, batch, owners, at);
    var appended := taken + [AppendOk(n, batch)];
    SecondRelease(appended, n - 1, owners, at);
    var now := at + DEFAULT_LEASE_MS;
    actions := TakesKey(appended + [RemoveKey(n - 1, true, true)], n + 1, now, owners(now));
    Takes(appended + [RemoveKey(n - 1, true, true)], n + 1, owners, at, now);
  }

  lemma FirstHolder<V>(owners: nat -> string) returns (actions: seq<Action<V>>)
    ensures HolderReady(actions, owners, 0) && Counted(Run(actions), 0, 0, 0, 0, 0)
  {
    assert Run<V>([]) == Start();
    hide Run;
    Takes<V>([], 0, owners, 0, 0);
    actions := TakesKey<V>([], 0, 0, owners(0));
  }

  /** Some run reaches any given counters with as many batches and a holder about to commit one more. */
  lemma {:induction false} CountersReached<V>(r: nat, o: nat, h: nat, c: nat, batch: V, owners: nat -> string)
    returns (actions: seq<Action<V>>)
    ensures HolderReady(actions, owners, (r + o + h + c) * DEFAULT_LEASE_MS)
    ensures Counted(Run(actions), r, o, h, c, r + o + h + c)
    decreases r + o + h + c
  {
    hide Run, HolderReady;
    var at := (r + o + h + c - 1) * DEFAULT_LEASE_MS;
    if r > 0 {
      var before := CountersReached(r - 1, o, h, c, batch, owners);
      actions := CostOfReclaim(before, batch, owners, at, r - 1, o, h, c, r - 1 + o + h + c);
    } else if o > 0 {
      var before := CountersReached(r, o - 1, h, c, batch, owners);
      actions := CostOfOutsideRemoval(before, batch, owners, at, r, o - 1, h, c, o - 1 + h + c);
    } else if h > 0 {
      var before := CountersReached(r, o, h - 1, c, batch, owners);
      actions := CostOfHiddenRemoval(before, batch, owners, at, r, o, h - 1, c, h - 1 + c);
    } else if c > 0 {
      var before := CountersReached(r, o, h, c - 1, batch, owners);
      actions := CostOfHiddenCommit(before, batch, owners, at, r, o, h, c - 1, c - 1);
    } else {
      actions := FirstHolder(owners);
    }
  }

  /**
   * The bound is exact: for any four counts some run has exactly those and commits as many
   * batches and one. Its clock never goes back and every lease lasts its full length.
   */
  lemma BoundAttained<V>(r: nat, o: nat, h: nat, c: nat, batch: V, owners: nat -> string)
    ensures exists actions: seq<Action<V>> ::
      && Timely(actions, owners, (r + o + h + c) * DEFAULT_LEASE_MS)
      && Counted(Run(actions), r, o, h, c, 1 + r + o + h + c)
  {
    hide Run;
    var before := CountersReached(r, o, h, c, batch, owners);
    var at := (r + o + h + c) * DEFAULT_LEASE_MS;
    HolderAppends(before, batch, owners, at);
    var actions := before + [AppendOk(|Run(before).executors| - 1, batch)];
    assert Timely(actions, owners, at) && Counted(Run(actions), r, o, h, c, 1 + r + o + h + c);
  }
}
