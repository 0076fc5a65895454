/**
 * The connection pool: idle connections, connections handed to waiting threads, leases
 * held by callers and slots held by connect attempts. Every critical section of the pool's
 * mutex is one atomic step; threads interleave freely between them.
 */
module Pool {
  import opened Common

  type Conn = nat

  /**
   * `leases` are the connections callers hold, `connecting` the connect attempts in flight,
   * `made` numbers the connections made so far. `leased` and `waiters` are the pool's
   * own counters.
   */
  datatype State = State(
    maxSize: nat,
    canConnect: bool,
    idle: seq<Conn>,
    leased: nat,
    handoffs: seq<Conn>,
    waiters: nat,
    leases: set<Conn>,
    connecting: nat,
    made: nat)

  /** What `acquire` came to in one critical section. */
  datatype Acquired = Leased(connection: Conn) | Connecting | NoFactory | TimedOut | Waiting

  datatype Action =
    | Acquire(usable: set<Conn>, expired: bool)
    | Wake(usable: set<Conn>, expired: bool)
    | ConnectOk
    | ConnectFails
    | DropLease(connection: Conn, broken: bool)

  /** The idle set after popping connections that fail validation, top of the stack first. */
  function DiscardUnusable(idle: seq<Conn>, usable: set<Conn>): (r: seq<Conn>)
    ensures r <= idle
    ensures r != [] ==> r[|r| - 1] in usable
  {
    if idle == [] || idle[|idle| - 1] in usable then idle else DiscardUnusable(idle[..|idle| - 1], usable)
  }

  /** The loop body of `acquire`, from lock to return or wait. */
  function AcquireStep(s: State, usable: set<Conn>, expired: bool): (State, Acquired) {
    var idle := DiscardUnusable(s.idle, usable);
    if idle != [] then
      var c := idle[|idle| - 1];
      (s.(idle := idle[..|idle| - 1], leased := s.leased + 1, leases := s.leases + {c}), Leased(c))
    else if s.leased < s.maxSize then
      if !s.canConnect then (s.(idle := []), NoFactory)
      else (s.(idle := [], leased := s.leased + 1, connecting := s.connecting + 1), Connecting)
    else if expired then (s.(idle := []), TimedOut)
    else (s.(idle := [], waiters := s.waiters + 1), Waiting)
  }

  /** A wait ends, by notification, timeout or spuriously: take a handoff or start over. */
  function WakeStep(s: State, usable: set<Conn>, expired: bool): (State, Acquired)
    requires s.waiters > 0
  {
    var t := s.(waiters := s.waiters - 1);
    if t.handoffs != [] then
      (t.(handoffs := t.handoffs[1..], leases := t.leases + {t.handoffs[0]}), Leased(t.handoffs[0]))
    else AcquireStep(t, usable, expired)
  }

  function Saturating(n: nat): nat {
    if n == 0 then 0 else n - 1
  }

  function GiveBack(s: State, returned: Option<Conn>): State {
    match returned
    case Some(c) =>
      if s.waiters > 0 then s.(handoffs := s.handoffs + [c])
      else s.(leased := Saturating(s.leased), idle := s.idle + [c])
    case None => s.(leased := Saturating(s.leased))
  }

  function DropStep(s: State, c: Conn, broken: bool): State
    requires c in s.leases
  {
    GiveBack(s.(leases := s.leases - {c}), if broken then None else Some(c))
  }

  /** A new connection is one that was never in the pool. */
  function ConnectOkStep(s: State): State
    requires s.connecting > 0
  {
    s.(connecting := s.connecting - 1, leases := s.leases + {s.made}, made := s.made + 1)
  }

  /** The pending slot is dropped: connect error, panic or timeout. */
  function ConnectFailsStep(s: State): State
    requires s.connecting > 0
  {
    s.(connecting := s.connecting - 1, leased := Saturating(s.leased))
  }

  function Step(s: State, a: Action): State {
    match a
    case Acquire(usable, expired) => AcquireStep(s, usable, expired).0
    case Wake(usable, expired) => if s.waiters > 0 then WakeStep(s, usable, expired).0 else s
    case ConnectOk => if s.connecting > 0 then ConnectOkStep(s) else s
    case ConnectFails => if s.connecting > 0 then ConnectFailsStep(s) else s
    case DropLease(c, broken) => if c in s.leases then DropStep(s, c, broken) else s
  }

  /** A pool without (or with one) seed connection; pool sizes are resolved to at least one. */
  function Build(maxSize: nat, seed: bool, canConnect: bool): State {
    State(maxSize, canConnect, if seed then [0] else [], 0, [], 0, {}, 0, if seed then 1 else 0)
  }

  ghost function Run(maxSize: nat, seed: bool, canConnect: bool, actions: seq<Action>): State {
    FoldLeft(Step, Build(maxSize, seed, canConnect), actions)
  }

  ghost predicate NoRepeats(cs: seq<Conn>) {
    forall i, j | 0 <= i < j < |cs| :: cs[i] != cs[j]
  }

  /** Every connection is in one place only: once in idle, once in handoffs, or in one lease. */
  ghost predicate OnePlaceEach(s: State) {
    && NoRepeats(s.idle) && NoRepeats(s.handoffs)
    && (forall i, j | 0 <= i < |s.idle| && 0 <= j < |s.handoffs| :: s.idle[i] != s.handoffs[j])
    && (forall i | 0 <= i < |s.idle| :: s.idle[i] !in s.leases && s.idle[i] < s.made)
    && (forall j | 0 <= j < |s.handoffs| :: s.handoffs[j] !in s.leases && s.handoffs[j] < s.made)
    && (forall c | c in s.leases :: c < s.made)
  }

  /** Nothing is in two places; the counter counts what it should; capacity is kept. */
  ghost predicate Valid(s: State) {
    && OnePlaceEach(s)
    && s.leased == |s.leases| + s.connecting + |s.handoffs|
    && s.leased + |s.idle| <= s.maxSize
  }

  lemma AcquireKeepsPlaces(s: State, usable: set<Conn>, expired: bool)
    requires OnePlaceEach(s)
    ensures OnePlaceEach(AcquireStep(s, usable, expired).0)
    ensures var idle := DiscardUnusable(s.idle, usable); idle != [] ==> idle[|idle| - 1] !in s.leases
  {
    hide DiscardUnusable;
    var idle := DiscardUnusable(s.idle, usable);
    assert forall i | 0 <= i < |idle| :: idle[i] == s.idle[i];
  }

  lemma AcquireKeepsValid(s: State, usable: set<Conn>, expired: bool)
    requires Valid(s)
    ensures Valid(AcquireStep(s, usable, expired).0)
  {
    AcquireKeepsPlaces(s, usable, expired);
    hide OnePlaceEach, DiscardUnusable;
  }

  lemma WakeKeepsValid(s: State, usable: set<Conn>, expired: bool)
    requires Valid(s) && s.waiters > 0
    ensures Valid(WakeStep(s, usable, expired).0)
  {
    var t := s.(waiters := s.waiters - 1);
    if t.handoffs == [] {
      AcquireKeepsValid(t, usable, expired);
    }
  }

  /** A broken connection leaves the pool; a sound one moves to the waiters or to idle. */
  lemma PlacedAgain(s: State, c: Conn)
    requires OnePlaceEach(s) && c !in s.leases && c !in s.idle && c !in s.handoffs && c < s.made
    ensures OnePlaceEach(s.(handoffs := s.handoffs + [c]))
    ensures OnePlaceEach(s.(idle := s.idle + [c]))
  {
  }

  lemma ReturnKeepsPlaces(s: State, c: Conn, broken: bool)
    requires OnePlaceEach(s) && c in s.leases
    ensures OnePlaceEach(DropStep(s, c, broken))
  {
    var t := s.(leases := s.leases - {c});
    assert OnePlaceEach(t) && c !in t.leases;
    if !broken { PlacedAgain(t, c); }
    hide OnePlaceEach;
  }

  lemma DropKeepsValid(s: State, c: Conn, broken: bool)
    requires Valid(s) && c in s.leases
    ensures Valid(DropStep(s, c, broken))
    ensures s.leased > 0
  {
    ReturnKeepsPlaces(s, c, broken);
    hide OnePlaceEach;
  }

  lemma ConnectKeepsValid(s: State)
    requires Valid(s) && s.connecting > 0
    ensures Valid(ConnectOkStep(s)) && Valid(ConnectFailsStep(s))
    ensures s.leased > 0
  {
  }

  lemma StepKeepsValid(s: State, a: Action)
    requires Valid(s)
    ensures Valid(Step(s, a))
  {
    match a
    case Acquire(usable, expired) => AcquireKeepsValid(s, usable, expired);
    case Wake(usable, expired) => if s.waiters > 0 { WakeKeepsValid(s, usable, expired); }
    case ConnectOk => if s.connecting > 0 { ConnectKeepsValid(s); }
    case ConnectFails => if s.connecting > 0 { ConnectKeepsValid(s); }
    case DropLease(c, broken) => if c in s.leases { DropKeepsValid(s, c, broken); }
  }

  lemma StepKeepsSize(s: State, a: Action)
    ensures Step(s, a).maxSize == s.maxSize
  {
  }

  lemma BuildIsValid(maxSize: nat, seed: bool, canConnect: bool)
    requires maxSize >= 1
    ensures Valid(Build(maxSize, seed, canConnect))
  {
  }

  /**
   * Ownership and capacity, in every interleaving: no connection is in two places, `leased`
   * counts live leases, connect attempts and handoffs, and the pool never exceeds its size.
   */
  lemma {:induction false} OwnershipAndCapacity(maxSize: nat, seed: bool, canConnect: bool, actions: seq<Action>)
    requires maxSize >= 1
    ensures Valid(Run(maxSize, seed, canConnect, actions))
    ensures Run(maxSize, seed, canConnect, actions).maxSize == maxSize
  {
    if actions == [] {
      BuildIsValid(maxSize, seed, canConnect);
    } else {
      var init, last := actions[..|actions| - 1], actions[|actions| - 1];
      OwnershipAndCapacity(maxSize, seed, canConnect, init);
      StepKeepsValid(Run(maxSize, seed, canConnect, init), last);
      StepKeepsSize(Run(maxSize, seed, canConnect, init), last);
    }
  }

  /** No decrement of `leased` underflows, so the saturating one never saturates either. */
  lemma NoUnderflow(maxSize: nat, seed: bool, canConnect: bool, actions: seq<Action>)
    requires maxSize >= 1
    ensures var s := Run(maxSize, seed, canConnect, actions);
      && (s.connecting > 0 ==> s.leased > 0)
      && (s.leases != {} ==> s.leased > 0)
  {
    OwnershipAndCapacity(maxSize, seed, canConnect, actions);
    var s := Run(maxSize, seed, canConnect, actions);
    if s.leases != {} {
      var c :| c in s.leases;
      DropKeepsValid(s, c, true);
    }
  }

  /** What a thread takes out of a critical section nobody else holds. */
  ghost predicate Exclusive(s: State, s': State, result: Acquired) {
    match result
    case Leased(c) => c !in s.leases && s'.leases == s.leases + {c} && c !in s'.idle && c !in s'.handoffs
    case Connecting => s.leased < s.maxSize && s'.leased == s.leased + 1 && s'.leases == s.leases
    case _ => s'.leases == s.leases && s'.leased == s.leased
  }

  lemma AcquireIsExclusive(s: State, usable: set<Conn>, expired: bool)
    requires Valid(s)
    ensures var (s', result) := AcquireStep(s, usable, expired);
      Exclusive(s, s', result) && (result.Leased? ==> result.connection in usable)
  {
    hide DiscardUnusable;
    AcquireKeepsValid(s, usable, expired);
  }

  lemma WakeIsExclusive(s: State, usable: set<Conn>, expired: bool)
    requires Valid(s) && s.waiters > 0
    ensures var (s', result) := WakeStep(s, usable, expired);
      && Exclusive(s, s', result)
      && (s.handoffs != [] ==> result == Leased(s.handoffs[0]))
      && (s.handoffs == [] && result.Leased? ==> result.connection in usable)
  {
    var t := s.(waiters := s.waiters - 1);
    if s.handoffs == [] {
      assert Valid(t);
      hide Valid, OnePlaceEach, DiscardUnusable;
      AcquireIsExclusive(t, usable, expired);
    }
  }

  /**
   * A thread leaves the pool with a connection that nobody else holds, or with none, whether
   * it comes from a pass of acquire or from a wait. A connection from the idle set passed
   * validation; one that was handed over is the first in the queue and is not validated again.
   */
  lemma LeaseIsExclusive(
    maxSize: nat, seed: bool, canConnect: bool, actions: seq<Action>, usable: set<Conn>, expired: bool)
    requires maxSize >= 1
    ensures var s := Run(maxSize, seed, canConnect, actions);
      var (s', result) := AcquireStep(s, usable, expired);
      Exclusive(s, s', result) && (result.Leased? ==> result.connection in usable)
    ensures var s := Run(maxSize, seed, canConnect, actions);
      s.waiters > 0 ==>
        var (s', result) := WakeStep(s, usable, expired);
        && Exclusive(s, s', result)
        && (s.handoffs != [] ==> result == Leased(s.handoffs[0]))
        && (s.handoffs == [] && result.Leased? ==> result.connection in usable)
  {
    OwnershipAndCapacity(maxSize, seed, canConnect, actions);
    var s := Run(maxSize, seed, canConnect, actions);
    hide Run;
    AcquireIsExclusive(s, usable, expired);
    if s.waiters > 0 {
      WakeIsExclusive(s, usable, expired);
    }
  }

  // ---- where connections go ----

  /**
   * A dropped lease. A broken connection is nowhere in the pool afterwards and its place is
   * free; a sound one goes to the end of the queue if someone waits, keeping its place, and
   * on top of the idle stack otherwise.
   */
  lemma DropMeaning(s: State, c: Conn, broken: bool)
    requires Valid(s) && c in s.leases
    ensures var s' := Step(s, DropLease(c, broken));
      && s'.leases == s.leases - {c} && s'.waiters == s.waiters && s'.connecting == s.connecting
      && s'.made == s.made && s'.maxSize == s.maxSize && s'.canConnect == s.canConnect
      && (broken ==>
            && c !in s'.idle && c !in s'.handoffs && s'.leased == s.leased - 1
            && s'.idle == s.idle && s'.handoffs == s.handoffs)
      && (!broken && s.waiters > 0 ==>
            s'.handoffs == s.handoffs + [c] && s'.idle == s.idle && s'.leased == s.leased)
      && (!broken && s.waiters == 0 ==>
            s'.idle == s.idle + [c] && s'.handoffs == s.handoffs && s'.leased == s.leased - 1)
  {
  }

  /** A connection that was in the pool once and is in it no more. */
  ghost predicate Gone(s: State, c: Conn) {
    c < s.made && c !in s.idle && c !in s.handoffs && c !in s.leases
  }

  lemma StaysGone(s: State, a: Action, c: Conn)
    requires Gone(s, c)
    ensures Gone(Step(s, a), c)
  {
  }

  lemma {:induction false} StaysGoneForever(s: State, actions: seq<Action>, c: Conn)
    requires Gone(s, c)
    ensures Gone(FoldLeft(Step, s, actions), c)
  {
    if actions != [] {
      StaysGoneForever(s, actions[..|actions| - 1], c);
      StaysGone(FoldLeft(Step, s, actions[..|actions| - 1]), actions[|actions| - 1], c);
    }
  }

  /** A connection dropped as broken is never leased again, whatever happens afterwards. */
  lemma BrokenNeverReturns(
    maxSize: nat, seed: bool, canConnect: bool, before: seq<Action>, c: Conn, after: seq<Action>,
    usable: set<Conn>, expired: bool)
    requires maxSize >= 1 && c in Run(maxSize, seed, canConnect, before).leases
    ensures var s := Run(maxSize, seed, canConnect, before + [DropLease(c, true)] + after);
      && c !in s.leases
      && AcquireStep(s, usable, expired).1 != Leased(c)
      && (s.waiters > 0 ==> WakeStep(s, usable, expired).1 != Leased(c))
  {
    OwnershipAndCapacity(maxSize, seed, canConnect, before);
    var s := Run(maxSize, seed, canConnect, before);
    DropMeaning(s, c, true);
    FoldLeftPush(Step, Build(maxSize, seed, canConnect), before, DropLease(c, true));
    FoldLeftConcat(Step, Build(maxSize, seed, canConnect), before + [DropLease(c, true)], after);
    hide FoldLeft, Valid;
    StaysGoneForever(Step(s, DropLease(c, true)), after, c);
  }

  /** The topmost usable connection of the idle stack, if there is one. */
  ghost predicate TopUsable(idle: seq<Conn>, usable: set<Conn>, i: nat) {
    i < |idle| && idle[i] in usable && forall j | i < j < |idle| :: idle[j] !in usable
  }

  lemma {:induction false} DiscardedTop(idle: seq<Conn>, usable: set<Conn>)
    ensures var rest := DiscardUnusable(idle, usable);
      && (rest != [] ==> TopUsable(idle, usable, |rest| - 1))
      && (rest == [] ==> forall j | 0 <= j < |idle| :: idle[j] !in usable)
  {
    if idle != [] && idle[|idle| - 1] !in usable {
      DiscardedTop(idle[..|idle| - 1], usable);
    }
  }

  lemma OneTop(idle: seq<Conn>, usable: set<Conn>, i: nat, j: nat)
    requires TopUsable(idle, usable, i) && TopUsable(idle, usable, j)
    ensures i == j
  {
  }

  /**
   * A pass of acquire leases the topmost usable idle connection and forgets the unusable
   * ones above it. With none, it forgets them all and goes by the places left: a new
   * connection within capacity (or an error without a factory), and beyond it a timeout
   * or a wait. Afterwards nobody else's connection has moved.
   */
  lemma AcquireMeaning(s: State, usable: set<Conn>, expired: bool)
    ensures var (s', result) := AcquireStep(s, usable, expired);
      && Step(s, Acquire(usable, expired)) == s'
      && s'.handoffs == s.handoffs && s'.made == s.made && s'.maxSize == s.maxSize && s'.canConnect == s.canConnect
      && (forall i: nat | TopUsable(s.idle, usable, i) ::
            && result == Leased(s.idle[i]) && s'.idle == s.idle[..i]
            && s'.leases == s.leases + {s.idle[i]} && s'.leased == s.leased + 1
            && s'.waiters == s.waiters && s'.connecting == s.connecting)
      && ((forall i | 0 <= i < |s.idle| :: s.idle[i] !in usable) ==>
            && s'.idle == [] && s'.leases == s.leases
            && (result == Connecting <==> s.leased < s.maxSize && s.canConnect)
            && (result == NoFactory <==> s.leased < s.maxSize && !s.canConnect)
            && (result == TimedOut <==> s.leased >= s.maxSize && expired)
            && (result == Waiting <==> s.leased >= s.maxSize && !expired)
            && s'.leased == (if result == Connecting then s.leased + 1 else s.leased)
            && s'.connecting == (if result == Connecting then s.connecting + 1 else s.connecting)
            && s'.waiters == (if result == Waiting then s.waiters + 1 else s.waiters))
  {
    DiscardedTop(s.idle, usable);
    var rest := DiscardUnusable(s.idle, usable);
    forall i: nat | TopUsable(s.idle, usable, i) ensures rest != [] && i == |rest| - 1 {
      if rest != [] {
        OneTop(s.idle, usable, i, |rest| - 1);
      }
    }
    hide DiscardUnusable;
  }

  /** A woken thread takes the first connection handed over, and makes another pass without one. */
  lemma WakeMeaning(s: State, usable: set<Conn>, expired: bool)
    requires s.waiters > 0
    ensures var (s', result) := WakeStep(s, usable, expired);
      && Step(s, Wake(usable, expired)) == s' &&
      if s.handoffs != []
      then && result == Leased(s.handoffs[0]) && s'.handoffs == s.handoffs[1..]
           && s'.leases == s.leases + {s.handoffs[0]} && s'.waiters == s.waiters - 1
           && s'.idle == s.idle && s'.leased == s.leased && s'.connecting == s.connecting
      else (s', result) == AcquireStep(s.(waiters := s.waiters - 1), usable, expired)
  {
    hide AcquireStep;
  }

  /** A sound connection is back at once: for the next pass, or for the next to wake with nothing queued before it. */
  lemma SoundComesBack(s: State, c: Conn, usable: set<Conn>, expired: bool)
    requires Valid(s) && c in s.leases
    ensures var s' := Step(s, DropLease(c, false));
      && (s.waiters == 0 && c in usable ==> AcquireStep(s', usable, expired).1 == Leased(c))
      && (s.waiters > 0 && s.handoffs == [] ==> WakeStep(s', usable, expired).1 == Leased(c))
  {
    DropMeaning(s, c, false);
    var s' := Step(s, DropLease(c, false));
    if s.waiters == 0 {
      AcquireMeaning(s', usable, expired);
      assert c in usable ==> TopUsable(s'.idle, usable, |s.idle|);
    } else {
      WakeMeaning(s', usable, expired);
    }
    hide Step, Valid, AcquireStep, WakeStep;
  }

  /** A connect attempt ends: with a connection the pool never had before, or with its place free again. */
  lemma ConnectMeaning(s: State)
    requires Valid(s) && s.connecting > 0
    ensures var made := Step(s, ConnectOk);
      && made.connecting == s.connecting - 1 && made.leased == s.leased
      && made.idle == s.idle && made.handoffs == s.handoffs && made.waiters == s.waiters
      && exists c: Conn :: made.leases == s.leases + {c} && c !in s.leases && c !in s.idle && c !in s.handoffs
    ensures var failed := Step(s, ConnectFails);
      && failed.connecting == s.connecting - 1 && failed.leased == s.leased - 1
      && failed.idle == s.idle && failed.handoffs == s.handoffs && failed.waiters == s.waiters
      && failed.leases == s.leases
  {
    assert s.made !in s.leases && s.made !in s.idle && s.made !in s.handoffs;
    assert Step(s, ConnectOk).leases == s.leases + {s.made};
    assert s.leased > 0;
  }

  /** The mutex-protected fields, changed in place by each critical section. */
  class PoolShared {
    const maxSize: nat
    const canConnect: bool
    var idle: seq<Conn>
    var leased: nat
    var handoffs: seq<Conn>
    var waiters: nat
    ghost var leases: set<Conn>
    ghost var connecting: nat
    ghost var made: nat

    ghost function Abs(): State
      reads this
    {
      State(maxSize, canConnect, idle, leased, handoffs, waiters, leases, connecting, made)
    }

    constructor (maxSize: nat, seed: bool, canConnect: bool)
      requires maxSize >= 1
      ensures Abs() == Build(maxSize, seed, canConnect) && Valid(Abs())
      ensures this.maxSize == maxSize && this.canConnect == canConnect
      ensures |idle| == (if seed then 1 else 0) && leased == 0 && handoffs == [] && waiters == 0
    {
      this.maxSize, this.canConnect := maxSize, canConnect;
      idle := if seed then [0] else [];
      leased, handoffs, waiters := 0, [], 0;
      leases, connecting, made := {}, 0, if seed then 1 else 0;
      new;
      BuildIsValid(maxSize, seed, canConnect);
    }

    /** Pops idle connections until a usable one turns up. */
    method PopUsable(usable: set<Conn>) returns (found: Option<Conn>)
      modifies this`idle
      ensures var rest := DiscardUnusable(old(idle), usable);
        if rest == [] then found == None && idle == []
        else found == Some(rest[|rest| - 1]) && idle == rest[..|rest| - 1]
    {
      while idle != []
        invariant DiscardUnusable(idle, usable) == DiscardUnusable(old(idle), usable)
        decreases |idle|
      {
        var c := idle[|idle| - 1];
        idle := idle[..|idle| - 1];
        if c in usable {
          return Some(c);
        }
      }
      found := None;
    }

    /** One pass of the acquire loop under the lock. */
    method TryAcquire(usable: set<Conn>, expired: bool) returns (result: Acquired)
      requires Valid(Abs())
      modifies this
      ensures (Abs(), result) == AcquireStep(old(Abs()), usable, expired)
      ensures Valid(Abs())
    {
      hide Valid, OnePlaceEach, DiscardUnusable;
      AcquireKeepsValid(Abs(), usable, expired);
      var found := PopUsable(usable);
      if found.Some? {
        leased := leased + 1;
        leases := leases + {found.value};
        return Leased(found.value);
      }
      if leased < maxSize {
        if !canConnect {
          return NoFactory;
        }
        leased := leased + 1;
        connecting := connecting + 1;
        return Connecting;
      }
      if expired {
        return TimedOut;
      }
      waiters := waiters + 1;
      result := Waiting;
    }

    /** Back from the condition variable, still inside the acquire loop. */
    method Woken(usable: set<Conn>, expired: bool) returns (result: Acquired)
      requires Valid(Abs()) && waiters > 0
      modifies this
      ensures (Abs(), result) == WakeStep(old(Abs()), usable, expired)
      ensures Valid(Abs())
    {
      WakeKeepsValid(Abs(), usable, expired);
      assert handoffs == [] ==> Valid(Abs().(waiters := waiters - 1));
      hide Valid, OnePlaceEach, DiscardUnusable;
      waiters := waiters - 1;
      if handoffs != [] {
        var c := handoffs[0];
        handoffs := handoffs[1..];
        leases := leases + {c};
        return Leased(c);
      }
      assert Abs() == old(Abs()).(waiters := waiters);
      result := TryAcquire(usable, expired);
    }

    /** The pending slot commits: its connection becomes a lease, the counter stays. */
    method CommitConnect()
      requires Valid(Abs()) && connecting > 0
      modifies this
      ensures Abs() == ConnectOkStep(old(Abs())) && Valid(Abs())
    {
      ConnectKeepsValid(Abs());
      connecting, leases, made := connecting - 1, leases + {made}, made + 1;
    }

    /** The pending slot is dropped without a connection. */
    method DropPendingSlot()
      requires Valid(Abs()) && connecting > 0
      modifies this
      ensures Abs() == ConnectFailsStep(old(Abs())) && Valid(Abs())
      ensures leased == old(leased) - 1
    {
      ConnectKeepsValid(Abs());
      connecting := connecting - 1;
      leased := Saturating(leased);
    }

    /** A lease is dropped; a broken connection is discarded instead of returned. */
    method DropLeaseOf(c: Conn, broken: bool)
      requires Valid(Abs()) && c in leases
      modifies this
      ensures Abs() == DropStep(old(Abs()), c, broken) && Valid(Abs())
      ensures broken ==> c !in idle && c !in handoffs && c !in leases && leased == old(leased) - 1
      ensures !broken && waiters > 0 ==> handoffs == old(handoffs) + [c] && idle == old(idle)
      ensures !broken && waiters == 0 ==> idle == old(idle) + [c] && handoffs == old(handoffs)
    {
      DropKeepsValid(Abs(), c, broken);
      leases := leases - {c};
      if !broken {
        if waiters > 0 {
          handoffs := handoffs + [c];
          return;
        }
        leased := leased - 1;
        idle := idle + [c];
      } else {
        leased := leased - 1;
      }
    }
  }
}
