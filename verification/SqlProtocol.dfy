/**
 * The SQL append as a protocol. Any number of sessions run plain and idempotent appends;
 * the idempotency SELECT, the key reservation, the revision read and the insert with its
 * commit are separate steps that interleave freely. A session fails over once after a
 * transport error (the pool's retry), which may hide a commit that did happen, or one that
 * the server makes later, while the retry is already under way.
 */
module SqlProtocol {
  import opened Common
  import opened EventLog
  import opened SqlTable

  datatype Call<+Id, +E> =
    Call(key: Option<string>, id: Id, expected: ExpectedRevision, batch: seq<NewEvent<E>>)

  /** A row of the idempotency table. */
  datatype Record<+Id, +E> = PendingRow | CompleteRow(value: seq<Envelope<Id, E>>)

  datatype Outcome<+Id, +E> =
    | Committed(envelopes: seq<Envelope<Id, E>>)
    | Failed(error: StoreError)
    | KeyPending

  /** `attempt` is 1 for a call's first try and 2 for the pool's retry, with the same prepared events. */
  datatype Session<+Id, +E> =
    | Idle
    | Begun(call: Call<Id, E>, attempt: nat)
    | Selected(call: Call<Id, E>, attempt: nat)
    | Reserved(call: Call<Id, E>, attempt: nat)
    | RevisionRead(call: Call<Id, E>, attempt: nat, actual: nat)
    | Finished(call: Call<Id, E>, outcome: Outcome<Id, E>)
    | Answered(key: string, value: seq<Envelope<Id, E>>)

  /**
   * Tables, row locks on reserved keys, sessions; `issued` holds every event id generated
   * so far, `commits` and `purged` record what was committed and which keys were purged.
   */
  datatype Db<Id, E> = Db(
    rows: Log<Id, E>,
    records: map<string, Record<Id, E>>,
    locks: map<string, nat>,
    sessions: map<nat, Session<Id, E>>,
    issued: set<string>,
    commits: seq<Commit<Id, E>>,
    purged: set<string>)

  datatype Action<+Id, +E> =
    | Begin(session: nat, call: Call<Id, E>)
    | Lookup(session: nat, key: string)
    | SelectRecord(session: nat)
    | Reserve(session: nat)
    | ReadRevision(session: nat)
    | InsertCommit(
        session: nat, sequences: seq<nat>, rereadWorks: bool, revisionFirst: bool, hidden: bool, canRetry: bool)
    | TransportFailure(session: nat, canRetry: bool)
    | Detach(session: nat, orphan: nat, canRetry: bool)
    | Crash(session: nat)
    | Purge(purgedKey: string)

  function SessionOf<Id, E>(db: Db<Id, E>, w: nat): Session<Id, E> {
    if w in db.sessions then db.sessions[w] else Idle
  }

  /** Ends the transaction of session `w`: its row locks go, its state becomes `s`. */
  function Release<Id, E>(db: Db<Id, E>, w: nat, s: Session<Id, E>): Db<Id, E> {
    db.(locks := map k | k in db.locks && db.locks[k] != w :: db.locks[k], sessions := db.sessions[w := s])
  }

  /** A transport error: start over on a fresh connection once, then give up. */
  function FailOver<Id, E>(db: Db<Id, E>, w: nat, call: Call<Id, E>, attempt: nat, canRetry: bool): Db<Id, E> {
    Release(db, w, if attempt == 1 && canRetry then Begun(call, 2) else Finished(call, Failed(Transport)))
  }

  function BeginStep<Id, E>(db: Db<Id, E>, w: nat, call: Call<Id, E>): Db<Id, E> {
    var s := SessionOf(db, w);
    // Every call prepares its events anew: their ids are distinct and were never drawn before.
    // A caller that waited for a pending key calls again in the same way.
    if (s.Idle? || s.Finished? || s.Answered?) && DistinctIds(call.batch) && BatchIds(call.batch) !! db.issued
    then db.(sessions := db.sessions[w := Begun(call, 1)], issued := db.issued + BatchIds(call.batch))
    else db
  }

  function LookupStep<Id, E>(db: Db<Id, E>, w: nat, key: string): Db<Id, E> {
    var s := SessionOf(db, w);
    if (s.Idle? || s.Finished? || s.Answered?) && key in db.records && db.records[key].CompleteRow?
    then db.(sessions := db.sessions[w := Answered(key, db.records[key].value)])
    else db
  }

  function SelectStep<Id, E>(db: Db<Id, E>, w: nat): Db<Id, E> {
    var s := SessionOf(db, w);
    if !s.Begun? || s.call.key.None? then db
    else if s.call.key.value !in db.records then db.(sessions := db.sessions[w := Selected(s.call, s.attempt)])
    else match db.records[s.call.key.value]
      case CompleteRow(value) => Release(db, w, Finished(s.call, Committed(value)))
      case PendingRow => Release(db, w, Finished(s.call, KeyPending))
  }

  /** INSERT of the pending row: a unique violation, a wait on another's lock, or the lock. */
  function ReserveStep<Id, E>(db: Db<Id, E>, w: nat): Db<Id, E> {
    var s := SessionOf(db, w);
    if !s.Selected? || s.call.key.None? then db
    else if s.call.key.value in db.records then Release(db, w, Finished(s.call, KeyPending))
    else if s.call.key.value in db.locks then db
    else db.(locks := db.locks[s.call.key.value := w], sessions := db.sessions[w := Reserved(s.call, s.attempt)])
  }

  function ReadStep<Id(==), E>(db: Db<Id, E>, w: nat): Db<Id, E> {
    var s := SessionOf(db, w);
    if !(s.Reserved? || (s.Begun? && s.call.key.None?)) then db else
      var actual := MaxRevision(db.rows, s.call.id);
      match CheckExpected(s.call.expected, actual)
      case Some(conflict) => Release(db, w, Finished(s.call, Failed(Concurrency(conflict))))
      case None =>
        if s.call.batch == [] && s.call.key.None? then Release(db, w, Finished(s.call, Committed([])))
        else db.(sessions := db.sessions[w := RevisionRead(s.call, s.attempt, actual)])
  }

  /** The committed transaction: rows, and the completed record when a key was given. */
  function CommitRows<Id, E>(db: Db<Id, E>, call: Call<Id, E>, envelopes: Log<Id, E>): Db<Id, E> {
    db.(rows := db.rows + envelopes,
        records := if call.key.Some? then db.records[call.key.value := CompleteRow(envelopes)] else db.records,
        commits := db.commits + [Commit(call.key, call.id, envelopes)])
  }

  function InsertStep<Id(==), E>(db: Db<Id, E>, a: Action<Id, E>): Db<Id, E>
    requires a.InsertCommit?
  {
    var s := SessionOf(db, a.session);
    if !s.RevisionRead? || |a.sequences| != |s.call.batch| then db else
      match InsertResult(db.rows, s.call.id, s.call.expected, s.actual, s.call.batch, a.sequences,
                         a.rereadWorks, a.revisionFirst)
      case Err(error) => Release(db, a.session, Finished(s.call, Failed(error)))
      case Ok(envelopes) =>
        var committed := CommitRows(db, s.call, envelopes);
        if a.hidden then FailOver(committed, a.session, s.call, s.attempt, a.canRetry)
        else Release(committed, a.session, Finished(s.call, Committed(envelopes)))
  }

  /**
   * A transport error that leaves the transaction running on the server: the caller starts
   * over or gives up, while the transaction keeps its locks and may still commit. From here
   * on it is a session of its own, whose outcome nobody hears.
   */
  function DetachStep<Id, E>(db: Db<Id, E>, w: nat, orphan: nat, canRetry: bool): Db<Id, E> {
    var s := SessionOf(db, w);
    if !s.RevisionRead? || !SessionOf(db, orphan).Idle? then db else
      var detached := db.(
        locks := map k | k in db.locks :: if db.locks[k] == w then orphan else db.locks[k],
        sessions := db.sessions[orphan := RevisionRead(s.call, 2, s.actual)]);
      FailOver(detached, w, s.call, s.attempt, canRetry)
  }

  predicate InFlight<Id, E>(s: Session<Id, E>) {
    s.Begun? || s.Selected? || s.Reserved? || s.RevisionRead?
  }

  function Step<Id(==), E>(db: Db<Id, E>, a: Action<Id, E>): Db<Id, E> {
    match a
    case Begin(w, call) => BeginStep(db, w, call)
    case Lookup(w, key) => LookupStep(db, w, key)
    case SelectRecord(w) => SelectStep(db, w)
    case Reserve(w) => ReserveStep(db, w)
    case ReadRevision(w) => ReadStep(db, w)
    case InsertCommit(_, _, _, _, _, _) => InsertStep(db, a)
    case TransportFailure(w, canRetry) =>
      var s := SessionOf(db, w);
      if InFlight(s) then FailOver(db, w, s.call, s.attempt, canRetry) else db
    case Detach(w, orphan, canRetry) => DetachStep(db, w, orphan, canRetry)
    case Crash(w) => Release(db, w, Idle)
    case Purge(key) =>
      if key in db.records && db.records[key].CompleteRow?
      then db.(records := db.records - {key}, purged := db.purged + {key})
      else db
  }

  function Start<Id, E>(): Db<Id, E> {
    Db([], map[], map[], map[], {}, [], {})
  }

  ghost function Run<Id, E>(actions: seq<Action<Id, E>>): Db<Id, E> {
    FoldLeft(Step, Start(), actions)
  }

  // ---- the invariant ----

  ghost predicate TableOk<Id(!new), E>(db: Db<Id, E>) {
    && Ranked(db.rows)
    && UniqueEventIds(db.rows)
    && RowIds(db.rows) <= db.issued
    && db.rows == Flatten(db.commits)
  }

  /** No pending row is ever visible; an unpurged key has one commit and its record, or neither. */
  ghost predicate KeyOk<Id, E>(db: Db<Id, E>, key: string) {
    && (key in db.records ==> db.records[key].CompleteRow?)
    && (key !in db.purged ==>
          if key in db.records
          then |KeyCommits(db.commits, key)| == 1 && KeyCommits(db.commits, key)[0].envelopes == db.records[key].value
          else KeyCommits(db.commits, key) == [])
  }

  function SessionIds<Id, E>(s: Session<Id, E>): set<string> {
    if s.Idle? || s.Answered? then {} else BatchIds(s.call.batch)
  }

  /** A call's first try, still under way. */
  predicate FirstTry<Id, E>(s: Session<Id, E>) {
    InFlight(s) && s.attempt == 1
  }

  /** Two sessions have no event id in common, unless both go back to one call that was tried before. */
  ghost predicate Apart<Id, E>(s: Session<Id, E>, t: Session<Id, E>) {
    || SessionIds(s) !! SessionIds(t)
    || (SessionIds(s) == SessionIds(t) && !FirstTry(s) && !FirstTry(t))
  }

  ghost predicate AllOrNothing<Id, E>(db: Db<Id, E>, ids: set<string>) {
    ids <= RowIds(db.rows) || ids !! RowIds(db.rows)
  }

  /** The key's completed record is `value`. */
  ghost predicate AnsweredBy<Id, E>(db: Db<Id, E>, key: string, value: Log<Id, E>) {
    key !in db.purged ==> key in db.records && db.records[key] == CompleteRow(value)
  }

  /** `value` is the batch, each event sealed into a row of the table. */
  ghost predicate BatchStored<Id, E>(db: Db<Id, E>, call: Call<Id, E>, value: Log<Id, E>) {
    && |value| == |call.batch|
    && forall i | 0 <= i < |value| ::
         value[i] in db.rows && value[i].eventId == call.batch[i].eventId
         && value[i].event == call.batch[i].event && value[i].aggregateId == call.id
  }

  ghost predicate Holds<Id, E>(db: Db<Id, E>, w: nat, call: Call<Id, E>) {
    call.key.Some? ==> call.key.value in db.locks && db.locks[call.key.value] == w
  }

  ghost predicate SessionOk<Id(!new), E>(db: Db<Id, E>, w: nat, s: Session<Id, E>) {
    && SessionIds(s) <= db.issued
    && AllOrNothing(db, SessionIds(s))
    && (!s.Idle? && !s.Answered? ==> DistinctIds(s.call.batch))
    && (InFlight(s) ==> 1 <= s.attempt <= 2)
    && (FirstTry(s) ==> SessionIds(s) !! RowIds(db.rows))
    && match s
       case Idle => true
       case Begun(_, _) => true
       case Selected(call, _) => call.key.Some?
       case Reserved(call, _) => call.key.Some? && Holds(db, w, call)
       case RevisionRead(call, _, actual) =>
         && Holds(db, w, call)
         && actual <= Revision(db.rows, call.id)
         && CheckExpected(call.expected, actual).None?
         && (call.key.None? ==> call.batch != [])
       case Finished(call, outcome) =>
         outcome.Committed? ==>
           if call.key.Some? then AnsweredBy(db, call.key.value, outcome.envelopes)
           else BatchStored(db, call, outcome.envelopes)
       case Answered(key, value) => AnsweredBy(db, key, value)
  }

  ghost predicate LockOk<Id, E>(db: Db<Id, E>, key: string) {
    key in db.locks ==>
      && key !in db.records
      && var s := SessionOf(db, db.locks[key]); (s.Reserved? || s.RevisionRead?) && s.call.key == Some(key)
  }

  ghost predicate SessionsApart<Id, E>(db: Db<Id, E>) {
    forall v, w | v != w :: Apart(SessionOf(db, v), SessionOf(db, w))
  }

  ghost predicate Inv<Id(!new), E>(db: Db<Id, E>) {
    && TableOk(db)
    && (forall key :: KeyOk(db, key))
    && (forall key :: LockOk(db, key))
    && (forall w :: SessionOk(db, w, SessionOf(db, w)))
    && SessionsApart(db)
  }

  /** How one step of session `w` may change what the other sessions rely on. */
  ghost predicate Frame<Id(!new), E>(db: Db<Id, E>, db': Db<Id, E>, w: nat) {
    && (forall v | v != w :: SessionOf(db', v) == SessionOf(db, v))
    && db.rows <= db'.rows
    && (|| RowIds(db'.rows) == RowIds(db.rows)
        || RowIds(db'.rows) == RowIds(db.rows) + SessionIds(SessionOf(db, w)))
    && (forall key | key in db.records && key !in db'.purged ::
          key in db'.records && db'.records[key] == db.records[key])
    && (forall key | key in db.locks && db.locks[key] != w :: key in db'.locks && db'.locks[key] == db.locks[key])
    && db.issued <= db'.issued && db.purged <= db'.purged
  }

  lemma RowsGrow<Id(!new), E>(a: Log<Id, E>, b: Log<Id, E>, id: Id)
    requires a <= b
    ensures RowIds(a) <= RowIds(b)
    ensures Revision(a, id) <= Revision(b, id)
    ensures forall x | x in a :: x in b
  {
    assert b == a + b[|a|..];
    RowIdsConcat(a, b[|a|..]);
    StreamConcat(a, b[|a|..], id);
  }

  lemma OtherSessionKept<Id(!new), E>(db: Db<Id, E>, db': Db<Id, E>, w: nat, v: nat)
    requires Frame(db, db', w) && v != w
    requires SessionOk(db, v, SessionOf(db, v))
    requires Apart(SessionOf(db, v), SessionOf(db, w))
    ensures SessionOk(db', v, SessionOf(db', v))
  {
    var s := SessionOf(db, v);
    if !s.Idle? && !s.Answered? {
      RowsGrow(db.rows, db'.rows, s.call.id);
    }
  }

  /** A session goes on with its call, or leaves it for one whose events are all new. */
  ghost predicate Succeeds<Id, E>(s: Session<Id, E>, s': Session<Id, E>, unused: set<string>) {
    || (SessionIds(s') == SessionIds(s) && (FirstTry(s') ==> FirstTry(s)))
    || SessionIds(s') <= unused
  }

  /** Assembles the invariant after a step of session `w`. */
  lemma FrameKeepsInv<Id(!new), E>(db: Db<Id, E>, db': Db<Id, E>, w: nat)
    requires Inv(db) && Frame(db, db', w)
    requires TableOk(db') && (forall key :: KeyOk(db', key)) && (forall key :: LockOk(db', key))
    requires SessionOk(db', w, SessionOf(db', w))
    requires Succeeds(SessionOf(db, w), SessionOf(db', w), db'.issued - db.issued)
    ensures Inv(db')
  {
    forall v | v != w ensures SessionOk(db', v, SessionOf(db', v)) {
      assert SessionOk(db, v, SessionOf(db, v));
      assert Apart(SessionOf(db, v), SessionOf(db, w));
      OtherSessionKept(db, db', w, v);
    }
    forall v | v != w ensures Apart(SessionOf(db', v), SessionOf(db', w)) {
      assert SessionOk(db, v, SessionOf(db, v));
      assert Apart(SessionOf(db, v), SessionOf(db, w));
    }
    forall u, v | u != v ensures Apart(SessionOf(db', u), SessionOf(db', v)) {
      if u != w && v != w {
        assert Apart(SessionOf(db, u), SessionOf(db, v));
      }
    }
  }

  /** Steps that leave tables alone and at most drop the session's own locks. */
  lemma QuietStepKeepsInv<Id(!new), E>(db: Db<Id, E>, w: nat, s: Session<Id, E>)
    requires Inv(db)
    requires SessionOk(Release(db, w, s), w, s)
    requires Succeeds(SessionOf(db, w), s, {})
    ensures Inv(Release(db, w, s))
  {
    hide Ranked, UniqueEventIds, RowIds, KeyCommits, Flatten, Stream, MaxRevision;
    var db' := Release(db, w, s);
    forall key ensures KeyOk(db', key) { assert KeyOk(db, key); }
    forall key ensures LockOk(db', key) { assert LockOk(db, key); }
    FrameKeepsInv(db, db', w);
  }

  lemma FailOverKeepsInv<Id(!new), E>(db: Db<Id, E>, w: nat, canRetry: bool)
    requires Inv(db) && InFlight(SessionOf(db, w))
    ensures Inv(FailOver(db, w, SessionOf(db, w).call, SessionOf(db, w).attempt, canRetry))
  {
    var s := SessionOf(db, w);
    assert SessionOk(db, w, s);
    QuietStepKeepsInv(db, w,
      if s.attempt == 1 && canRetry then Begun(s.call, 2) else Finished(s.call, Failed(Transport)));
  }

  /** The detached transaction keeps what its session relied on; its caller needs nothing. */
  lemma DetachKeepsSession<Id(!new), E>(db: Db<Id, E>, w: nat, orphan: nat, canRetry: bool, v: nat)
    requires SessionOk(db, v, SessionOf(db, v)) && SessionOk(db, w, SessionOf(db, w))
    ensures var db' := DetachStep(db, w, orphan, canRetry); SessionOk(db', v, SessionOf(db', v))
  {
    hide Ranked, UniqueEventIds, RowIds, Stream, MaxRevision, BatchIds, DistinctIds, CheckExpected;
    var s := SessionOf(db, w);
    var db' := DetachStep(db, w, orphan, canRetry);
    if db' != db {
      var t := SessionOf(db', v);
      assert v != w && v != orphan ==> t == SessionOf(db, v);
      assert v == orphan ==> t == RevisionRead(s.call, 2, s.actual);
      assert v == w ==> t == Begun(s.call, 2) || t == Finished(s.call, Failed(Transport));
    }
  }

  lemma DetachKeepsApart<Id(!new), E>(db: Db<Id, E>, w: nat, orphan: nat, canRetry: bool, u: nat, v: nat)
    requires SessionsApart(db) && u != v
    ensures var db' := DetachStep(db, w, orphan, canRetry); Apart(SessionOf(db', u), SessionOf(db', v))
  {
    hide BatchIds;
    assert u != w ==> Apart(SessionOf(db, u), SessionOf(db, w));
    assert v != w ==> Apart(SessionOf(db, w), SessionOf(db, v));
    assert Apart(SessionOf(db, u), SessionOf(db, v));
  }

  lemma DetachKeepsInv<Id(!new), E>(db: Db<Id, E>, w: nat, orphan: nat, canRetry: bool)
    requires Inv(db)
    ensures Inv(DetachStep(db, w, orphan, canRetry))
  {
    var db' := DetachStep(db, w, orphan, canRetry);
    hide Ranked, UniqueEventIds, RowIds, KeyCommits, Flatten, SessionOk, Apart;
    forall key ensures KeyOk(db', key) { assert KeyOk(db, key); }
    forall key ensures LockOk(db', key) { assert LockOk(db, key); }
    forall v ensures SessionOk(db', v, SessionOf(db', v)) {
      assert SessionOk(db, v, SessionOf(db, v)) && SessionOk(db, w, SessionOf(db, w));
      DetachKeepsSession(db, w, orphan, canRetry, v);
    }
    forall u, v | u != v ensures Apart(SessionOf(db', u), SessionOf(db', v)) {
      DetachKeepsApart(db, w, orphan, canRetry, u, v);
    }
  }

  lemma BeginKeepsInv<Id(!new), E>(db: Db<Id, E>, w: nat, call: Call<Id, E>)
    requires Inv(db)
    ensures Inv(BeginStep(db, w, call))
  {
    hide Ranked, UniqueEventIds, RowIds, KeyCommits, Flatten, Stream, MaxRevision;
    var db' := BeginStep(db, w, call);
    if db' != db {
      forall key ensures KeyOk(db', key) { assert KeyOk(db, key); }
      forall key ensures LockOk(db', key) { assert LockOk(db, key); }
      FrameKeepsInv(db, db', w);
    }
  }

  lemma LookupKeepsInv<Id(!new), E>(db: Db<Id, E>, w: nat, key: string)
    requires Inv(db)
    ensures Inv(LookupStep(db, w, key))
  {
    hide Ranked, UniqueEventIds, RowIds, KeyCommits, Flatten, Stream, MaxRevision;
    var db' := LookupStep(db, w, key);
    if db' != db {
      forall k ensures KeyOk(db', k) { assert KeyOk(db, k); }
      forall k ensures LockOk(db', k) { assert LockOk(db, k); }
      FrameKeepsInv(db, db', w);
    }
  }

  lemma SelectKeepsInv<Id(!new), E>(db: Db<Id, E>, w: nat)
    requires Inv(db)
    ensures Inv(SelectStep(db, w))
  {
    hide Ranked, UniqueEventIds, RowIds, KeyCommits, Flatten, Stream, MaxRevision;
    var s := SessionOf(db, w);
    assert SessionOk(db, w, s);
    if s.Begun? && s.call.key.Some? {
      if s.call.key.value in db.records {
        assert KeyOk(db, s.call.key.value);
        QuietStepKeepsInv(db, w, Finished(s.call, Committed(db.records[s.call.key.value].value)));
      } else {
        var db' := SelectStep(db, w);
        forall k ensures KeyOk(db', k) { assert KeyOk(db, k); }
        forall k ensures LockOk(db', k) { assert LockOk(db, k); }
        FrameKeepsInv(db, db', w);
      }
    }
  }

  lemma ReserveKeepsInv<Id(!new), E>(db: Db<Id, E>, w: nat)
    requires Inv(db)
    ensures Inv(ReserveStep(db, w))
  {
    hide Ranked, UniqueEventIds, RowIds, KeyCommits, Flatten, Stream, MaxRevision;
    var s := SessionOf(db, w);
    assert SessionOk(db, w, s);
    if s.Selected? {
      if s.call.key.value in db.records {
        QuietStepKeepsInv(db, w, Finished(s.call, KeyPending));
      } else if s.call.key.value !in db.locks {
        var db' := ReserveStep(db, w);
        forall k ensures KeyOk(db', k) { assert KeyOk(db, k); }
        forall k ensures LockOk(db', k) { assert LockOk(db, k); }
        FrameKeepsInv(db, db', w);
      }
    }
  }

  /** A step that only moves session `w` on within its transaction. */
  lemma SameTablesKeepInv<Id(!new), E>(db: Db<Id, E>, w: nat, s: Session<Id, E>)
    requires Inv(db)
    requires var db' := db.(sessions := db.sessions[w := s]);
      SessionOk(db', w, s) && (forall key :: LockOk(db', key))
    requires Succeeds(SessionOf(db, w), s, {})
    ensures Inv(db.(sessions := db.sessions[w := s]))
  {
    hide Ranked, UniqueEventIds, RowIds, KeyCommits, Flatten, Stream, SessionOk, LockOk, SessionIds;
    var db' := db.(sessions := db.sessions[w := s]);
    forall k ensures KeyOk(db', k) { assert KeyOk(db, k); }
    FrameKeepsInv(db, db', w);
  }

  lemma RevisionReadSession<Id(!new), E>(db: Db<Id, E>, w: nat)
    requires Ranked(db.rows) && SessionOk(db, w, SessionOf(db, w))
    requires var s := SessionOf(db, w);
      && (s.Reserved? || (s.Begun? && s.call.key.None? && s.call.batch != []))
      && CheckExpected(s.call.expected, MaxRevision(db.rows, s.call.id)).None?
    ensures var s := SessionOf(ReadStep(db, w), w);
      && ReadStep(db, w) == db.(sessions := db.sessions[w := s])
      && s == RevisionRead(SessionOf(db, w).call, SessionOf(db, w).attempt, s.actual)
      && SessionOk(ReadStep(db, w), w, s)
  {
    hide Ranked, RowIds, Stream, MaxRevision, BatchIds;
    MaxRevisionIsLength(db.rows, SessionOf(db, w).call.id);
  }

  /** The session goes on to its insert. */
  lemma RevisionReadKeepsInv<Id(!new), E>(db: Db<Id, E>, w: nat)
    requires Inv(db)
    requires var s := SessionOf(db, w);
      && (s.Reserved? || (s.Begun? && s.call.key.None? && s.call.batch != []))
      && CheckExpected(s.call.expected, MaxRevision(db.rows, s.call.id)).None?
    ensures Inv(ReadStep(db, w))
  {
    hide Ranked, UniqueEventIds, RowIds, KeyCommits, Flatten, Stream, MaxRevision, SessionOk;
    var db' := ReadStep(db, w);
    assert SessionOk(db, w, SessionOf(db, w));
    RevisionReadSession(db, w);
    forall k ensures LockOk(db', k) { assert LockOk(db, k); }
    SameTablesKeepInv(db, w, SessionOf(db', w));
  }

  lemma ReadKeepsInv<Id(!new), E>(db: Db<Id, E>, w: nat)
    requires Inv(db)
    ensures Inv(ReadStep(db, w))
  {
    hide Ranked, UniqueEventIds, RowIds, KeyCommits, Flatten, Stream, MaxRevision;
    var s := SessionOf(db, w);
    assert SessionOk(db, w, s);
    if s.Reserved? || (s.Begun? && s.call.key.None?) {
      match CheckExpected(s.call.expected, MaxRevision(db.rows, s.call.id))
      case Some(conflict) => QuietStepKeepsInv(db, w, Finished(s.call, Failed(Concurrency(conflict))));
      case None =>
        if s.call.batch == [] && s.call.key.None? {
          QuietStepKeepsInv(db, w, Finished(s.call, Committed([])));
        } else {
          RevisionReadKeepsInv(db, w);
        }
    }
  }

  lemma PurgeKeepsInv<Id(!new), E>(db: Db<Id, E>, key: string)
    requires Inv(db)
    ensures Inv(Step(db, Purge(key)))
  {
    hide Ranked, UniqueEventIds, RowIds, KeyCommits, Flatten, Stream, MaxRevision;
    var db' := Step(db, Purge(key));
    forall k ensures KeyOk(db', k) { assert KeyOk(db, k); }
    forall k ensures LockOk(db', k) { assert LockOk(db, k); }
    forall w ensures SessionOk(db', w, SessionOf(db', w)) { assert SessionOk(db, w, SessionOf(db, w)); }
    assert SessionsApart(db') by {
      forall u, v | u != v ensures Apart(SessionOf(db', u), SessionOf(db', v)) {
        assert SessionOf(db', u) == SessionOf(db, u) && SessionOf(db', v) == SessionOf(db, v);
      }
    }
  }

  // ---- the insert with its commit ----

  /** A clean insert happens only at the present revision (unless the batch is empty). */
  lemma CleanInsertIsCurrent<Id(!new), E>(db: Db<Id, E>, w: nat)
    requires Inv(db) && SessionOf(db, w).RevisionRead?
    requires var s := SessionOf(db, w);
      s.call.batch != [] && !RevisionClash(db.rows, s.call.id, s.actual, |s.call.batch|)
    ensures SessionOf(db, w).actual == Revision(db.rows, SessionOf(db, w).call.id)
  {
    var s := SessionOf(db, w);
    assert SessionOk(db, w, s);
    ClashIffStale(db.rows, s.call.id, s.actual, |s.call.batch|);
  }

  lemma InsertKeepsTable<Id(!new), E>(db: Db<Id, E>, w: nat, sequences: seq<nat>)
    requires Inv(db) && SessionOf(db, w).RevisionRead?
    requires var s := SessionOf(db, w);
      && |sequences| == |s.call.batch|
      && !RevisionClash(db.rows, s.call.id, s.actual, |s.call.batch|)
      && RowIds(db.rows) !! BatchIds(s.call.batch)
    ensures var s := SessionOf(db, w);
      TableOk(CommitRows(db, s.call, Envelopes(s.call.id, s.actual, s.call.batch, sequences)))
  {
    var s := SessionOf(db, w);
    assert SessionOk(db, w, s);
    var envelopes := Envelopes(s.call.id, s.actual, s.call.batch, sequences);
    var commit := Commit(s.call.key, s.call.id, envelopes);
    assert (db.commits + [commit])[..|db.commits|] == db.commits;
    InsertKeepsUnique(db.rows, s.call.id, s.actual, s.call.batch, sequences);
    RowIdsConcat(db.rows, envelopes);
    RowIdsOfBatch(s.call.id, s.actual, s.call.batch, sequences);
    if s.call.batch == [] {
      assert db.rows + envelopes == db.rows;
    } else {
      CleanInsertIsCurrent(db, w);
      EnvelopesOwned(s.call.id, s.actual, s.call.batch, sequences);
      RankedAppend(db.rows, s.call.id, envelopes);
    }
  }

  lemma InsertKeepsKeys<Id(!new), E>(db: Db<Id, E>, w: nat, envelopes: Log<Id, E>, key: string)
    requires SessionOf(db, w).RevisionRead?
    requires KeyOk(db, key) && LockOk(db, key) && SessionOk(db, w, SessionOf(db, w))
    ensures KeyOk(CommitRows(db, SessionOf(db, w).call, envelopes), key)
  {
    var s := SessionOf(db, w);
    var commit := Commit(s.call.key, s.call.id, envelopes);
    FilterConcat(db.commits, [commit], (c: Commit<Id, E>) => c.key == Some(key));
    FilterAllOrNone([commit], (c: Commit<Id, E>) => c.key == Some(key));
    assert [commit][0] == commit;
    if s.call.key == Some(key) && key !in db.purged {
      assert KeyCommits(db.commits, key) == [];
      assert KeyCommits(db.commits + [commit], key) == [commit];
    }
  }

  lemma StoredBatch<Id, E>(db: Db<Id, E>, call: Call<Id, E>, base: nat, sequences: seq<nat>)
    requires |sequences| == |call.batch|
    ensures var envelopes := Envelopes(call.id, base, call.batch, sequences);
      BatchStored(CommitRows(db, call, envelopes), call, envelopes)
  {
    var envelopes := Envelopes(call.id, base, call.batch, sequences);
    forall i | 0 <= i < |envelopes| ensures envelopes[i] in db.rows + envelopes {
      assert (db.rows + envelopes)[|db.rows| + i] == envelopes[i];
    }
  }

  /** What the commit needs of the session and the batch. */
  ghost predicate CleanInsert<Id, E>(db: Db<Id, E>, w: nat, sequences: seq<nat>) {
    && SessionOf(db, w).RevisionRead?
    && var s := SessionOf(db, w);
      && |sequences| == |s.call.batch|
      && !RevisionClash(db.rows, s.call.id, s.actual, |s.call.batch|)
      && RowIds(db.rows) !! BatchIds(s.call.batch)
  }

  /** The database after a commit that leaves session `w` at `s'`. */
  function Committing<Id, E>(db: Db<Id, E>, w: nat, sequences: seq<nat>, s': Session<Id, E>): Db<Id, E>
    requires SessionOf(db, w).RevisionRead? && |sequences| == |SessionOf(db, w).call.batch|
  {
    var s := SessionOf(db, w);
    Release(CommitRows(db, s.call, Envelopes(s.call.id, s.actual, s.call.batch, sequences)), w, s')
  }

  /** Where a commit can leave its session: told, not told and trying again, or not told and giving up. */
  ghost predicate AfterCommit<Id, E>(db: Db<Id, E>, w: nat, sequences: seq<nat>, s': Session<Id, E>)
    requires SessionOf(db, w).RevisionRead? && |sequences| == |SessionOf(db, w).call.batch|
  {
    var s := SessionOf(db, w);
    || s' == Begun(s.call, 2)
    || s' == Finished(s.call, Failed(Transport))
    || s' == Finished(s.call, Committed(Envelopes(s.call.id, s.actual, s.call.batch, sequences)))
  }

  lemma CommittedIds<Id, E>(db: Db<Id, E>, w: nat, sequences: seq<nat>)
    requires SessionOf(db, w).RevisionRead? && |sequences| == |SessionOf(db, w).call.batch|
    ensures var s := SessionOf(db, w); var envelopes := Envelopes(s.call.id, s.actual, s.call.batch, sequences);
      && RowIds(envelopes) == SessionIds(s)
      && RowIds(db.rows + envelopes) == RowIds(db.rows) + SessionIds(s)
  {
    var s := SessionOf(db, w);
    RowIdsConcat(db.rows, Envelopes(s.call.id, s.actual, s.call.batch, sequences));
    RowIdsOfBatch(s.call.id, s.actual, s.call.batch, sequences);
  }

  lemma CommittedSession<Id(!new), E>(db: Db<Id, E>, w: nat, sequences: seq<nat>, s': Session<Id, E>)
    requires Inv(db) && CleanInsert(db, w, sequences) && AfterCommit(db, w, sequences, s')
    ensures SessionOk(Committing(db, w, sequences, s'), w, s')
  {
    var s := SessionOf(db, w);
    assert SessionOk(db, w, s);
    hide Inv, TableOk, KeyOk, LockOk, RevisionClash, Envelopes, RowIds, BatchIds, DistinctIds;
    CommittedIds(db, w, sequences);
    StoredBatch(db, s.call, s.actual, sequences);
  }

  lemma CommitFrame<Id(!new), E>(db: Db<Id, E>, w: nat, envelopes: Log<Id, E>, s': Session<Id, E>)
    requires Inv(db) && SessionOf(db, w).RevisionRead?
    requires RowIds(envelopes) == SessionIds(SessionOf(db, w))
    ensures Frame(db, Release(CommitRows(db, SessionOf(db, w).call, envelopes), w, s'), w)
  {
    hide Ranked, UniqueEventIds, KeyCommits, Flatten, Stream, MaxRevision, RowIds;
    var call := SessionOf(db, w).call;
    assert SessionOk(db, w, SessionOf(db, w));
    RowIdsConcat(db.rows, envelopes);
    if call.key.Some? {
      assert LockOk(db, call.key.value);
    }
  }

  /** The session held the key, so the commit is the first under it, and its lock goes. */
  lemma CommitKeepsKey<Id(!new), E>(db: Db<Id, E>, w: nat, sequences: seq<nat>, s': Session<Id, E>, key: string)
    requires CleanInsert(db, w, sequences)
    requires KeyOk(db, key) && LockOk(db, key) && SessionOk(db, w, SessionOf(db, w))
    ensures var db' := Committing(db, w, sequences, s'); KeyOk(db', key) && LockOk(db', key)
  {
    var s := SessionOf(db, w);
    assert Holds(db, w, s.call);
    hide SessionOk, KeyCommits, Ranked, UniqueEventIds, RowIds, RevisionClash, BatchIds, Envelopes;
    var envelopes := Envelopes(s.call.id, s.actual, s.call.batch, sequences);
    InsertKeepsKeys(db, w, envelopes, key);
    assert KeyOk(CommitRows(db, s.call, envelopes), key);
  }

  lemma CommitKeepsInv<Id(!new), E>(db: Db<Id, E>, w: nat, sequences: seq<nat>, s': Session<Id, E>)
    requires Inv(db) && CleanInsert(db, w, sequences) && AfterCommit(db, w, sequences, s')
    ensures Inv(Committing(db, w, sequences, s'))
  {
    var s := SessionOf(db, w);
    var db' := Committing(db, w, sequences, s');
    hide SessionOk, KeyOk, LockOk, Ranked, UniqueEventIds, RowIds, Flatten, RevisionClash, BatchIds, Envelopes;
    assert SessionOk(db, w, s);
    CommittedSession(db, w, sequences, s');
    CommittedIds(db, w, sequences);
    InsertKeepsTable(db, w, sequences);
    forall key ensures KeyOk(db', key) && LockOk(db', key) {
      assert KeyOk(db, key) && LockOk(db, key);
      CommitKeepsKey(db, w, sequences, s', key);
    }
    CommitFrame(db, w, Envelopes(s.call.id, s.actual, s.call.batch, sequences), s');
    FrameKeepsInv(db, db', w);
  }

  lemma InsertKeepsInv<Id(!new), E>(db: Db<Id, E>, a: Action<Id, E>)
    requires Inv(db) && a.InsertCommit?
    ensures Inv(InsertStep(db, a))
  {
    hide Ranked, UniqueEventIds, RowIds, KeyCommits, Flatten, Stream, MaxRevision;
    var w := a.session;
    var s := SessionOf(db, w);
    if s.RevisionRead? && |a.sequences| == |s.call.batch| {
      assert SessionOk(db, w, s);
      match InsertResult(db.rows, s.call.id, s.call.expected, s.actual, s.call.batch, a.sequences,
                         a.rereadWorks, a.revisionFirst)
      case Err(error) => QuietStepKeepsInv(db, w, Finished(s.call, Failed(error)));
      case Ok(envelopes) =>
        CommitKeepsInv(db, w, a.sequences,
          if !a.hidden then Finished(s.call, Committed(envelopes))
          else if s.attempt == 1 && a.canRetry then Begun(s.call, 2)
          else Finished(s.call, Failed(Transport)));
    }
  }

  lemma StepKeepsInv<Id(!new), E>(db: Db<Id, E>, a: Action<Id, E>)
    requires Inv(db)
    ensures Inv(Step(db, a))
  {
    match a
    case Begin(w, call) => BeginKeepsInv(db, w, call);
    case Lookup(w, key) => LookupKeepsInv(db, w, key);
    case SelectRecord(w) => SelectKeepsInv(db, w);
    case Reserve(w) => ReserveKeepsInv(db, w);
    case ReadRevision(w) => ReadKeepsInv(db, w);
    case InsertCommit(_, _, _, _, _, _) => InsertKeepsInv(db, a);
    case TransportFailure(w, canRetry) => if InFlight(SessionOf(db, w)) { FailOverKeepsInv(db, w, canRetry); }
    case Detach(w, orphan, canRetry) => DetachKeepsInv(db, w, orphan, canRetry);
    case Crash(w) => QuietStepKeepsInv(db, w, Idle);
    case Purge(key) => PurgeKeepsInv(db, key);
  }

  lemma {:induction false} RunKeepsInv<Id(!new), E>(actions: seq<Action<Id, E>>)
    ensures Inv(Run(actions))
  {
    if actions != [] {
      RunKeepsInv(actions[..|actions| - 1]);
      StepKeepsInv(Run(actions[..|actions| - 1]), actions[|actions| - 1]);
    }
  }

  // ---- main results, for every run ----

  /** Revisions of every stream are exactly 1..n, in commit order. */
  lemma RevisionsExact<Id(!new), E>(actions: seq<Action<Id, E>>, id: Id, k: nat)
    requires k < Revision(Run(actions).rows, id)
    ensures Stream(Run(actions).rows, id)[k].revision == k + 1
    ensures MaxRevision(Run(actions).rows, id) == Revision(Run(actions).rows, id)
  {
    RunKeepsInv(actions);
    StreamRevisions(Run(actions).rows, id, k);
    MaxRevisionIsLength(Run(actions).rows, id);
  }

  /** The answer the atomic append would give this call now. */
  ghost function AtomicAnswer<Id(!new), E>(db: Db<Id, E>, call: Call<Id, E>): AppendResult<Id, E> {
    Append(db.rows, call.id, call.expected, call.batch, Consecutive(1, |call.batch|)).1
  }

  /** Both tables and the commits are as they were, and no other session changed. */
  ghost predicate OnlySession<Id, E>(db: Db<Id, E>, db': Db<Id, E>, w: nat) {
    && db'.rows == db.rows && db'.records == db.records && db'.commits == db.commits && db'.purged == db.purged
    && (forall v: nat | v != w :: SessionOf(db', v) == SessionOf(db, v))
  }

  /**
   * The revision read refuses exactly what the atomic append refuses now, with its error,
   * and answers an empty plain append as it does; everything else goes on to the insert.
   */
  ghost predicate ReadAnswers<Id(!new), E>(db: Db<Id, E>, w: nat, db': Db<Id, E>) {
    var s := SessionOf(db, w);
    && OnlySession(db, db', w)
    && (s.Reserved? || (s.Begun? && s.call.key.None?) ==>
          SessionOf(db', w) ==
          match AtomicAnswer(db, s.call)
          case Err(conflict) => Finished(s.call, Failed(Concurrency(conflict)))
          case Ok(envelopes) =>
            if s.call.batch == [] && s.call.key.None? then Finished(s.call, Committed(envelopes))
            else RevisionRead(s.call, s.attempt, Revision(db.rows, s.call.id)))
  }

  /** After a transport error a first try starts over with the same call, if it can; any other call has failed. */
  ghost predicate GoesOver<Id, E>(s: Session<Id, E>, canRetry: bool, after: Session<Id, E>)
    requires InFlight(s)
  {
    if s.attempt == 1 && canRetry then after == Begun(s.call, 2) else after == Finished(s.call, Failed(Transport))
  }

  /** The insert commits `value` for its session, leaving the rows at `log`, and says so unless the report is lost. */
  ghost predicate Commits<Id, E>(
    db: Db<Id, E>, a: Action<Id, E>, db': Db<Id, E>, log: Log<Id, E>, value: Log<Id, E>)
    requires a.InsertCommit? && SessionOf(db, a.session).RevisionRead?
  {
    var call, after := SessionOf(db, a.session).call, SessionOf(db', a.session);
    && db'.rows == log
    && db'.records == (if call.key.Some? then db.records[call.key.value := CompleteRow(value)] else db.records)
    && db'.commits == db.commits + [Commit(call.key, call.id, value)]
    && (if a.hidden then GoesOver(SessionOf(db, a.session), a.canRetry, after)
        else after == Finished(call, Committed(value)))
  }

  /** The insert changes neither table, and its session waits on or failed. */
  ghost predicate ChangesNothing<Id, E>(db: Db<Id, E>, a: Action<Id, E>, db': Db<Id, E>)
    requires a.InsertCommit?
  {
    var after := SessionOf(db', a.session);
    && db'.rows == db.rows && db'.records == db.records && db'.commits == db.commits
    && (after == SessionOf(db, a.session) || (after.Finished? && after.outcome.Failed?))
  }

  /**
   * An insert changes nothing, or makes the atomic append's commit of this moment, or (for
   * a keyed call without events) makes the empty commit that the atomic append would have
   * made when the revision was read.
   */
  ghost predicate InsertSimulates<Id(!new), E>(db: Db<Id, E>, a: Action<Id, E>, db': Db<Id, E>)
    requires a.InsertCommit?
  {
    || ChangesNothing(db, a, db')
    || (&& SessionOf(db, a.session).RevisionRead?
        && var RevisionRead(call, _, actual) := SessionOf(db, a.session);
          && |a.sequences| == |call.batch|
          && var (log, result) := Append(db.rows, call.id, call.expected, call.batch, a.sequences);
            || (result.Ok? && Commits(db, a, db', log, result.value))
            || (call.batch == [] && call.key.Some? && CheckExpected(call.expected, actual).None?
                && Commits(db, a, db', db.rows, [])))
  }

  lemma CurrentReadAnswers<Id(!new), E>(db: Db<Id, E>, w: nat)
    requires Ranked(db.rows)
    ensures ReadAnswers(db, w, Step(db, ReadRevision(w)))
  {
    hide MaxRevision, Stream, Ranked, Envelopes;
    var s := SessionOf(db, w);
    if s.Reserved? || (s.Begun? && s.call.key.None?) {
      MaxRevisionIsLength(db.rows, s.call.id);
    }
  }

  lemma ReadsAtomically<Id(!new), E>(actions: seq<Action<Id, E>>, w: nat)
    ensures ReadAnswers(Run(actions), w, Step(Run(actions), ReadRevision(w)))
  {
    RunKeepsInv(actions);
    assert Ranked(Run(actions).rows);
    hide Run, Inv, Ranked, Step, ReadAnswers;
    CurrentReadAnswers(Run(actions), w);
  }

  /** Without events there is nothing to clash with: the insert commits, however stale its revision read. */
  lemma EmptyAlwaysCommits<Id(!new), E>(db: Db<Id, E>, a: Action<Id, E>)
    requires a.InsertCommit? && SessionOf(db, a.session).RevisionRead?
    requires SessionOf(db, a.session).call.batch == [] && a.sequences == []
    ensures Commits(db, a, Step(db, a), db.rows, [])
  {
    var RevisionRead(call, _, actual) := SessionOf(db, a.session);
    assert Envelopes(call.id, actual, call.batch, a.sequences) == [];
    assert db.rows + [] == db.rows;
    hide RevisionClash, MaxRevision, Append, Envelopes, RowIds, BatchIds, DistinctIds;
  }

  lemma FullInsertAtomic<Id(!new), E>(db: Db<Id, E>, a: Action<Id, E>)
    requires a.InsertCommit? && SessionOf(db, a.session).RevisionRead?
    requires var RevisionRead(call, _, actual) := SessionOf(db, a.session);
      && |a.sequences| == |call.batch|
      && CheckExpected(call.expected, actual).None? && actual <= Revision(db.rows, call.id)
      && (RevisionClash(db.rows, call.id, actual, |call.batch|) <==> actual < Revision(db.rows, call.id))
    ensures InsertSimulates(db, a, Step(db, a))
  {
    hide RevisionClash, MaxRevision, Stream, Envelopes, RowIds, BatchIds, DistinctIds, CheckExpected;
  }

  /** What every insert of a run can rely on. */
  lemma InsertFacts<Id(!new), E>(actions: seq<Action<Id, E>>, a: Action<Id, E>)
    requires a.InsertCommit? && SessionOf(Run(actions), a.session).RevisionRead?
    ensures var db := Run(actions); var s := SessionOf(db, a.session);
      && s.actual <= Revision(db.rows, s.call.id)
      && CheckExpected(s.call.expected, s.actual).None?
      && DistinctIds(s.call.batch)
      && MaxRevision(db.rows, s.call.id) == Revision(db.rows, s.call.id)
      && (s.call.batch != [] ==>
            (RevisionClash(db.rows, s.call.id, s.actual, |s.call.batch|) <==> s.actual < Revision(db.rows, s.call.id)))
      && (s.call.batch == [] ==> s.call.key.Some?)
      && (s.attempt == 1 ==> SessionIds(s) !! RowIds(db.rows))
  {
    RunKeepsInv(actions);
    var db := Run(actions);
    var s := SessionOf(db, a.session);
    assert SessionOk(db, a.session, s);
    if s.call.batch != [] {
      ClashIffStale(db.rows, s.call.id, s.actual, |s.call.batch|);
    }
    MaxRevisionIsLength(db.rows, s.call.id);
  }

  lemma InsertsAtomically<Id(!new), E>(actions: seq<Action<Id, E>>, a: Action<Id, E>)
    requires a.InsertCommit?
    ensures InsertSimulates(Run(actions), a, Step(Run(actions), a))
  {
    var db := Run(actions);
    var s := SessionOf(db, a.session);
    if s.RevisionRead? && |a.sequences| == |s.call.batch| {
      InsertFacts(actions, a);
      if s.call.batch == [] {
        EmptyAlwaysCommits(db, a);
      } else {
        FullInsertAtomic(db, a);
      }
    }
  }

  /**
   * Refinement, for every action of every run: the table changes only by committing one
   * session's whole batch, which is the commit the atomic append would have made at that
   * very moment (at the moment of the revision read, when there are no events), and what
   * the revision read answers is what the atomic append answers.
   */
  lemma RefinesAtomicAppend<Id(!new), E>(actions: seq<Action<Id, E>>, a: Action<Id, E>)
    ensures var db, db' := Run(actions), Step(Run(actions), a);
      match a
      case ReadRevision(w) => ReadAnswers(db, w, db')
      case InsertCommit(_, _, _, _, _, _) => InsertSimulates(db, a, db')
      case _ => db'.rows == db.rows
  {
    match a
    case ReadRevision(w) => ReadsAtomically(actions, w);
    case InsertCommit(_, _, _, _, _, _) => InsertsAtomically(actions, a);
    case _ =>
      hide Run, ReadStep, InsertStep, Append;
  }

  /**
   * The exact condition. An insert whose events are not stored yet does what the atomic
   * append would do at that moment (commit or fail) if and only if nothing was appended to
   * the stream since the revision read, or the call has both events and an expectation, or
   * it has neither. So `Any` loses races that it should win, and a keyed call without
   * events wins races that it should lose.
   */
  lemma CommitsAsAtomicExactly<Id(!new), E>(actions: seq<Action<Id, E>>, a: Action<Id, E>)
    requires a.InsertCommit? && SessionOf(Run(actions), a.session).RevisionRead?
    requires var s := SessionOf(Run(actions), a.session); |a.sequences| == |s.call.batch|
    requires var db := Run(actions); var s := SessionOf(db, a.session);
      s.attempt == 1 || SessionIds(s) !! RowIds(db.rows)
    ensures var db := Run(actions); var db' := Step(db, a);
      var RevisionRead(call, _, actual) := SessionOf(db, a.session);
      (db'.commits != db.commits <==> Append(db.rows, call.id, call.expected, call.batch, a.sequences).1.Ok?)
      <==> (actual == Revision(db.rows, call.id) || (call.batch == [] <==> call.expected.Any?))
  {
    hide Inv, SessionOk, TableOk, Run, MaxRevision, Stream, UniqueEventIds, Envelopes, Ranked;
    InsertFacts(actions, a);
    var db := Run(actions);
    var call := SessionOf(db, a.session).call;
    assert call.batch == [] ==> BatchIds(call.batch) == {} && !RevisionClash(db.rows, call.id, 0, 0);
    hide RowIds;
  }

  /**
   * Losers: an insert whose revision read went stale changes nothing. Unless its events are
   * already stored (which needs an earlier try), the caller gets a concurrency error, and
   * (except for `Any`, which the atomic append would have let through) the same kind of
   * error the atomic append gives now.
   */
  lemma LoserChangesNothing<Id(!new), E>(actions: seq<Action<Id, E>>, a: Action<Id, E>)
    requires a.InsertCommit? && SessionOf(Run(actions), a.session).RevisionRead?
    requires var s := SessionOf(Run(actions), a.session); |a.sequences| == |s.call.batch| && s.call.batch != []
    requires var db := Run(actions); var s := SessionOf(db, a.session); s.actual < Revision(db.rows, s.call.id)
    ensures var db := Run(actions); var db' := Step(db, a); var s := SessionOf(db, a.session);
      && db'.rows == db.rows && db'.records == db.records && db'.commits == db.commits
      && SessionOf(db', a.session).Finished? && SessionOf(db', a.session).outcome.Failed?
      && (SessionIds(s) !! RowIds(db.rows) ==>
            && SessionOf(db', a.session).outcome.error.Concurrency?
            && var atomic := CheckExpected(s.call.expected, Revision(db.rows, s.call.id));
               (atomic.None? <==> s.call.expected.Any?)
               && (atomic.Some? ==>
                     SessionOf(db', a.session).outcome.error.conflict.StreamAlreadyExists?
                       == atomic.value.StreamAlreadyExists?)
               && (atomic.Some? && a.rereadWorks ==>
                     SessionOf(db', a.session).outcome.error.conflict == atomic.value))
  {
    hide Inv, SessionOk, TableOk, Run, RevisionClash, MaxRevision, Stream, RowIds, UniqueEventIds, Envelopes, Ranked;
    InsertFacts(actions, a);
  }

  /** Winners: an insert at the present revision whose events are not stored yet commits them all. */
  lemma WinnerCommits<Id(!new), E>(actions: seq<Action<Id, E>>, a: Action<Id, E>)
    requires a.InsertCommit? && SessionOf(Run(actions), a.session).RevisionRead?
    requires var s := SessionOf(Run(actions), a.session); |a.sequences| == |s.call.batch|
    requires var db := Run(actions); var s := SessionOf(db, a.session);
      s.actual == Revision(db.rows, s.call.id) && (s.attempt == 1 || SessionIds(s) !! RowIds(db.rows))
    ensures var db := Run(actions); var db' := Step(db, a); var s := SessionOf(db, a.session);
      && db'.rows == db.rows + Envelopes(s.call.id, s.actual, s.call.batch, a.sequences)
      && (!a.hidden ==>
            SessionOf(db', a.session) ==
            Finished(s.call, Committed(Envelopes(s.call.id, s.actual, s.call.batch, a.sequences))))
  {
    hide Inv, SessionOk, TableOk, Run, MaxRevision, Stream, RowIds, UniqueEventIds, Envelopes, Ranked;
    InsertFacts(actions, a);
  }

  /**
   * The pool's retry keeps a plain append at most once: no event id is stored twice, every
   * call's batch is stored completely or not at all, and it is stored whenever the caller
   * was told so.
   */
  lemma RetryAtMostOnce<Id(!new), E>(actions: seq<Action<Id, E>>, w: nat)
    ensures var db := Run(actions); var s := SessionOf(db, w);
      && UniqueEventIds(db.rows)
      && AllOrNothing(db, SessionIds(s))
      && (s.Finished? && s.call.key.None? && s.outcome.Committed? ==> BatchStored(db, s.call, s.outcome.envelopes))
  {
    RunKeepsInv(actions);
    assert SessionOk(Run(actions), w, SessionOf(Run(actions), w));
  }

  /**
   * Exactly once: an unpurged key has no record and no commit, or a complete record equal to
   * its single committed batch; every caller answered for the key got that batch.
   */
  lemma IdempotentExactlyOnce<Id(!new), E>(actions: seq<Action<Id, E>>, key: string, w: nat)
    requires key !in Run(actions).purged
    ensures var db := Run(actions);
      && (key !in db.records ==> KeyCommits(db.commits, key) == [])
      && (key in db.records ==>
            |KeyCommits(db.commits, key)| == 1
            && db.records[key] == CompleteRow(KeyCommits(db.commits, key)[0].envelopes))
      && db.rows == Flatten(db.commits)
    ensures var db := Run(actions); var s := SessionOf(db, w);
      && (s.Finished? && s.call.key == Some(key) && s.outcome.Committed? ==>
            key in db.records && db.records[key] == CompleteRow(s.outcome.envelopes))
      && (s.Answered? && s.key == key ==> key in db.records && db.records[key] == CompleteRow(s.value))
  {
    RunKeepsInv(actions);
    assert KeyOk(Run(actions), key);
    assert SessionOk(Run(actions), w, SessionOf(Run(actions), w));
  }

  // ---- what callers are told ----

  /**
   * Whoever calls under a completed key, the retry after a hidden commit included, is told
   * the recorded batch; for an unpurged key that is the one batch committed under it.
   */
  lemma CompletedKeyAnswers<Id(!new), E>(actions: seq<Action<Id, E>>, w: nat, key: string)
    requires var db := Run(actions);
      SessionOf(db, w).Begun? && SessionOf(db, w).call.key == Some(key) && key in db.records
    ensures var db := Run(actions); var db' := Step(db, SelectRecord(w)); var s := SessionOf(db', w);
      && OnlySession(db, db', w)
      && s.Finished? && s.call == SessionOf(db, w).call && s.outcome.Committed?
      && db.records[key] == CompleteRow(s.outcome.envelopes)
      && (key !in db.purged ==>
            |KeyCommits(db.commits, key)| == 1 && s.outcome.envelopes == KeyCommits(db.commits, key)[0].envelopes)
  {
    RunKeepsInv(actions);
    assert KeyOk(Run(actions), key);
    hide Run, Inv, KeyCommits;
  }

  /**
   * Without a completed record the call goes on to reserve its key; a pending row, which no
   * database of this protocol ever shows, is answered as pending.
   */
  lemma OpenKeyGoesOn<Id, E>(db: Db<Id, E>, w: nat, key: string)
    requires SessionOf(db, w).Begun? && SessionOf(db, w).call.key == Some(key)
    requires key !in db.records || db.records[key].PendingRow?
    ensures var s := SessionOf(db, w);
      SessionOf(Step(db, SelectRecord(w)), w) ==
      if key in db.records then Finished(s.call, KeyPending) else Selected(s.call, s.attempt)
  {
  }

  /** A purge takes exactly one completed record, and no call, event or pending key with it. */
  lemma PurgeMeaning<Id, E>(db: Db<Id, E>, key: string, other: string)
    ensures var db' := Step(db, Purge(key));
      && db' == db.(records := db'.records, purged := db'.purged)
      && (other in db'.records <==> other in db.records && !(other == key && db.records[key].CompleteRow?))
      && (other in db'.records ==> db'.records[other] == db.records[other])
      && (other in db'.purged <==> other in db.purged || (other == key && key in db.records && key !in db'.records))
  {
  }

  /** A caller that polls a key reads the record of a completed key, and nothing otherwise. */
  lemma LookupAnswers<Id(!new), E>(actions: seq<Action<Id, E>>, w: nat, key: string)
    requires var s := SessionOf(Run(actions), w); s.Idle? || s.Finished? || s.Answered?
    ensures var db := Run(actions); var db' := Step(db, Lookup(w, key));
      if key in db.records
      then && OnlySession(db, db', w) && SessionOf(db', w).Answered? && SessionOf(db', w).key == key
           && db.records[key] == CompleteRow(SessionOf(db', w).value)
      else db' == db
  {
    RunKeepsInv(actions);
    assert KeyOk(Run(actions), key);
    hide Run, Inv, KeyCommits;
  }

  /**
   * Reserving a key: told it is pending if a record appeared since the lookup, waiting while
   * another transaction holds it, and holding it otherwise.
   */
  lemma ReserveAnswers<Id, E>(db: Db<Id, E>, w: nat, key: string)
    requires SessionOf(db, w).Selected? && SessionOf(db, w).call.key == Some(key)
    ensures var db' := Step(db, Reserve(w)); var s := SessionOf(db, w);
      && OnlySession(db, db', w)
      && (key in db.records ==> SessionOf(db', w) == Finished(s.call, KeyPending))
      && (key !in db.records && key in db.locks ==> db' == db)
      && (key !in db.records && key !in db.locks ==>
            SessionOf(db', w) == Reserved(s.call, s.attempt) && db'.locks == db.locks[key := w])
  {
  }

  /** A transport error hands the call to one retry at most, and frees the keys of its transaction. */
  lemma FailureAnswers<Id, E>(db: Db<Id, E>, w: nat, canRetry: bool)
    requires InFlight(SessionOf(db, w))
    ensures var db' := Step(db, TransportFailure(w, canRetry));
      && OnlySession(db, db', w)
      && GoesOver(SessionOf(db, w), canRetry, SessionOf(db', w))
      && (forall key :: key in db'.locks <==> key in db.locks && db.locks[key] != w)
  {
  }

  /** A transaction that outlives its connection keeps its keys and goes on where it was; its caller fails over. */
  lemma DetachAnswers<Id, E>(db: Db<Id, E>, w: nat, orphan: nat, canRetry: bool)
    requires SessionOf(db, w).RevisionRead? && SessionOf(db, orphan).Idle?
    ensures var db' := Step(db, Detach(w, orphan, canRetry)); var s := SessionOf(db, w);
      && db'.rows == db.rows && db'.records == db.records && db'.commits == db.commits
      && (InFlight(s) ==> GoesOver(s, canRetry, SessionOf(db', w)))
      && SessionOf(db', orphan) == RevisionRead(s.call, 2, s.actual)
      && (forall key :: key in db.locks ==>
            key in db'.locks && db'.locks[key] == if db.locks[key] == w then orphan else db.locks[key])
  {
  }

  /** A session that is through with its last call can begin any call whose event ids are new. */
  lemma BeginAnswers<Id, E>(db: Db<Id, E>, w: nat, call: Call<Id, E>)
    requires SessionOf(db, w).Idle? || SessionOf(db, w).Finished? || SessionOf(db, w).Answered?
    requires DistinctIds(call.batch) && BatchIds(call.batch) !! db.issued
    ensures var db' := Step(db, Begin(w, call));
      && OnlySession(db, db', w) && SessionOf(db', w) == Begun(call, 1)
      && db'.locks == db.locks && db'.issued == db.issued + BatchIds(call.batch)
  {
    hide DistinctIds, BatchIds;
  }

  /** One call run to its end with nobody in between; the steps a call does not take change nothing. */
  function Alone<Id, E>(w: nat, sequences: seq<nat>): seq<Action<Id, E>> {
    [SelectRecord(w)] + [Reserve(w)] + [ReadRevision(w)] + [InsertCommit(w, sequences, true, true, false, false)]
  }

  /** What the idempotent append is for: the recorded batch, or the atomic append and its record. */
  ghost predicate Answers<Id(!new), E>(
    db: Db<Id, E>, call: Call<Id, E>, sequences: seq<nat>, w: nat, db': Db<Id, E>)
    requires |sequences| == |call.batch|
  {
    if call.key.Some? && call.key.value in db.records then
      && OnlySession(db, db', w)
      && SessionOf(db', w).Finished? && SessionOf(db', w).outcome.Committed?
      && db.records[call.key.value] == CompleteRow(SessionOf(db', w).outcome.envelopes)
    else
      match Append(db.rows, call.id, call.expected, call.batch, sequences)
      case (_, Err(conflict)) =>
        OnlySession(db, db', w) && SessionOf(db', w) == Finished(call, Failed(Concurrency(conflict)))
      case (log, Ok(envelopes)) =>
        && db'.rows == log && SessionOf(db', w) == Finished(call, Committed(envelopes))
        && (call.key.Some? ==> db'.records == db.records[call.key.value := CompleteRow(envelopes)])
        && (call.key.None? ==> db'.records == db.records)
  }

  /** The lookup and the reservation of an undisturbed call. */
  lemma FirstTwoSteps<Id(!new), E>(db: Db<Id, E>, w: nat)
    requires Inv(db)
    requires var s := SessionOf(db, w); s.Begun? && (s.call.key.Some? ==> s.call.key.value !in db.locks)
    ensures var db' := Step(Step(db, SelectRecord(w)), Reserve(w)); var Begun(call, attempt) := SessionOf(db, w);
      && OnlySession(db, db', w)
      && if call.key.None? then db' == db
         else if call.key.value !in db.records then SessionOf(db', w) == Reserved(call, attempt)
         else SessionOf(db', w).Finished? && SessionOf(db', w).outcome.Committed?
              && db.records[call.key.value] == CompleteRow(SessionOf(db', w).outcome.envelopes)
  {
    var call := SessionOf(db, w).call;
    if call.key.Some? {
      assert KeyOk(db, call.key.value);
    }
    hide Inv, KeyCommits;
  }

  /** An insert right after its revision read is the atomic append. */
  lemma CurrentInsert<Id(!new), E>(db: Db<Id, E>, a: Action<Id, E>)
    requires Inv(db) && a.InsertCommit? && SessionOf(db, a.session).RevisionRead?
    requires var RevisionRead(call, attempt, actual) := SessionOf(db, a.session);
      && attempt == 1 && actual == Revision(db.rows, call.id) && |a.sequences| == |call.batch|
    ensures var call := SessionOf(db, a.session).call;
      var (log, result) := Append(db.rows, call.id, call.expected, call.batch, a.sequences);
      result.Ok? && Commits(db, a, Step(db, a), log, result.value)
  {
    var s := SessionOf(db, a.session);
    assert SessionOk(db, a.session, s);
    if s.call.batch == [] {
      assert !RevisionClash(db.rows, s.call.id, s.actual, 0);
    } else {
      ClashIffStale(db.rows, s.call.id, s.actual, |s.call.batch|);
    }
    assert RowIds(db.rows) !! BatchIds(s.call.batch) && DistinctIds(s.call.batch);
    hide Inv, SessionOk, RevisionClash, MaxRevision, Stream, Envelopes, RowIds, BatchIds, DistinctIds, CheckExpected;
  }

  /** The revision read and the insert of a call whose key is held, or that has none. */
  lemma LastTwoSteps<Id(!new), E>(db: Db<Id, E>, w: nat, sequences: seq<nat>)
    requires Inv(db)
    requires var s := SessionOf(db, w);
      && (s.Reserved? || (s.Begun? && s.call.key.None?))
      && s.attempt == 1 && |sequences| == |s.call.batch|
    ensures var call := SessionOf(db, w).call;
      var insert: Action<Id, E> := InsertCommit(w, sequences, true, true, false, false);
      var db' := Step(Step(db, ReadRevision(w)), insert);
      match Append(db.rows, call.id, call.expected, call.batch, sequences)
      case (_, Err(conflict)) =>
        OnlySession(db, db', w) && SessionOf(db', w) == Finished(call, Failed(Concurrency(conflict)))
      case (log, Ok(envelopes)) =>
        && db'.rows == log && SessionOf(db', w) == Finished(call, Committed(envelopes))
        && (call.key.Some? ==> db'.records == db.records[call.key.value := CompleteRow(envelopes)])
        && (call.key.None? ==> db'.records == db.records)
  {
    var call := SessionOf(db, w).call;
    var insert: Action<Id, E> := InsertCommit(w, sequences, true, true, false, false);
    var read := Step(db, ReadRevision(w));
    assert Ranked(db.rows);
    CurrentReadAnswers(db, w);
    StepKeepsInv(db, ReadRevision(w));
    if SessionOf(read, w).RevisionRead? {
      CurrentInsert(read, insert);
    } else {
      assert Step(read, insert) == read;
      assert Envelopes<Id, E>(call.id, Revision(db.rows, call.id), [], []) == [];
      assert db.rows + [] == db.rows;
    }
    hide Inv, Ranked, Step, Stream, Envelopes;
  }

  lemma AloneIsFourSteps<Id(!new), E>(db: Db<Id, E>, w: nat, sequences: seq<nat>)
    ensures FoldLeft(Step, db, Alone(w, sequences)) ==
            Step(Step(Step(Step(db, SelectRecord(w)), Reserve(w)), ReadRevision(w)),
                 InsertCommit(w, sequences, true, true, false, false))
  {
    hide Step;
    var insert: Action<Id, E> := InsertCommit(w, sequences, true, true, false, false);
    FoldLeftPair(Step<Id, E>, db, SelectRecord(w), Reserve(w));
    FoldLeftPush(Step<Id, E>, db, [SelectRecord(w), Reserve(w)], ReadRevision(w));
    FoldLeftPush(Step<Id, E>, db, [SelectRecord(w), Reserve(w)] + [ReadRevision(w)], insert);
    assert Alone(w, sequences) == [SelectRecord(w), Reserve(w)] + [ReadRevision(w)] + [insert];
  }

  lemma FinishedStays<Id, E>(db: Db<Id, E>, w: nat, sequences: seq<nat>)
    requires SessionOf(db, w).Finished?
    ensures Step(Step(db, ReadRevision(w)), InsertCommit(w, sequences, true, true, false, false)) == db
  {
  }

  /**
   * An undisturbed call does what it promises: under a completed key it returns the recorded
   * batch and changes nothing, and otherwise it is the atomic append, recorded under its key.
   */
  lemma UndisturbedCall<Id(!new), E>(actions: seq<Action<Id, E>>, w: nat, sequences: seq<nat>)
    requires var db := Run(actions); var s := SessionOf(db, w);
      && s.Begun? && s.attempt == 1 && |sequences| == |s.call.batch|
      && (s.call.key.Some? ==> s.call.key.value !in db.locks)
    ensures var db := Run(actions); var call := SessionOf(db, w).call;
      Answers(db, call, sequences, w, FoldLeft(Step, db, Alone(w, sequences)))
  {
    var db := Run(actions);
    var call := SessionOf(db, w).call;
    RunKeepsInv(actions);
    hide Run, Inv;
    AloneIsFourSteps(db, w, sequences);
    hide FoldLeft, Append;
    var held := Step(Step(db, SelectRecord(w)), Reserve(w));
    FirstTwoSteps(db, w);
    StepKeepsInv(db, SelectRecord(w));
    StepKeepsInv(Step(db, SelectRecord(w)), Reserve(w));
    if SessionOf(held, w).Finished? {
      FinishedStays(held, w, sequences);
    } else {
      LastTwoSteps(held, w, sequences);
    }
    hide Step;
  }

  /** A pending row is never visible outside the transaction that wrote it. */
  lemma {:induction false} PendingNeverVisible<Id(!new), E>(actions: seq<Action<Id, E>>, key: string)
    ensures key in Run(actions).records ==> Run(actions).records[key].CompleteRow?
  {
    RunKeepsInv(actions);
    assert KeyOk(Run(actions), key);
  }

  // ---- a lost race with no expectation ----

  /** A plain append of one event that expects nothing about the stream. */
  function AnyCall<Id, E>(id: Id, event: NewEvent<E>): Call<Id, E> {
    Call(None, id, Any, [event])
  }

  /** Two sessions append to one stream: both read its revision before either inserts. */
  function AnyRace<Id, E>(id: Id, x: NewEvent<E>, y: NewEvent<E>): seq<Action<Id, E>> {
    [Begin(0, AnyCall(id, x))] + [Begin(1, AnyCall(id, y))] + [ReadRevision(0)] + [ReadRevision(1)]
    + [InsertCommit(0, [1], true, true, false, false)]
  }

  lemma BothBegin<Id(!new), E>(id: Id, x: NewEvent<E>, y: NewEvent<E>)
    requires x.eventId != y.eventId
    ensures var db := Run([Begin(0, AnyCall(id, x))] + [Begin(1, AnyCall(id, y))]);
      && db.rows == [] && db.locks == map[]
      && SessionOf(db, 0) == Begun(AnyCall(id, x), 1) && SessionOf(db, 1) == Begun(AnyCall(id, y), 1)
  {
    var a, b := Begin(0, AnyCall(id, x)), Begin(1, AnyCall(id, y));
    FoldLeftPush(Step<Id, E>, Start(), [], a);
    FoldLeftPush(Step<Id, E>, Start(), [a], b);
    assert [] + [a] == [a];
    hide FoldLeft;
    assert BatchIds([x]) == {x.eventId} && BatchIds([y]) == {y.eventId} by {
      BatchIdsPush([], x);
      BatchIdsPush([], y);
      assert [] + [x] == [x] && [] + [y] == [y];
    }
  }

  /** A plain append with no expectation reads the revision and goes on, whatever it is. */
  lemma AnyReads<Id(!new), E>(db: Db<Id, E>, w: nat, id: Id, event: NewEvent<E>)
    requires SessionOf(db, w) == Begun(AnyCall(id, event), 1)
    ensures Step(db, ReadRevision(w)) ==
            db.(sessions := db.sessions[w := RevisionRead(AnyCall(id, event), 1, MaxRevision(db.rows, id))])
  {
    hide MaxRevision;
  }

  lemma BothRead<Id(!new), E>(id: Id, x: NewEvent<E>, y: NewEvent<E>)
    requires x.eventId != y.eventId
    ensures var db := Run([Begin(0, AnyCall(id, x))] + [Begin(1, AnyCall(id, y))]
                          + [ReadRevision(0)] + [ReadRevision(1)]);
      && db.rows == []
      && SessionOf(db, 0) == RevisionRead(AnyCall(id, x), 1, 0)
      && SessionOf(db, 1) == RevisionRead(AnyCall(id, y), 1, 0)
  {
    var begun := [Begin(0, AnyCall(id, x))] + [Begin(1, AnyCall(id, y))];
    BothBegin(id, x, y);
    FoldLeftPush(Step<Id, E>, Start(), begun, ReadRevision(0));
    FoldLeftPush(Step<Id, E>, Start(), begun + [ReadRevision(0)], ReadRevision(1));
    hide FoldLeft, Step;
    AnyReads(Run(begun), 0, id, x);
    AnyReads(Run(begun + [ReadRevision(0)]), 1, id, y);
    assert MaxRevision<Id, E>([], id) == 0;
  }

  lemma FirstInsert<Id(!new), E>(id: Id, x: NewEvent<E>, rows: Log<Id, E>, batch: seq<NewEvent<E>>)
    requires rows == [] && batch == [x]
    ensures InsertResult(rows, id, Any, 0, batch, [1], true, true) == Ok([Seal(x, id, 1, 1)])
  {
    assert RowIds(rows) == {};
    assert Envelopes(id, 0, batch, [1]) == [Seal(x, id, 1, 1)];
  }

  lemma FirstWins<Id(!new), E>(id: Id, x: NewEvent<E>, y: NewEvent<E>)
    requires x.eventId != y.eventId
    ensures var db := Run(AnyRace(id, x, y));
      && db.rows == [Seal(x, id, 1, 1)]
      && SessionOf(db, 1) == RevisionRead(AnyCall(id, y), 1, 0)
  {
    var read := [Begin(0, AnyCall(id, x))] + [Begin(1, AnyCall(id, y))] + [ReadRevision(0)] + [ReadRevision(1)];
    var insert: Action<Id, E> := InsertCommit(0, [1], true, true, false, false);
    BothRead(id, x, y);
    FoldLeftPush(Step<Id, E>, Start(), read, insert);
    hide FoldLeft;
    assert AnyRace(id, x, y) == read + [insert];
    FirstInsert<Id, E>(id, x, [], [x]);
  }

  lemma OneRow<Id(!new), E>(id: Id, row: Envelope<Id, E>)
    requires row.aggregateId == id
    ensures Revision([row], id) == 1
  {
    StreamOfBatch([row], id, id);
  }

  /**
   * A race that `Any` loses: the second session's insert fails with a concurrency error and
   * stores nothing, although the atomic append would have succeeded at that very moment.
   */
  lemma AnyLosesRace<Id(!new), E>(id: Id, x: NewEvent<E>, y: NewEvent<E>)
    requires x.eventId != y.eventId
    ensures var db := Run(AnyRace(id, x, y));
      var db' := Step(db, InsertCommit(1, [2], true, true, false, false));
      && SessionOf(db, 1).RevisionRead? && SessionOf(db, 1).call == AnyCall(id, y)
      && Append(db.rows, id, Any, [y], [2]).1.Ok?
      && SessionOf(db', 1).Finished? && SessionOf(db', 1).outcome.Failed?
      && SessionOf(db', 1).outcome.error.Concurrency?
      && db'.rows == db.rows
  {
    FirstWins(id, x, y);
    var db := Run(AnyRace(id, x, y));
    OneRow(id, Seal(x, id, 1, 1));
    assert SessionIds(SessionOf(db, 1)) !! RowIds(db.rows);
    hide Run, Step, Stream, RowIds;
    LoserChangesNothing(AnyRace(id, x, y), InsertCommit(1, [2], true, true, false, false));
  }

  // ---- a race won without events ----

  /** A keyed call whose command came to no events, for a stream it expects to be empty. */
  function EmptyCall<Id, E>(key: string, id: Id, expected: ExpectedRevision): Call<Id, E> {
    Call(Some(key), id, expected, [])
  }

  function EmptyOpening<Id, E>(key: string, id: Id, expected: ExpectedRevision): seq<Action<Id, E>> {
    [Begin(0, EmptyCall(key, id, expected))] + [SelectRecord(0)] + [Reserve(0)] + [ReadRevision(0)]
  }

  /** It looks up its key, reserves it and reads the revision; then another session appends. */
  function EmptyRace<Id, E>(key: string, id: Id, expected: ExpectedRevision, x: NewEvent<E>): seq<Action<Id, E>> {
    EmptyOpening(key, id, expected)
    + [Begin(1, AnyCall(id, x))] + [ReadRevision(1)] + [InsertCommit(1, [1], true, true, false, false)]
  }

  lemma EmptyReserves<Id(!new), E>(key: string, id: Id, expected: ExpectedRevision)
    ensures Run([Begin(0, EmptyCall<Id, E>(key, id, expected))] + [SelectRecord(0)] + [Reserve(0)]) ==
            Db([], map[], map[key := 0], map[0 := Reserved(EmptyCall(key, id, expected), 1)], {}, [], {})
  {
    var call := EmptyCall<Id, E>(key, id, expected);
    var begin := [Begin(0, call)];
    FoldLeftPush(Step<Id, E>, Start(), [], Begin(0, call));
    FoldLeftPush(Step<Id, E>, Start(), begin, SelectRecord(0));
    FoldLeftPush(Step<Id, E>, Start(), begin + [SelectRecord(0)], Reserve(0));
    assert [] + begin == begin;
    hide FoldLeft;
  }

  lemma EmptyReads<Id(!new), E>(key: string, id: Id, expected: ExpectedRevision)
    requires CheckExpected(expected, 0).None?
    ensures Run(EmptyOpening<Id, E>(key, id, expected)) ==
            Db([], map[], map[key := 0], map[0 := RevisionRead(EmptyCall(key, id, expected), 1, 0)], {}, [], {})
  {
    var reserved := [Begin(0, EmptyCall<Id, E>(key, id, expected))] + [SelectRecord(0)] + [Reserve(0)];
    EmptyReserves<Id, E>(key, id, expected);
    FoldLeftPush(Step<Id, E>, Start(), reserved, ReadRevision(0));
    assert MaxRevision<Id, E>([], id) == 0;
    hide FoldLeft, MaxRevision;
  }

  lemma OtherReads<Id(!new), E>(key: string, id: Id, expected: ExpectedRevision, x: NewEvent<E>)
    requires CheckExpected(expected, 0).None?
    ensures Run(EmptyOpening(key, id, expected) + [Begin(1, AnyCall(id, x))] + [ReadRevision(1)]) ==
            Db([], map[], map[key := 0],
               map[0 := RevisionRead(EmptyCall(key, id, expected), 1, 0), 1 := RevisionRead(AnyCall(id, x), 1, 0)],
               {x.eventId}, [], {})
  {
    var read := EmptyOpening<Id, E>(key, id, expected);
    EmptyReads<Id, E>(key, id, expected);
    FoldLeftPush(Step<Id, E>, Start(), read, Begin(1, AnyCall(id, x)));
    FoldLeftPush(Step<Id, E>, Start(), read + [Begin(1, AnyCall(id, x))], ReadRevision(1));
    assert BatchIds([x]) == {x.eventId} by {
      BatchIdsPush([], x);
      assert [] + [x] == [x];
    }
    assert MaxRevision<Id, E>([], id) == 0;
    hide FoldLeft, MaxRevision, BatchIds, EmptyOpening;
    var db := Run(read + [Begin(1, AnyCall(id, x))]);
    assert SessionOf(db, 1) == Begun(AnyCall(id, x), 1);
    AnyReads(db, 1, id, x);
  }

  lemma OtherCommits<Id(!new), E>(key: string, id: Id, expected: ExpectedRevision, x: NewEvent<E>)
    requires CheckExpected(expected, 0).None?
    ensures var db := Run(EmptyRace(key, id, expected, x));
      && db.rows == [Seal(x, id, 1, 1)] && db.records == map[]
      && SessionOf(db, 0) == RevisionRead(EmptyCall(key, id, expected), 1, 0)
  {
    var read := EmptyOpening(key, id, expected) + [Begin(1, AnyCall(id, x))] + [ReadRevision(1)];
    var insert: Action<Id, E> := InsertCommit(1, [1], true, true, false, false);
    OtherReads(key, id, expected, x);
    FoldLeftPush(Step<Id, E>, Start(), read, insert);
    hide FoldLeft;
    FirstInsert<Id, E>(id, x, [], [x]);
    hide InsertResult, EmptyOpening;
  }

  /**
   * A race that a call without events wins: the stream is no longer empty when it commits,
   * so the atomic append would refuse it, but its record is completed and it is told so.
   */
  lemma EmptyWinsRace<Id(!new), E>(key: string, id: Id, expected: ExpectedRevision, x: NewEvent<E>)
    requires expected == NoStream || expected == Exact(0)
    ensures var db := Run(EmptyRace(key, id, expected, x));
      var db' := Step(db, InsertCommit(0, [], true, true, false, false));
      && SessionOf(db, 0).RevisionRead? && SessionOf(db, 0).call == EmptyCall(key, id, expected)
      && Append(db.rows, id, expected, [], []).1.Err?
      && SessionOf(db', 0) == Finished(EmptyCall(key, id, expected), Committed([]))
      && db'.records == map[key := CompleteRow([])]
      && db'.commits == db.commits + [Commit(Some(key), id, [])]
  {
    hide Run, Step, Stream, EmptyRace;
    OtherCommits(key, id, expected, x);
    var db := Run(EmptyRace(key, id, expected, x));
    OneRow(id, Seal(x, id, 1, 1));
    EmptyAlwaysCommits(db, InsertCommit(0, [], true, true, false, false));
  }
}
