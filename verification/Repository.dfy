/**
 * The repository under optimistic concurrency: clients load (fully or through a
 * snapshot), decide, and append at the loaded revision, with every step of every
 * client free to interleave with the others.
 */
module Repository {
  import opened Common
  import opened EventLog
  import opened Aggregates

  /** What the store adds to one event at commit time. */
  datatype Stamp = Stamp(eventId: string, recordedAt: int, sequence: nat)

  datatype Client<+S, +Id, +E, +C> =
    | Idle
    | ReadSnapshot(id: Id, snapshot: Option<Loaded<S>>)
    | HasState(id: Id, loaded: Loaded<S>)
    | Decided(id: Id, loaded: Loaded<S>, command: C, events: seq<E>)

  /** `history` records, per stream, the commands whose batches were committed. */
  datatype World<S, Id, E, C> = World(
    log: Log<Id, E>,
    snapshots: map<Id, Loaded<S>>,
    clients: map<nat, Client<S, Id, E, C>>,
    history: map<Id, seq<C>>)

  datatype Action<+Id, +C> =
    | LoadFull(client: nat, id: Id)
    | LoadSnapshot(client: nat, id: Id)
    | LoadTail(client: nat)
    | SaveSnapshot(client: nat)
    | Decide(client: nat, command: C)
    | Commit(client: nat, stamps: seq<Stamp>)
    | Crash(client: nat)

  function Sealed<E>(events: seq<E>, stamps: seq<Stamp>): (r: seq<NewEvent<E>>)
    requires |stamps| == |events|
    ensures |r| == |events|
  {
    seq(|events|, i requires 0 <= i < |events| => NewEvent(stamps[i].eventId, stamps[i].recordedAt, events[i]))
  }

  function Sequences(stamps: seq<Stamp>): (r: seq<nat>)
    ensures |r| == |stamps|
  {
    seq(|stamps|, i requires 0 <= i < |stamps| => stamps[i].sequence)
  }

  /** A snapshot is accepted unless it is older than the stored one. */
  function SaveIfNotStale<S, Id>(snapshots: map<Id, Loaded<S>>, id: Id, offered: Loaded<S>): map<Id, Loaded<S>> {
    if id in snapshots && offered.revision < snapshots[id].revision then snapshots else snapshots[id := offered]
  }

  ghost function CommitStep<S, Id(!new), E, C, R>(
    agg: Aggregate<S, E, C, R>, w: World<S, Id, E, C>, c: nat,
    id: Id, loaded: Loaded<S>, command: C, batch: seq<NewEvent<E>>, sequences: seq<nat>): World<S, Id, E, C>
    requires |batch| == |sequences|
  {
    var (log, result) := Append(w.log, id, Exact(loaded.revision), batch, sequences);
    match result
    case Err(_) => w.(clients := w.clients[c := Idle])
    case Ok(committed) =>
      World(log, w.snapshots, w.clients[c := HasState(id, Advance(agg, loaded, committed))],
            w.history[id := At(w.history, id) + [command]])
  }

  /** Snapshot state plus the events after its revision; a full replay when there is none. */
  ghost function ReplayFromSnapshot<S, Id(!new), E, C, R>(
    agg: Aggregate<S, E, C, R>, log: Log<Id, E>, id: Id, snapshot: Option<Loaded<S>>): Loaded<S>
  {
    match snapshot
    case None => FullReplay(agg, log, id)
    case Some(base) =>
      Advance(agg, base, AfterRevision(Stream(log, id), base.revision))
  }

  /** One atomic step; a step that is not enabled changes nothing. */
  ghost function Step<S, Id(!new), E, C, R>(
    agg: Aggregate<S, E, C, R>, w: World<S, Id, E, C>, a: Action<Id, C>): World<S, Id, E, C>
  {
    var c := a.client;
    var local := if c in w.clients then w.clients[c] else Idle;
    match a
    case LoadFull(_, id) => w.(clients := w.clients[c := HasState(id, FullReplay(agg, w.log, id))])
    case LoadSnapshot(_, id) =>
      w.(clients := w.clients[c := ReadSnapshot(id, if id in w.snapshots then Some(w.snapshots[id]) else None)])
    case LoadTail(_) =>
      if !local.ReadSnapshot? then w else
        w.(clients := w.clients[c := HasState(local.id, ReplayFromSnapshot(agg, w.log, local.id, local.snapshot))])
    case SaveSnapshot(_) =>
      if !local.HasState? then w else
        w.(snapshots := SaveIfNotStale(w.snapshots, local.id, local.loaded))
    case Decide(_, command) =>
      if !local.HasState? then w else
        (match agg.handle(local.loaded.state, command)
         case Ok(events) => w.(clients := w.clients[c := Decided(local.id, local.loaded, command, events)])
         case Err(_) => w.(clients := w.clients[c := Idle]))
    case Commit(_, stamps) =>
      if !local.Decided? || |stamps| != |local.events| then w else
        CommitStep(agg, w, c, local.id, local.loaded, local.command, Sealed(local.events, stamps), Sequences(stamps))
    case Crash(_) => w.(clients := w.clients[c := Idle])
  }

  ghost function Run<S, Id(!new), E, C, R>(
    agg: Aggregate<S, E, C, R>, actions: seq<Action<Id, C>>): World<S, Id, E, C>
  {
    FoldLeft((w: World<S, Id, E, C>, a: Action<Id, C>) => Step(agg, w, a), World([], map[], map[], map[]), actions)
  }

  // ---- the invariant ----

  /** `loaded` is the state after some prefix of the committed commands. */
  ghost predicate IsPast<S, E, C, R>(agg: Aggregate<S, E, C, R>, commands: seq<C>, loaded: Loaded<S>) {
    exists k | 0 <= k <= |commands| :: loaded == SerialState(agg, commands[..k])
  }

  /** One stream is the serial run of its committed commands. */
  ghost predicate StreamSerial<S, Id(!new), E, C, R>(
    agg: Aggregate<S, E, C, R>, log: Log<Id, E>, history: map<Id, seq<C>>, id: Id)
  {
    && Payloads(Stream(log, id)) == SerialEvents(agg, At(history, id))
    && AllAccepted(agg, At(history, id))
  }

  ghost predicate StreamsSerial<S, Id(!new), E, C, R>(agg: Aggregate<S, E, C, R>, w: World<S, Id, E, C>) {
    forall id :: StreamSerial(agg, w.log, w.history, id)
  }

  ghost predicate ClientOk<S, Id, E, C, R>(
    agg: Aggregate<S, E, C, R>, history: map<Id, seq<C>>, client: Client<S, Id, E, C>)
  {
    match client
    case Idle => true
    case ReadSnapshot(id, snapshot) => snapshot.Some? ==> IsPast(agg, At(history, id), snapshot.value)
    case HasState(id, loaded) => IsPast(agg, At(history, id), loaded)
    case Decided(id, loaded, command, events) =>
      IsPast(agg, At(history, id), loaded) && agg.handle(loaded.state, command) == Ok(events)
  }

  ghost predicate Inv<S, Id(!new), E, C, R>(agg: Aggregate<S, E, C, R>, w: World<S, Id, E, C>) {
    && Ranked(w.log)
    && StreamsSerial(agg, w)
    && (forall id | id in w.snapshots :: IsPast(agg, At(w.history, id), w.snapshots[id]))
    && (forall c | c in w.clients :: ClientOk(agg, w.history, w.clients[c]))
  }

  lemma PastIsStable<S, E, C, R>(agg: Aggregate<S, E, C, R>, commands: seq<C>, more: seq<C>, loaded: Loaded<S>)
    requires IsPast(agg, commands, loaded)
    ensures IsPast(agg, commands + more, loaded)
  {
    var k :| 0 <= k <= |commands| && loaded == SerialState(agg, commands[..k]);
    assert (commands + more)[..k] == commands[..k];
  }

  /** A past state is the fold of a prefix of the serial events. */
  lemma PastIsPrefix<S, E, C, R>(agg: Aggregate<S, E, C, R>, commands: seq<C>, loaded: Loaded<S>)
    requires IsPast(agg, commands, loaded)
    ensures loaded.revision <= |SerialEvents(agg, commands)|
    ensures loaded.state == Fold(agg, agg.initial, SerialEvents(agg, commands)[..loaded.revision])
  {
    var k :| 0 <= k <= |commands| && loaded == SerialState(agg, commands[..k]);
    SerialPrefix(agg, commands, k);
  }

  lemma PresentIsPast<S, E, C, R>(agg: Aggregate<S, E, C, R>, commands: seq<C>)
    ensures IsPast(agg, commands, SerialState(agg, commands))
  {
    assert commands[..|commands|] == commands;
  }

  /** A full replay is the state after all committed commands. */
  lemma ReplayIsSerial<S, Id(!new), E, C, R>(agg: Aggregate<S, E, C, R>, w: World<S, Id, E, C>, id: Id)
    requires Ranked(w.log) && StreamSerial(agg, w.log, w.history, id)
    ensures FullReplay(agg, w.log, id) == SerialState(agg, At(w.history, id))
    ensures FullReplay(agg, w.log, id).revision == Revision(w.log, id)
  {
    FullReplayRevision(agg, w.log, id);
  }

  lemma PrefixPlusTail<S, Id, E, C, R>(agg: Aggregate<S, E, C, R>, events: Log<Id, E>, base: Loaded<S>)
    requires forall k | 0 <= k < |events| :: events[k].revision == k + 1
    requires base.revision <= |events|
    requires base.state == Fold(agg, agg.initial, Payloads(events)[..base.revision])
    ensures Advance(agg, base, events[base.revision..]) == Advance(agg, Loaded(agg.initial, 0), events)
  {
    var head, tail := Payloads(events)[..base.revision], Payloads(events[base.revision..]);
    FoldConcat(agg, agg.initial, head, tail);
    assert head + tail == Payloads(events);
  }

  /** Any past state plus the tail after its revision is the present state. */
  lemma PastPlusTail<S, Id(!new), E, C, R>(
    agg: Aggregate<S, E, C, R>, w: World<S, Id, E, C>, id: Id, base: Loaded<S>)
    requires Ranked(w.log) && StreamSerial(agg, w.log, w.history, id)
    requires IsPast(agg, At(w.history, id), base)
    ensures ReplayFromSnapshot(agg, w.log, id, Some(base)) == FullReplay(agg, w.log, id)
  {
    var events := Stream(w.log, id);
    PastIsPrefix(agg, At(w.history, id), base);
    forall j | 0 <= j < |events| ensures events[j].revision == j + 1 {
      StreamRevisions(w.log, id, j);
    }
    AfterRevisionIsSuffix(events, base.revision);
    PrefixPlusTail(agg, events, base);
  }

  lemma AcceptedPush<S, E, C, R>(agg: Aggregate<S, E, C, R>, commands: seq<C>, command: C)
    requires AllAccepted(agg, commands)
    requires agg.handle(SerialState(agg, commands).state, command).Ok?
    ensures AllAccepted(agg, commands + [command])
  {
    var all := commands + [command];
    forall k | 0 <= k < |all| ensures agg.handle(SerialState(agg, all[..k]).state, all[k]).Ok? {
      assert all[..k] == commands[..k];
      assert commands[..|commands|] == commands;
    }
  }

  /** A successful commit is the next step of the serial run. */
  lemma CommitExtendsSerial<S, Id(!new), E, C, R>(
    agg: Aggregate<S, E, C, R>, w: World<S, Id, E, C>, id: Id, command: C, events: seq<E>,
    committed: Log<Id, E>, other: Id)
    requires StreamSerial(agg, w.log, w.history, other)
    requires OneStream(committed, id) && Payloads(committed) == events
    requires agg.handle(SerialState(agg, At(w.history, id)).state, command) == Ok(events)
    ensures StreamSerial(agg, w.log + committed, w.history[id := At(w.history, id) + [command]], other)
  {
    var commands := At(w.history, id);
    assert (commands + [command])[..|commands|] == commands;
    AppendedStream(w.log, id, committed, other);
    PayloadsConcat(Stream(w.log, other), if other == id then committed else []);
    if other == id { AcceptedPush(agg, commands, command); }
  }

  /** The state a committer keeps is the state after all committed commands. */
  lemma CommitterState<S, Id, E, C, R>(
    agg: Aggregate<S, E, C, R>, commands: seq<C>, command: C, events: seq<E>, committed: Log<Id, E>, loaded: Loaded<S>)
    requires loaded == SerialState(agg, commands)
    requires Payloads(committed) == events
    requires forall i | 0 <= i < |committed| :: committed[i].revision == loaded.revision + 1 + i
    requires agg.handle(loaded.state, command) == Ok(events)
    ensures Advance(agg, loaded, committed) == SerialState(agg, commands + [command])
  {
    assert (commands + [command])[..|commands|] == commands;
    FoldConcat(agg, agg.initial, SerialEvents(agg, commands), events);
  }

  /** A past state at the present revision is the present state. */
  lemma PastAtPresentRevision<S, Id(!new), E, C, R>(
    agg: Aggregate<S, E, C, R>, w: World<S, Id, E, C>, id: Id, loaded: Loaded<S>)
    requires Ranked(w.log) && StreamSerial(agg, w.log, w.history, id)
    requires IsPast(agg, At(w.history, id), loaded)
    requires loaded.revision == Revision(w.log, id)
    ensures loaded == SerialState(agg, At(w.history, id))
  {
    var events := SerialEvents(agg, At(w.history, id));
    PastIsPrefix(agg, At(w.history, id), loaded);
    assert |events| == |Payloads(Stream(w.log, id))|;
    assert events[..|events|] == events;
  }

  lemma HistoryGrowthKeepsClients<S, Id, E, C, R>(
    agg: Aggregate<S, E, C, R>, history: map<Id, seq<C>>, id: Id, command: C, client: Client<S, Id, E, C>)
    requires ClientOk(agg, history, client)
    ensures ClientOk(agg, history[id := At(history, id) + [command]], client)
  {
    match client
    case Idle =>
    case ReadSnapshot(_, snapshot) =>
      if snapshot.Some? { PastIsStable(agg, At(history, client.id), [command], snapshot.value); }
    case HasState(_, loaded) => PastIsStable(agg, At(history, client.id), [command], loaded);
    case Decided(_, loaded, _, _) => PastIsStable(agg, At(history, client.id), [command], loaded);
  }

  /** The world after an enabled commit at the present revision, spelled out. */
  lemma CommitUnfolds<S, Id(!new), E, C, R>(
    agg: Aggregate<S, E, C, R>, w: World<S, Id, E, C>, c: nat,
    id: Id, loaded: Loaded<S>, command: C, events: seq<E>, stamps: seq<Stamp>)
    requires Ranked(w.log)
    requires |stamps| == |events|
    requires loaded == SerialState(agg, At(w.history, id)) && loaded.revision == Revision(w.log, id)
    requires agg.handle(loaded.state, command) == Ok(events)
    ensures var w' := CommitStep(agg, w, c, id, loaded, command, Sealed(events, stamps), Sequences(stamps));
      && w'.history == w.history[id := At(w.history, id) + [command]]
      && w'.snapshots == w.snapshots
      && w'.clients == w.clients[c := HasState(id, SerialState(agg, At(w'.history, id)))]
      && Ranked(w'.log)
  {
    var committed := Envelopes(id, Revision(w.log, id), Sealed(events, stamps), Sequences(stamps));
    assert Payloads(committed) == events;
    CommitterState(agg, At(w.history, id), command, events, committed, loaded);
    assert OneStream(committed, id) by {
      EnvelopesOwned(id, Revision(w.log, id), Sealed(events, stamps), Sequences(stamps));
    }
    RankedAppend(w.log, id, committed);
  }

  lemma StreamsStaySerial<S, Id(!new), E, C, R>(
    agg: Aggregate<S, E, C, R>, w: World<S, Id, E, C>, w': World<S, Id, E, C>,
    id: Id, command: C, events: seq<E>, committed: Log<Id, E>)
    requires StreamsSerial(agg, w)
    requires OneStream(committed, id) && Payloads(committed) == events
    requires agg.handle(SerialState(agg, At(w.history, id)).state, command) == Ok(events)
    requires w'.log == w.log + committed && w'.history == w.history[id := At(w.history, id) + [command]]
    ensures StreamsSerial(agg, w')
  {
    forall other ensures StreamSerial(agg, w'.log, w'.history, other) {
      assert StreamSerial(agg, w.log, w.history, other);
      CommitExtendsSerial(agg, w, id, command, events, committed, other);
    }
  }

  lemma CommitKeepsSerial<S, Id(!new), E, C, R>(
    agg: Aggregate<S, E, C, R>, w: World<S, Id, E, C>, c: nat,
    id: Id, loaded: Loaded<S>, command: C, events: seq<E>, stamps: seq<Stamp>)
    requires StreamsSerial(agg, w)
    requires |stamps| == |events|
    requires loaded == SerialState(agg, At(w.history, id)) && loaded.revision == Revision(w.log, id)
    requires agg.handle(loaded.state, command) == Ok(events)
    ensures StreamsSerial(agg, CommitStep(agg, w, c, id, loaded, command, Sealed(events, stamps), Sequences(stamps)))
  {
    var committed := Envelopes(id, Revision(w.log, id), Sealed(events, stamps), Sequences(stamps));
    assert Payloads(committed) == events;
    assert OneStream(committed, id) by {
      EnvelopesOwned(id, Revision(w.log, id), Sealed(events, stamps), Sequences(stamps));
    }
    StreamsStaySerial(agg, w, CommitStep(agg, w, c, id, loaded, command, Sealed(events, stamps), Sequences(stamps)),
                      id, command, events, committed);
  }

  /** Clients and snapshots stay past states when a history grows. */
  lemma CommitKeepsPasts<S, Id(!new), E, C, R>(agg: Aggregate<S, E, C, R>, w: World<S, Id, E, C>, a: Action<Id, C>)
    requires Inv(agg, w) && a.Commit?
    ensures var w' := Step(agg, w, a);
      && (forall c | c in w'.clients && c != a.client :: ClientOk(agg, w'.history, w'.clients[c]))
      && (forall id | id in w'.snapshots :: IsPast(agg, At(w'.history, id), w'.snapshots[id]))
  {
    hide IsPast, SerialState, StreamSerial, Stream, Payloads, Advance, ClientOk, Envelopes;
    var c := a.client;
    var local := if c in w.clients then w.clients[c] else Idle;
    if local.Decided? && |a.stamps| == |local.events| && local.loaded.revision == Revision(w.log, local.id) {
      var w' := Step(agg, w, a);
      forall d | d in w'.clients && d != c ensures ClientOk(agg, w'.history, w'.clients[d]) {
        HistoryGrowthKeepsClients(agg, w.history, local.id, local.command, w.clients[d]);
      }
      forall s | s in w'.snapshots ensures IsPast(agg, At(w'.history, s), w'.snapshots[s]) {
        PastIsStable(agg, At(w.history, s), [local.command], w.snapshots[s]);
      }
    }
  }

  lemma CommitKeepsInv<S, Id(!new), E, C, R>(agg: Aggregate<S, E, C, R>, w: World<S, Id, E, C>, a: Action<Id, C>)
    requires Inv(agg, w) && a.Commit?
    ensures Inv(agg, Step(agg, w, a))
  {
    hide IsPast, SerialState, SerialEvents, AllAccepted, StreamSerial, Stream, Payloads, Advance;
    var c := a.client;
    var local := if c in w.clients then w.clients[c] else Idle;
    if local.Decided? && |a.stamps| == |local.events| && local.loaded.revision == Revision(w.log, local.id) {
      assert StreamSerial(agg, w.log, w.history, local.id);
      PastAtPresentRevision(agg, w, local.id, local.loaded);
      CommitUnfolds(agg, w, c, local.id, local.loaded, local.command, local.events, a.stamps);
      CommitKeepsSerial(agg, w, c, local.id, local.loaded, local.command, local.events, a.stamps);
      CommitKeepsPasts(agg, w, a);
      PresentIsPast(agg, At(Step(agg, w, a).history, local.id));
    }
  }

  lemma StepKeepsInv<S, Id(!new), E, C, R>(agg: Aggregate<S, E, C, R>, w: World<S, Id, E, C>, a: Action<Id, C>)
    requires Inv(agg, w)
    ensures Inv(agg, Step(agg, w, a))
  {
    hide IsPast, SerialState, SerialEvents, AllAccepted, StreamSerial, Stream, FullReplay, Advance, CommitStep;
    var local := if a.client in w.clients then w.clients[a.client] else Idle;
    match a
    case LoadFull(_, id) =>
      assert StreamSerial(agg, w.log, w.history, id);
      ReplayIsSerial(agg, w, id);
      PresentIsPast(agg, At(w.history, id));
    case LoadTail(_) =>
      if local.ReadSnapshot? {
        assert StreamSerial(agg, w.log, w.history, local.id);
        if local.snapshot.Some? { PastPlusTail(agg, w, local.id, local.snapshot.value); }
        ReplayIsSerial(agg, w, local.id);
        PresentIsPast(agg, At(w.history, local.id));
      }
    case Commit(_, _) => CommitKeepsInv(agg, w, a);
    case _ =>
  }

  lemma {:induction false} RunKeepsInv<S, Id(!new), E, C, R>(agg: Aggregate<S, E, C, R>, actions: seq<Action<Id, C>>)
    ensures Inv(agg, Run(agg, actions))
  {
    if actions != [] {
      RunKeepsInv(agg, actions[..|actions| - 1]);
      StepKeepsInv(agg, Run(agg, actions[..|actions| - 1]), actions[|actions| - 1]);
    }
  }

  // ---- one client alone ----

  lemma AdvanceConcat<S, Id, E, C, R>(agg: Aggregate<S, E, C, R>, from: Loaded<S>, a: Log<Id, E>, b: Log<Id, E>)
    ensures Advance(agg, from, a + b) == Advance(agg, Advance(agg, from, a), b)
  {
    PayloadsConcat(a, b);
    FoldConcat(agg, from.state, Payloads(a), Payloads(b));
    if b == [] { assert a + b == a; }
  }

  /** Replaying after a commit is the old replay advanced over the committed envelopes. */
  lemma CommittedState<S, Id(!new), E, C, R>(
    agg: Aggregate<S, E, C, R>, log: Log<Id, E>, id: Id, batch: seq<NewEvent<E>>, sequences: seq<nat>)
    requires |sequences| == |batch|
    ensures var committed := Envelopes(id, Revision(log, id), batch, sequences);
      && Stream(log + committed, id) == Stream(log, id) + committed
      && FullReplay(agg, log + committed, id) == Advance(agg, FullReplay(agg, log, id), committed)
  {
    var committed := Envelopes(id, Revision(log, id), batch, sequences);
    EnvelopesOwned(id, Revision(log, id), batch, sequences);
    AppendedStream(log, id, committed, id);
    AdvanceConcat(agg, Loaded(agg.initial, 0), Stream(log, id), committed);
  }

  /** Sealing and committing events keeps the events themselves. */
  lemma SealedPayloads<Id, E>(
    events: seq<E>, stamps: seq<Stamp>, id: Id, base: nat, sequences: seq<nat>)
    requires |stamps| == |events| == |sequences|
    ensures Payloads(Envelopes(id, base, Sealed(events, stamps), sequences)) == events
  {
  }

  /** A client loads a stream, fully or through the snapshot store, with nobody in between. */
  ghost function Loading<S, Id(!new), E, C, R>(
    agg: Aggregate<S, E, C, R>, w: World<S, Id, E, C>, c: nat, id: Id, snapshot: bool): World<S, Id, E, C>
  {
    if snapshot then Step(agg, Step(agg, w, LoadSnapshot(c, id)), LoadTail(c)) else Step(agg, w, LoadFull(c, id))
  }

  /** Both ways of loading give the client the full replay, and change nothing but the client. */
  lemma LoadedFully<S, Id(!new), E, C, R>(
    agg: Aggregate<S, E, C, R>, w: World<S, Id, E, C>, c: nat, id: Id, snapshot: bool)
    requires Inv(agg, w)
    ensures Loading(agg, w, c, id, snapshot) == w.(clients := w.clients[c := HasState(id, FullReplay(agg, w.log, id))])
    ensures FullReplay(agg, w.log, id).revision == Revision(w.log, id)
  {
    hide FullReplay, Stream, StreamSerial;
    assert StreamSerial(agg, w.log, w.history, id);
    ReplayIsSerial(agg, w, id);
    if snapshot && id in w.snapshots {
      PastPlusTail(agg, w, id, w.snapshots[id]);
    }
    assert w.clients[c := ReadSnapshot(id, None)][c := HasState(id, FullReplay(agg, w.log, id))]
        == w.clients[c := HasState(id, FullReplay(agg, w.log, id))];
  }

  // ---- main results ----

  /** The snapshot store keeps the newest state offered for a stream, and touches no other stream's. */
  lemma NewestSnapshotKept<S, Id>(snapshots: map<Id, Loaded<S>>, id: Id, offered: Loaded<S>)
    ensures var kept := SaveIfNotStale(snapshots, id, offered);
      && id in kept && kept[id].revision >= offered.revision
      && kept[id] == (if id in snapshots && snapshots[id].revision > offered.revision then snapshots[id] else offered)
      && (forall other | other != id :: other in kept <==> other in snapshots)
      && (forall other | other != id && other in snapshots :: kept[other] == snapshots[other])
  {
  }

  /**
   * A client with nobody in between: it loads what is there (through a snapshot or not, with
   * the same outcome), and its command is refused by the domain, changing nothing, or its
   * events are appended and its state is the replay of the stream.
   */
  lemma UndisturbedExecute<S, Id(!new), E, C, R>(
    agg: Aggregate<S, E, C, R>, actions: seq<Action<Id, C>>, c: nat, id: Id, command: C, stamps: seq<Stamp>,
    snapshot: bool)
    requires var events := agg.handle(FullReplay(agg, Run(agg, actions).log, id).state, command);
      events.Ok? ==> |stamps| == |events.value|
    ensures var w := Run(agg, actions);
      var w2 := Step(agg, Step(agg, Loading(agg, w, c, id, snapshot), Decide(c, command)), Commit(c, stamps));
      && w2.snapshots == w.snapshots
      && match agg.handle(FullReplay(agg, w.log, id).state, command)
         case Err(_) => w2.log == w.log && w2.history == w.history && w2.clients == w.clients[c := Idle]
         case Ok(events) =>
           && w2.log == w.log + Envelopes(id, Revision(w.log, id), Sealed(events, stamps), Sequences(stamps))
           && w2.clients == w.clients[c := HasState(id, FullReplay(agg, w2.log, id))]
           && w2.history == w.history[id := At(w.history, id) + [command]]
  {
    hide FullReplay, Stream, Inv, Advance, Payloads;
    RunKeepsInv(agg, actions);
    var w := Run(agg, actions);
    LoadedFully(agg, w, c, id, snapshot);
    var loaded := FullReplay(agg, w.log, id);
    if agg.handle(loaded.state, command).Ok? {
      var batch := Sealed(agg.handle(loaded.state, command).value, stamps);
      CommittedState(agg, w.log, id, batch, Sequences(stamps));
    }
  }

  /**
   * Serializability: under every interleaving each stream is exactly what running its
   * committed commands one after the other produces, each accepted by `handle` on the
   * fold of everything before it.
   */
  lemma Serializable<S, Id(!new), E, C, R>(agg: Aggregate<S, E, C, R>, actions: seq<Action<Id, C>>, id: Id)
    ensures var w := Run(agg, actions);
      && Payloads(Stream(w.log, id)) == SerialEvents(agg, At(w.history, id))
      && AllAccepted(agg, At(w.history, id))
      && FullReplay(agg, w.log, id) == SerialState(agg, At(w.history, id))
  {
    RunKeepsInv(agg, actions);
    var w := Run(agg, actions);
    assert StreamSerial(agg, w.log, w.history, id);
    ReplayIsSerial(agg, w, id);
  }

  /** A predicate kept by handle-then-apply holds of every state any client ever holds. */
  lemma LoadedStatesGood<S(!new), Id(!new), E, C(!new), R>(
    agg: Aggregate<S, E, C, R>, good: S -> bool, actions: seq<Action<Id, C>>, c: nat)
    requires good(agg.initial)
    requires forall s, cmd | good(s) && agg.handle(s, cmd).Ok? :: good(Fold(agg, s, agg.handle(s, cmd).value))
    ensures var clients := Run(agg, actions).clients;
            c in clients && (clients[c].HasState? || clients[c].Decided?) ==> good(clients[c].loaded.state)
  {
    RunKeepsInv(agg, actions);
    var w := Run(agg, actions);
    if c in w.clients && (w.clients[c].HasState? || w.clients[c].Decided?) {
      var commands := At(w.history, w.clients[c].id);
      var k :| 0 <= k <= |commands| && w.clients[c].loaded == SerialState(agg, commands[..k]);
      SerialInvariant(agg, good, commands[..k]);
    }
  }

  /** Snapshot transparency: loading through a snapshot always returns the full replay. */
  lemma SnapshotTransparent<S, Id(!new), E, C, R>(agg: Aggregate<S, E, C, R>, actions: seq<Action<Id, C>>, c: nat)
    ensures var w := Run(agg, actions);
      c in w.clients && w.clients[c].ReadSnapshot? ==>
        Step(agg, w, LoadTail(c)).clients[c] == HasState(w.clients[c].id, FullReplay(agg, w.log, w.clients[c].id))
  {
    RunKeepsInv(agg, actions);
    var w := Run(agg, actions);
    if c in w.clients && w.clients[c].ReadSnapshot? && w.clients[c].snapshot.Some? {
      assert StreamSerial(agg, w.log, w.history, w.clients[c].id);
      PastPlusTail(agg, w, w.clients[c].id, w.clients[c].snapshot.value);
    }
  }

  lemma StepKeepsSnapshotRevision<S, Id(!new), E, C, R>(
    agg: Aggregate<S, E, C, R>, w: World<S, Id, E, C>, a: Action<Id, C>, id: Id)
    requires id in w.snapshots
    ensures id in Step(agg, w, a).snapshots
    ensures w.snapshots[id].revision <= Step(agg, w, a).snapshots[id].revision
  {
    hide FullReplay, ReplayFromSnapshot, Append, Advance, Sealed;
  }

  /** The stored snapshot revision of a stream never decreases, stale saves included. */
  lemma {:induction false} SnapshotRevisionMonotone<S, Id(!new), E, C, R>(
    agg: Aggregate<S, E, C, R>, actions: seq<Action<Id, C>>, k: nat, id: Id)
    requires k <= |actions|
    requires id in Run(agg, actions[..k]).snapshots
    ensures id in Run(agg, actions).snapshots
    ensures Run(agg, actions[..k]).snapshots[id].revision <= Run(agg, actions).snapshots[id].revision
  {
    hide Step;
    if k == |actions| {
      assert actions[..k] == actions;
    } else {
      var init := actions[..|actions| - 1];
      assert init[..k] == actions[..k];
      SnapshotRevisionMonotone(agg, init, k, id);
      StepKeepsSnapshotRevision(agg, Run(agg, init), actions[|actions| - 1], id);
    }
  }
}
