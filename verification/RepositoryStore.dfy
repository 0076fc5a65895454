/**
 * The repository's own methods, run against the in-memory event store and the in-memory
 * snapshot store, together with the bank-account instance of the general results.
 */
module RepositoryStore {
  import opened Common
  import opened EventLog
  import opened Aggregates
  import opened MemoryStore
  import Repository
  import Bank = BankAccount

  datatype RepositoryError<+R> = Domain(reason: R) | Concurrency(conflict: ConcurrencyError)

  datatype SnapshotError = StaleRevision(offered: nat, current: nat)

  /** Latest snapshot per stream, overwritten in place. */
  class InMemorySnapshotStore<Id(==), S> {
    var snapshots: map<Id, Loaded<S>>

    constructor ()
      ensures snapshots == map[]
    {
      snapshots := map[];
    }

    function LoadSnapshot(id: Id): Option<Loaded<S>>
      reads this
    {
      if id in snapshots then Some(snapshots[id]) else None
    }

    method SaveSnapshot(id: Id, offered: Loaded<S>) returns (result: Result<(), SnapshotError>)
      modifies this
      ensures snapshots == Repository.SaveIfNotStale(old(snapshots), id, offered)
      ensures result.Err? <==> id in old(snapshots) && offered.revision < old(snapshots)[id].revision
      ensures result.Err? ==>
        result.error == StaleRevision(offered.revision, old(snapshots)[id].revision) && snapshots == old(snapshots)
      ensures result.Ok? ==> LoadSnapshot(id) == Some(offered)
      ensures snapshots - {id} == old(snapshots) - {id}
    {
      if id in snapshots {
        var current := snapshots[id].revision;
        if offered.revision < current {
          return Err(StaleRevision(offered.revision, current));
        }
      }
      snapshots := snapshots[id := offered];
      result := Ok(());
    }
  }

  /** The store's tail read is the one the snapshot load is specified with. */
  lemma TailRead<Id(!new), E>(log: Log<Id, E>, id: Id, revision: nat)
    requires Ranked(log)
    ensures AfterRevision(Stream(log, id), revision) ==
            if revision <= Revision(log, id) then Stream(log, id)[revision..] else []
  {
    forall j | 0 <= j < Revision(log, id) ensures Stream(log, id)[j].revision == j + 1 {
      StreamRevisions(log, id, j);
    }
    AfterRevisionIsSuffix(Stream(log, id), revision);
  }

  class RepositoryOf<S, Id(==,!new), E, C, R> {
    const agg: Aggregate<S, E, C, R>
    const store: InMemoryEventStore<Id, E>

    constructor (agg: Aggregate<S, E, C, R>, store: InMemoryEventStore<Id, E>)
      ensures this.agg == agg && this.store == store
    {
      this.agg, this.store := agg, store;
    }

    method Load(id: Id) returns (loaded: Loaded<S>)
      requires store.Valid()
      ensures loaded == FullReplay(agg, store.global, id)
      ensures loaded.revision == Revision(store.global, id)
    {
      loaded := ApplyEnvelopes(agg, Loaded(agg.initial, 0), store.Load(id));
      FullReplayRevision(agg, store.global, id);
    }

    method LoadWithSnapshot(id: Id, snapshots: InMemorySnapshotStore<Id, S>) returns (loaded: Loaded<S>)
      requires store.Valid()
      ensures loaded == Repository.ReplayFromSnapshot(agg, store.global, id, snapshots.LoadSnapshot(id))
    {
      match snapshots.LoadSnapshot(id) {
        case None => loaded := ApplyEnvelopes(agg, Loaded(agg.initial, 0), store.Load(id));
        case Some(snapshot) =>
          loaded := ApplyEnvelopes(agg, snapshot, store.LoadAfterRevision(id, snapshot.revision));
          TailRead(store.global, id, snapshot.revision);
      }
    }

    /**
     * Load, decide, append. With nothing in between, the append cannot conflict: the only
     * error is the domain's, and then nothing was written.
     */
    method ExecuteReturningState(id: Id, command: C, stamp: nat -> Repository.Stamp)
      returns (result: Result<(Loaded<S>, Log<Id, E>), RepositoryError<R>>)
      requires store.Valid()
      modifies store
      ensures store.Valid()
      ensures match agg.handle(FullReplay(agg, old(store.global), id).state, command)
        case Err(reason) => result == Err(Domain(reason)) && store.global == old(store.global)
        case Ok(events) =>
          && result.Ok?
          && store.global == old(store.global) + result.value.1
          && Payloads(result.value.1) == events
          && Stream(store.global, id) == Stream(old(store.global), id) + result.value.1
          && result.value.0 == FullReplay(agg, store.global, id)
    {
      assert store.nextSequence == |store.global| + 1;
      hide FullReplay, Advance, Payloads, Stream, Envelopes, Repository.Sealed, InMemoryEventStore.Valid;
      var loaded := Load(id);
      match agg.handle(loaded.state, command) {
        case Err(reason) => return Err(Domain(reason));
        case Ok(events) =>
          ghost var log := store.global;
          var batch := Repository.Sealed(events, seq(|events|, stamp));
          var appended := store.Append(id, Exact(loaded.revision), batch);
          match appended {
            case Err(conflict) => return Err(Concurrency(conflict));
            case Ok(committed) =>
              var updated := ApplyEnvelopes(agg, loaded, committed);
              Repository.CommittedState(agg, log, id, batch, Consecutive(|log| + 1, |batch|));
              Repository.SealedPayloads(
                events, seq(|events|, stamp), id, loaded.revision, Consecutive(|log| + 1, |batch|));
              result := Ok((updated, committed));
          }
      }
    }
  }

  /** No interleaving of any number of clients ever shows an overdrawn bank account. */
  lemma BankNeverOverdrawn<Id(!new)>(actions: seq<Repository.Action<Id, Bank.Command>>, c: nat)
    ensures var clients := Repository.Run(Bank.Bank(), actions).clients;
      c in clients && (clients[c].HasState? || clients[c].Decided?) ==> Bank.Solvent(clients[c].loaded.state)
  {
    var agg := Bank.Bank();
    forall s, cmd | Bank.Solvent(s) && agg.handle(s, cmd).Ok?
      ensures Bank.Solvent(Fold(agg, s, agg.handle(s, cmd).value))
    {
      Bank.HandleKeepsSolvent(s, cmd);
    }
    Repository.LoadedStatesGood(agg, Bank.Solvent, actions, c);
  }
}
