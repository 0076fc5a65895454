/**
 * Aggregates: a decider (`handle`) and an evolver (`apply`) over abstract states, events
 * and commands, with the replay loops, and the bank account as a concrete instance.
 */
module Aggregates {
  import opened Common
  import opened EventLog

  datatype Aggregate<!S, !E, !C, +R> = Aggregate(
    initial: S,
    apply: (S, E) -> S,
    handle: (S, C) -> Result<seq<E>, R>)

  datatype Loaded<+S> = Loaded(state: S, revision: nat)

  /** State after applying `events` in order. */
  ghost function Fold<S, E, C, R>(agg: Aggregate<S, E, C, R>, s: S, events: seq<E>): S {
    FoldLeft(agg.apply, s, events)
  }

  lemma FoldConcat<S, E, C, R>(agg: Aggregate<S, E, C, R>, s: S, a: seq<E>, b: seq<E>)
    ensures Fold(agg, s, a + b) == Fold(agg, Fold(agg, s, a), b)
  {
    FoldLeftConcat(agg.apply, s, a, b);
  }

  ghost function Payloads<Id, E>(log: Log<Id, E>): (r: seq<E>)
    ensures |r| == |log|
  {
    seq(|log|, i requires 0 <= i < |log| => log[i].event)
  }

  lemma PayloadsConcat<Id, E>(a: Log<Id, E>, b: Log<Id, E>)
    ensures Payloads(a + b) == Payloads(a) + Payloads(b)
  {
  }

  /** A loaded aggregate brought forward over more envelopes. */
  ghost function Advance<S, Id, E, C, R>(agg: Aggregate<S, E, C, R>, from: Loaded<S>, events: Log<Id, E>): Loaded<S> {
    Loaded(Fold(agg, from.state, Payloads(events)),
           if events == [] then from.revision else events[|events| - 1].revision)
  }

  lemma AdvanceOne<S, Id, E, C, R>(agg: Aggregate<S, E, C, R>, from: Loaded<S>, events: Log<Id, E>, k: nat)
    requires k < |events|
    ensures Advance(agg, from, events[..k + 1]) ==
            Loaded(agg.apply(Advance(agg, from, events[..k]).state, events[k].event), events[k].revision)
  {
    assert Payloads(events[..k + 1])[..k] == Payloads(events[..k]);
  }

  /** The replay loop, shared by a full replay, a snapshot tail and freshly committed events. */
  method ApplyEnvelopes<S, Id, E, C, R>(agg: Aggregate<S, E, C, R>, from: Loaded<S>, events: Log<Id, E>)
    returns (loaded: Loaded<S>)
    ensures loaded == Advance(agg, from, events)
  {
    var state, revision := from.state, from.revision;
    for k := 0 to |events|
      invariant Loaded(state, revision) == Advance(agg, from, events[..k])
    {
      AdvanceOne(agg, from, events, k);
      state := agg.apply(state, events[k].event);
      revision := events[k].revision;
    }
    assert events[..|events|] == events;
    loaded := Loaded(state, revision);
  }

  ghost function FullReplay<S, Id(!new), E, C, R>(agg: Aggregate<S, E, C, R>, log: Log<Id, E>, id: Id): Loaded<S> {
    Advance(agg, Loaded(agg.initial, 0), Stream(log, id))
  }

  /** A full replay of a ranked log ends at the stream's length. */
  lemma FullReplayRevision<S, Id(!new), E, C, R>(agg: Aggregate<S, E, C, R>, log: Log<Id, E>, id: Id)
    requires Ranked(log)
    ensures FullReplay(agg, log, id).revision == Revision(log, id)
  {
    if Revision(log, id) > 0 {
      StreamRevisions(log, id, Revision(log, id) - 1);
    }
  }

  /** Replaying raw events, without envelopes, starting at revision zero. */
  method ReplayRawEvents<S, E, C, R>(agg: Aggregate<S, E, C, R>, events: seq<E>) returns (loaded: Loaded<S>)
    ensures loaded == Loaded(Fold(agg, agg.initial, events), |events|)
  {
    var state := agg.initial;
    for k := 0 to |events|
      invariant state == Fold(agg, agg.initial, events[..k])
    {
      assert events[..k + 1][..k] == events[..k];
      state := agg.apply(state, events[k]);
    }
    assert events[..|events|] == events;
    loaded := Loaded(state, |events|);
  }

  // ---- serial execution of commands: the reference the repository is compared with ----

  /** Events of one stream when the commands run one after the other. */
  ghost function SerialEvents<S, E, C, R>(agg: Aggregate<S, E, C, R>, commands: seq<C>): seq<E> {
    if commands == [] then [] else
      var before := SerialEvents(agg, commands[..|commands| - 1]);
      before + match agg.handle(Fold(agg, agg.initial, before), commands[|commands| - 1])
               case Ok(events) => events
               case Err(_) => []
  }

  ghost function SerialState<S, E, C, R>(agg: Aggregate<S, E, C, R>, commands: seq<C>): Loaded<S> {
    Loaded(Fold(agg, agg.initial, SerialEvents(agg, commands)), |SerialEvents(agg, commands)|)
  }

  /** No command of the serial run is rejected. */
  ghost predicate AllAccepted<S, E, C, R>(agg: Aggregate<S, E, C, R>, commands: seq<C>) {
    forall k | 0 <= k < |commands| :: agg.handle(SerialState(agg, commands[..k]).state, commands[k]).Ok?
  }

  lemma {:induction false} SerialPrefix<S, E, C, R>(agg: Aggregate<S, E, C, R>, commands: seq<C>, k: nat)
    requires k <= |commands|
    ensures |SerialEvents(agg, commands[..k])| <= |SerialEvents(agg, commands)|
    ensures SerialEvents(agg, commands[..k]) == SerialEvents(agg, commands)[..|SerialEvents(agg, commands[..k])|]
  {
    if k == |commands| {
      assert commands[..k] == commands;
    } else {
      var init := commands[..|commands| - 1];
      SerialPrefix(agg, init, k);
      assert init[..k] == commands[..k];
    }
  }

  /** A state predicate kept by handle-then-apply holds after every serial run. */
  lemma {:induction false} SerialInvariant<S(!new), E, C(!new), R>(
    agg: Aggregate<S, E, C, R>, good: S -> bool, commands: seq<C>)
    requires good(agg.initial)
    requires forall s, c | good(s) && agg.handle(s, c).Ok? :: good(Fold(agg, s, agg.handle(s, c).value))
    ensures good(SerialState(agg, commands).state)
  {
    if commands != [] {
      var init, last := commands[..|commands| - 1], commands[|commands| - 1];
      SerialInvariant(agg, good, init);
      var before := SerialEvents(agg, init);
      match agg.handle(Fold(agg, agg.initial, before), last)
      case Ok(events) => FoldConcat(agg, agg.initial, before, events);
      case Err(_) => assert before + [] == before;
    }
  }
}

/** The bank-account aggregate of the example program, over unbounded integers. */
module BankAccount {
  import opened Common
  import opened Aggregates

  datatype Event =
    | AccountOpened(accountId: string, ownerName: string)
    | MoneyDeposited(amount: int)
    | MoneyWithdrawn(amount: int)
    | AccountClosed

  datatype Command =
    | OpenAccount(accountId: string, ownerName: string)
    | DepositMoney(amount: int)
    | WithdrawMoney(amount: int)
    | CloseAccount

  datatype Error = AlreadyOpen | NotOpen | InvalidAmount | InsufficientFunds | AlreadyClosed

  datatype Account = Account(id: Option<string>, ownerName: Option<string>, balance: int, isOpen: bool)

  function Apply(a: Account, event: Event): Account {
    match event
    case AccountOpened(accountId, ownerName) => a.(id := Some(accountId), ownerName := Some(ownerName), isOpen := true)
    case MoneyDeposited(amount) => a.(balance := a.balance + amount)
    case MoneyWithdrawn(amount) => a.(balance := a.balance - amount)
    case AccountClosed => a.(isOpen := false)
  }

  function Handle(a: Account, command: Command): Result<seq<Event>, Error> {
    match command
    case OpenAccount(accountId, ownerName) =>
      if a.isOpen then Err(AlreadyOpen) else Ok([AccountOpened(accountId, ownerName)])
    case DepositMoney(amount) =>
      if !a.isOpen then Err(NotOpen)
      else if amount <= 0 then Err(InvalidAmount)
      else Ok([MoneyDeposited(amount)])
    case WithdrawMoney(amount) =>
      if !a.isOpen then Err(NotOpen)
      else if amount <= 0 then Err(InvalidAmount)
      else if a.balance < amount then Err(InsufficientFunds)
      else Ok([MoneyWithdrawn(amount)])
    case CloseAccount =>
      if a.id.Some? && !a.isOpen then Err(AlreadyClosed)
      else if a.id.None? then Err(NotOpen)
      else Ok([AccountClosed])
  }

  function Bank(): Aggregate<Account, Event, Command, Error> {
    Aggregate(Account(None, None, 0, false), Apply, Handle)
  }

  /** Deposits minus withdrawals. */
  ghost function NetFlow(events: seq<Event>): int {
    if events == [] then 0 else
      NetFlow(events[..|events| - 1]) +
      match events[|events| - 1]
      case MoneyDeposited(amount) => amount
      case MoneyWithdrawn(amount) => -amount
      case _ => 0
  }

  /** Conservation: whatever the history, the balance is what went in minus what went out. */
  lemma {:induction false} BalanceIsNetFlow(events: seq<Event>)
    ensures Fold(Bank(), Bank().initial, events).balance == NetFlow(events)
  {
    if events != [] {
      BalanceIsNetFlow(events[..|events| - 1]);
    }
  }

  /** An account is open exactly if it was opened at some time and not closed since. */
  lemma {:induction false} OpenExactly(events: seq<Event>)
    ensures Fold(Bank(), Bank().initial, events).isOpen <==>
            exists k | 0 <= k < |events| ::
              events[k].AccountOpened? && forall j | k < j < |events| :: !events[j].AccountClosed?
  {
    if events != [] {
      var init := events[..|events| - 1];
      OpenExactly(init);
      var last := events[|events| - 1];
      assert events == init + [last];
      if last.AccountOpened? {
        assert events[|init|].AccountOpened?;
      } else if Fold(Bank(), Bank().initial, init).isOpen && !last.AccountClosed? {
        var k :| 0 <= k < |init| && init[k].AccountOpened? && forall j | k < j < |init| :: !init[j].AccountClosed?;
        assert events[k].AccountOpened?;
      } else if exists k | 0 <= k < |events| ::
          events[k].AccountOpened? && forall j | k < j < |events| :: !events[j].AccountClosed? {
        var k :| 0 <= k < |events|
          && events[k].AccountOpened? && forall j | k < j < |events| :: !events[j].AccountClosed?;
        assert k < |init| && init[k].AccountOpened?;
        forall j | k < j < |init| ensures !init[j].AccountClosed? { assert events[j] == init[j]; }
      }
    }
  }

  /**
   * Which commands are accepted, by what an account's state says, and what they do: each
   * emits one event. The refusals are checked in the order account, amount, funds.
   */
  lemma AcceptedExactly(a: Account, command: Command)
    ensures match command
      case OpenAccount(accountId, ownerName) =>
        && (Handle(a, command).Ok? <==> !a.isOpen) && (a.isOpen ==> Handle(a, command).error == AlreadyOpen)
        && (!a.isOpen ==>
              Fold(Bank(), a, Handle(a, command).value) == Account(Some(accountId), Some(ownerName), a.balance, true))
      case DepositMoney(amount) =>
        && (Handle(a, command).Ok? <==> a.isOpen && amount >= 1)
        && (!a.isOpen ==> Handle(a, command).error == NotOpen)
        && (a.isOpen && amount < 1 ==> Handle(a, command).error == InvalidAmount)
        && (Handle(a, command).Ok? ==>
              Fold(Bank(), a, Handle(a, command).value) == a.(balance := a.balance + amount))
      case WithdrawMoney(amount) =>
        && (Handle(a, command).Ok? <==> a.isOpen && 1 <= amount <= a.balance)
        && (!a.isOpen ==> Handle(a, command).error == NotOpen)
        && (a.isOpen && amount < 1 ==> Handle(a, command).error == InvalidAmount)
        && (a.isOpen && amount >= 1 && amount > a.balance ==> Handle(a, command).error == InsufficientFunds)
        && (Handle(a, command).Ok? ==>
              Fold(Bank(), a, Handle(a, command).value) == a.(balance := a.balance - amount))
      case CloseAccount =>
        && (a.id.None? ==> Handle(a, command) == Err(NotOpen))
        && (a.id.Some? && !a.isOpen ==> Handle(a, command) == Err(AlreadyClosed))
        && (a.id.Some? && a.isOpen ==>
              Handle(a, command).Ok? && Fold(Bank(), a, Handle(a, command).value) == a.(isOpen := false))
  {
    match Handle(a, command)
    case Ok(events) =>
      assert events == [events[0]];
      assert Fold(Bank(), a, [events[0]]) == Apply(Fold(Bank(), a, []), events[0]);
    case Err(_) =>
  }

  /** Solvent accounts: no overdraft, and only an identified account can be open. */
  predicate Solvent(a: Account) {
    a.balance >= 0 && (a.isOpen ==> a.id.Some?) && (a.balance > 0 ==> a.id.Some?)
  }

  lemma HandleKeepsSolvent(a: Account, command: Command)
    requires Solvent(a) && Handle(a, command).Ok?
    ensures Solvent(Fold(Bank(), a, Handle(a, command).value))
  {
    var event := Handle(a, command).value[0];
    assert Handle(a, command).value == [event];
    assert Fold(Bank(), a, [event]) == Apply(Fold(Bank(), a, []), event);
  }
}
