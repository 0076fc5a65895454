/**
 * The process manager's checkpointed dispatch: any number of deliveries of the same
 * events run at once, each loading a dispatch index, sending the remaining commands
 * through a deduplicating bus one by one and saving the index after each. Loads, sends,
 * saves and clears may fail, with or without effect, and a delivery may crash anywhere.
 */
module ProcessManager {
  import opened Common
  import opened Text

  const SEPARATOR: byte := 58

  /** What the keys of one manager and event start with. */
  function Prefix(manager: Bytes, event: Bytes): Bytes {
    manager + [SEPARATOR] + event
  }

  /** `{manager}:{event}:{index}`, the key the bus deduplicates by. */
  function CommandKey(manager: Bytes, event: Bytes, index: nat): Bytes {
    Prefix(manager, event) + [SEPARATOR] + Decimal(index)
  }

  predicate NoSeparator(text: Bytes) {
    forall i | 0 <= i < |text| :: text[i] != SEPARATOR
  }

  lemma LastSeparator(a: Bytes, b: Bytes)
    requires NoSeparator(b)
    ensures var key := a + [SEPARATOR] + b;
      key[|a|] == SEPARATOR && (forall i | |a| < i < |key| :: key[i] != SEPARATOR)
  {
    var key := a + [SEPARATOR] + b;
    forall i | |a| < i < |key| ensures key[i] != SEPARATOR {
      assert key[i] == b[i - |a| - 1];
    }
  }

  lemma LastPart(a: Bytes, b: Bytes, c: Bytes, d: Bytes)
    requires NoSeparator(b) && NoSeparator(d)
    requires a + [SEPARATOR] + b == c + [SEPARATOR] + d
    ensures a == c && b == d
  {
    LastSeparator(a, b);
    LastSeparator(c, d);
    var key := a + [SEPARATOR] + b;
    assert a == key[..|a|] && c == key[..|c|];
    assert b == key[|a| + 1..] && d == key[|c| + 1..];
  }

  /** Two commands share a key exactly if their indexes and the beginnings of their keys agree. */
  lemma SameKey(m1: Bytes, e1: Bytes, i1: nat, m2: Bytes, e2: Bytes, i2: nat)
    ensures CommandKey(m1, e1, i1) == CommandKey(m2, e2, i2) <==> Prefix(m1, e1) == Prefix(m2, e2) && i1 == i2
  {
    DecimalParses(i1);
    DecimalParses(i2);
    if CommandKey(m1, e1, i1) == CommandKey(m2, e2, i2) {
      LastPart(Prefix(m1, e1), Decimal(i1), Prefix(m2, e2), Decimal(i2));
    }
  }

  /** The longer event id is some text, a separator, and the shorter event id. */
  ghost predicate IsTail(shorter: Bytes, longer: Bytes) {
    exists p: Bytes :: longer == p + [SEPARATOR] + shorter
  }

  /** The text that moves from the longer event id to the end of the other manager's name. */
  lemma MovedText(m1: Bytes, e1: Bytes, m2: Bytes, e2: Bytes)
    requires Prefix(m1, e1) == Prefix(m2, e2) && |e1| < |e2|
    ensures IsTail(e1, e2)
  {
    var key := Prefix(m1, e1);
    assert key == Prefix(m2, e2);
    assert e1 == key[|m1| + 1..] && e2 == key[|m2| + 1..];
    var p := key[|m2| + 1..|m1|];
    assert e2 == p + [SEPARATOR] + e1 by {
      assert key[|m1|] == SEPARATOR;
      assert key[|m2| + 1..] == p + key[|m1|..];
      assert key[|m1|..] == [SEPARATOR] + key[|m1| + 1..];
    }
  }

  lemma SamePrefix(m1: Bytes, e1: Bytes, m2: Bytes, e2: Bytes)
    requires Prefix(m1, e1) == Prefix(m2, e2)
    ensures (m1 == m2 && e1 == e2) || IsTail(e1, e2) || IsTail(e2, e1)
  {
    if |e1| < |e2| {
      MovedText(m1, e1, m2, e2);
    } else if |e2| < |e1| {
      MovedText(m2, e2, m1, e1);
    } else {
      assert m1 == Prefix(m1, e1)[..|m1|] && m2 == Prefix(m2, e2)[..|m2|];
      assert e1 == Prefix(m1, e1)[|m1| + 1..] && e2 == Prefix(m2, e2)[|m2| + 1..];
    }
  }

  /** Such event ids do collide: the text moves over into the manager name. */
  lemma KeyCollision(shorter: Bytes, longer: Bytes)
    requires IsTail(shorter, longer)
    ensures exists m1, m2 :: CommandKey(m1, shorter, 0) == CommandKey(m2, longer, 0)
  {
    var p: Bytes :| longer == p + [SEPARATOR] + shorter;
    var m1, m2: Bytes := [SEPARATOR] + p, [];
    assert Prefix(m1, shorter) == Prefix(m2, longer);
    assert CommandKey(m1, shorter, 0) == CommandKey(m2, longer, 0);
  }

  /**
   * The exact condition: commands of two different events can share a key, under some
   * manager names, if and only if one event id is a text and a separator before the other.
   */
  lemma AmbiguousExactly(e1: Bytes, e2: Bytes)
    requires e1 != e2
    ensures (exists m1, m2, i1, i2 :: CommandKey(m1, e1, i1) == CommandKey(m2, e2, i2)) <==>
            IsTail(e1, e2) || IsTail(e2, e1)
  {
    forall m1, m2, i1, i2 | CommandKey(m1, e1, i1) == CommandKey(m2, e2, i2)
      ensures IsTail(e1, e2) || IsTail(e2, e1)
    {
      SameKey(m1, e1, i1, m2, e2, i2);
      SamePrefix(m1, e1, m2, e2);
    }
    if IsTail(e1, e2) {
      KeyCollision(e1, e2);
    } else if IsTail(e2, e1) {
      KeyCollision(e2, e1);
    }
  }

  /** Commands of one event share a key only if they are the same command. */
  lemma KeysOfOneEvent(m1: Bytes, m2: Bytes, event: Bytes, i1: nat, i2: nat)
    ensures CommandKey(m1, event, i1) == CommandKey(m2, event, i2) <==> m1 == m2 && i1 == i2
  {
    SameKey(m1, event, i1, m2, event, i2);
    assert m1 == Prefix(m1, event)[..|m1|] && m2 == Prefix(m2, event)[..|m2|];
  }

  /** Keys are injective, whatever the manager names, if event ids contain no separator. */
  lemma KeyInjective(m1: Bytes, e1: Bytes, i1: nat, m2: Bytes, e2: Bytes, i2: nat)
    requires NoSeparator(e1) && NoSeparator(e2)
    requires CommandKey(m1, e1, i1) == CommandKey(m2, e2, i2)
    ensures m1 == m2 && e1 == e2 && i1 == i2
  {
    SameKey(m1, e1, i1, m2, e2, i2);
    LastPart(m1, e1, m2, e2);
  }

  // ---- the protocol ----

  /** A command that took effect: the index-th of those the manager emits for the event. */
  datatype Effect<C> = Effect(manager: Bytes, event: Bytes, index: nat, command: C)

  datatype Phase =
    | Idle
    | Loading(manager: Bytes, event: Bytes)
    | Dispatching(manager: Bytes, event: Bytes, next: nat)
    | SavingIndex(manager: Bytes, event: Bytes, index: nat)
    | Succeeded(manager: Bytes, event: Bytes)
    | Failed

  /** The bus (keys seen and effects, in order), the dispatch indexes, and the deliveries. */
  datatype World<C> = World(
    seen: set<Bytes>,
    effects: seq<Effect<C>>,
    indexes: map<(Bytes, Bytes), nat>,
    deliveries: map<nat, Phase>)

  datatype Action =
    | Deliver(d: nat, manager: Bytes, event: Bytes)
    | LoadIndex(d: nat, ok: bool)
    | HandlerFails(d: nat)
    | Dispatch(d: nat, effect: bool, ok: bool)
    | SaveIndex(d: nat, ok: bool, stored: bool)
    | ClearIndex(d: nat, ok: bool, cleared: bool)
    | Crash(d: nat)

  /** The commands a manager emits for an event: the same every time. */
  type Handler<!C> = (Bytes, Bytes) -> seq<C>

  function PhaseOf<C>(w: World<C>, d: nat): Phase {
    if d in w.deliveries then w.deliveries[d] else Idle
  }

  function Goes<C>(w: World<C>, d: nat, phase: Phase): World<C> {
    w.(deliveries := w.deliveries[d := phase])
  }

  function IndexOf<C>(w: World<C>, manager: Bytes, event: Bytes): nat {
    if (manager, event) in w.indexes then w.indexes[(manager, event)] else 0
  }

  /** The bus: a key it has seen is answered without running the command again. */
  function Send<C>(w: World<C>, manager: Bytes, event: Bytes, index: nat, command: C, effect: bool): World<C> {
    var key := CommandKey(manager, event, index);
    if key in w.seen || !effect then w
    else w.(seen := w.seen + {key}, effects := w.effects + [Effect(manager, event, index, command)])
  }

  function DispatchStep<C>(handler: Handler<C>, w: World<C>, d: nat, effect: bool, ok: bool): World<C> {
    var p := PhaseOf(w, d);
    if !p.Dispatching? || p.next >= |handler(p.manager, p.event)| then w else
      var sent := Send(w, p.manager, p.event, p.next, handler(p.manager, p.event)[p.next], effect);
      // The bus reports success only for a command that took effect, now or before.
      var succeeded := ok && CommandKey(p.manager, p.event, p.next) in sent.seen;
      Goes(sent, d, if succeeded then SavingIndex(p.manager, p.event, p.next) else Failed)
  }

  function SaveStep<C>(w: World<C>, d: nat, ok: bool, stored: bool): World<C> {
    var p := PhaseOf(w, d);
    if !p.SavingIndex? then w else
      var saved := if ok || stored then w.(indexes := w.indexes[(p.manager, p.event) := p.index + 1]) else w;
      Goes(saved, d, if ok then Dispatching(p.manager, p.event, p.index + 1) else Failed)
  }

  function ClearStep<C>(handler: Handler<C>, w: World<C>, d: nat, ok: bool, cleared: bool): World<C> {
    var p := PhaseOf(w, d);
    if !p.Dispatching? || p.next < |handler(p.manager, p.event)| then w else
      var gone := if ok || cleared then w.(indexes := w.indexes - {(p.manager, p.event)}) else w;
      Goes(gone, d, if ok then Succeeded(p.manager, p.event) else Failed)
  }

  function Step<C>(handler: Handler<C>, w: World<C>, a: Action): World<C> {
    match a
    case Deliver(d, manager, event) => Goes(w, d, Loading(manager, event))
    case LoadIndex(d, ok) =>
      var p := PhaseOf(w, d);
      if !p.Loading? then w
      else Goes(w, d, Dispatching(p.manager, p.event, if ok then IndexOf(w, p.manager, p.event) else 0))
    case HandlerFails(d) => if PhaseOf(w, d).Dispatching? then Goes(w, d, Failed) else w
    case Dispatch(d, effect, ok) => DispatchStep(handler, w, d, effect, ok)
    case SaveIndex(d, ok, stored) => SaveStep(w, d, ok, stored)
    case ClearIndex(d, ok, cleared) => ClearStep(handler, w, d, ok, cleared)
    case Crash(d) => Goes(w, d, Failed)
  }

  function Stepper<C>(handler: Handler<C>): (World<C>, Action) -> World<C> {
    (w, a) => Step(handler, w, a)
  }

  ghost function RunFrom<C>(handler: Handler<C>, w: World<C>, actions: seq<Action>): World<C> {
    FoldLeft(Stepper(handler), w, actions)
  }

  function Start<C>(): World<C> {
    World({}, [], map[], map[])
  }

  // ---- invariant ----

  /** The commands of one event that took effect, in the order they did. */
  ghost function EffectsOf<C>(w: World<C>, manager: Bytes, event: Bytes): seq<Effect<C>> {
    Filter(w.effects, (x: Effect<C>) => x.manager == manager && x.event == event)
  }

  ghost function Done<C>(w: World<C>, manager: Bytes, event: Bytes): nat {
    |EffectsOf(w, manager, event)|
  }

  /** The effects of one event are a prefix of its batch, in order, each once. */
  ghost predicate PrefixOfBatch<C>(handler: Handler<C>, w: World<C>, manager: Bytes, event: Bytes) {
    var batch := handler(manager, event);
    && Done(w, manager, event) <= |batch|
    && (forall i | 0 <= i < Done(w, manager, event) ::
          EffectsOf(w, manager, event)[i] == Effect(manager, event, i, batch[i]))
  }

  /** Two manager and event pairs whose commands never share a key. */
  ghost predicate Apart<C>(handler: Handler<C>, p: (Bytes, Bytes), q: (Bytes, Bytes)) {
    p == q || handler(p.0, p.1) == [] || handler(q.0, q.1) == [] || Prefix(p.0, p.1) != Prefix(q.0, q.1)
  }

  ghost predicate AllApart<C>(handler: Handler<C>, pairs: set<(Bytes, Bytes)>) {
    forall p, q | p in pairs && q in pairs :: Apart(handler, p, q)
  }

  ghost predicate KeySeen<C>(w: World<C>, manager: Bytes, event: Bytes, index: nat) {
    CommandKey(manager, event, index) in w.seen <==> index < Done(w, manager, event)
  }

  ghost predicate EventOk<C>(handler: Handler<C>, w: World<C>, manager: Bytes, event: Bytes) {
    && PrefixOfBatch(handler, w, manager, event)
    && (forall index: nat | index < |handler(manager, event)| :: KeySeen(w, manager, event, index))
    && IndexOf(w, manager, event) <= Done(w, manager, event)
  }

  ghost predicate PhaseOk<C>(handler: Handler<C>, pairs: set<(Bytes, Bytes)>, w: World<C>, p: Phase) {
    && (!p.Idle? && !p.Failed? ==> (p.manager, p.event) in pairs)
    && match p
       case Dispatching(manager, event, next) => next <= Done(w, manager, event)
       case SavingIndex(manager, event, index) => index < Done(w, manager, event)
       case Succeeded(manager, event) => Done(w, manager, event) == |handler(manager, event)|
       case _ => true
  }

  /** `pairs` are the manager and event pairs that are ever delivered. */
  ghost predicate Inv<C>(handler: Handler<C>, pairs: set<(Bytes, Bytes)>, w: World<C>) {
    && (forall p | p in pairs :: EventOk(handler, w, p.0, p.1))
    && (forall d: nat :: PhaseOk(handler, pairs, w, PhaseOf(w, d)))
  }

  lemma EffectsPush<C>(w: World<C>, x: Effect<C>, manager: Bytes, event: Bytes)
    ensures EffectsOf(w.(effects := w.effects + [x]), manager, event) ==
            EffectsOf(w, manager, event) + if x.manager == manager && x.event == event then [x] else []
  {
    assert (w.effects + [x])[..|w.effects|] == w.effects;
  }

  lemma SameEffects<C>(a: World<C>, b: World<C>, manager: Bytes, event: Bytes)
    requires a.effects == b.effects
    ensures EffectsOf(a, manager, event) == EffectsOf(b, manager, event)
  {
  }

  lemma SendKeepsEvent<C>(
    handler: Handler<C>, w: World<C>, m: Bytes, e: Bytes, index: nat, effect: bool, manager: Bytes, event: Bytes)
    requires Apart(handler, (m, e), (manager, event)) && index < |handler(m, e)|
    requires EventOk(handler, w, m, e) && EventOk(handler, w, manager, event)
    requires index <= Done(w, m, e)
    ensures EventOk(handler, Send(w, m, e, index, handler(m, e)[index], effect), manager, event)
  {
    hide EffectsOf;
    var key := CommandKey(m, e, index);
    var w' := Send(w, m, e, index, handler(m, e)[index], effect);
    assert KeySeen(w, m, e, index);
    if key !in w.seen && effect {
      EffectsPush(w, Effect(m, e, index, handler(m, e)[index]), manager, event);
      assert EffectsOf(w', manager, event) ==
             EffectsOf(w.(effects := w'.effects), manager, event) by {
        SameEffects(w', w.(effects := w'.effects), manager, event);
      }
      forall i: nat | i < |handler(manager, event)| ensures KeySeen(w', manager, event, i) {
        assert KeySeen(w, manager, event, i);
        SameKey(manager, event, i, m, e, index);
      }
    }
  }

  /** Steps other than a dispatch leave the bus alone. */
  lemma QuietStepKeepsEvent<C>(handler: Handler<C>, w: World<C>, w': World<C>, manager: Bytes, event: Bytes)
    requires EventOk(handler, w, manager, event)
    requires w'.seen == w.seen && w'.effects == w.effects
    requires IndexOf(w', manager, event) <= Done(w, manager, event)
    ensures EventOk(handler, w', manager, event)
  {
    SameEffects(w, w', manager, event);
    hide EffectsOf, CommandKey;
    forall i: nat | i < |handler(manager, event)| ensures KeySeen(w', manager, event, i) {
      assert KeySeen(w, manager, event, i);
    }
  }

  lemma SentKeepsEvent<C>(handler: Handler<C>, sent: World<C>, w': World<C>, manager: Bytes, event: Bytes)
    requires EventOk(handler, sent, manager, event)
    requires w'.seen == sent.seen && w'.effects == sent.effects && w'.indexes == sent.indexes
    ensures EventOk(handler, w', manager, event)
  {
    QuietStepKeepsEvent(handler, sent, w', manager, event);
  }

  lemma DispatchKeepsEvent<C>(
    handler: Handler<C>, pairs: set<(Bytes, Bytes)>, w: World<C>, d: nat, effect: bool, ok: bool,
    manager: Bytes, event: Bytes)
    requires Inv(handler, pairs, w) && AllApart(handler, pairs) && (manager, event) in pairs
    ensures EventOk(handler, DispatchStep(handler, w, d, effect, ok), manager, event)
  {
    hide EffectsOf, CommandKey, EventOk, Apart;
    var p := PhaseOf(w, d);
    assert PhaseOk(handler, pairs, w, p) && EventOk(handler, w, (manager, event).0, (manager, event).1);
    if p.Dispatching? && p.next < |handler(p.manager, p.event)| {
      var sender := (p.manager, p.event);
      assert EventOk(handler, w, sender.0, sender.1) && Apart(handler, sender, (manager, event));
      SendKeepsEvent(handler, w, p.manager, p.event, p.next, effect, manager, event);
      SentKeepsEvent(handler, Send(w, p.manager, p.event, p.next, handler(p.manager, p.event)[p.next], effect),
                     DispatchStep(handler, w, d, effect, ok), manager, event);
    }
  }

  lemma StepKeepsEvent<C>(
    handler: Handler<C>, pairs: set<(Bytes, Bytes)>, w: World<C>, a: Action, manager: Bytes, event: Bytes)
    requires Inv(handler, pairs, w) && AllApart(handler, pairs) && (manager, event) in pairs
    ensures EventOk(handler, Step(handler, w, a), manager, event)
  {
    hide EffectsOf, CommandKey, DispatchStep, Apart;
    assert EventOk(handler, w, (manager, event).0, (manager, event).1);
    assert PhaseOk(handler, pairs, w, PhaseOf(w, a.d));
    if a.Dispatch? {
      DispatchKeepsEvent(handler, pairs, w, a.d, a.effect, a.ok, manager, event);
    } else {
      QuietStepKeepsEvent(handler, w, Step(handler, w, a), manager, event);
    }
  }

  lemma StepGrows<C>(handler: Handler<C>, w: World<C>, a: Action, manager: Bytes, event: Bytes)
    ensures Done(w, manager, event) <= Done(Step(handler, w, a), manager, event)
  {
    hide EffectsOf, CommandKey;
    var w' := Step(handler, w, a);
    if w'.effects != w.effects {
      var x := w'.effects[|w.effects|];
      assert w'.effects == w.effects + [x];
      EffectsPush(w, x, manager, event);
      SameEffects(w', w.(effects := w'.effects), manager, event);
    } else {
      SameEffects(w, w', manager, event);
    }
  }

  lemma OthersKeepPhase<C>(handler: Handler<C>, pairs: set<(Bytes, Bytes)>, w: World<C>, a: Action, p: Phase)
    requires PhaseOk(handler, pairs, w, p)
    requires forall q | q in pairs :: EventOk(handler, Step(handler, w, a), q.0, q.1)
    ensures PhaseOk(handler, pairs, Step(handler, w, a), p)
  {
    hide EffectsOf, CommandKey, Step;
    if !p.Idle? && !p.Failed? {
      StepGrows(handler, w, a, p.manager, p.event);
      if p.Succeeded? {
        var q := (p.manager, p.event);
        assert EventOk(handler, Step(handler, w, a), q.0, q.1);
      }
    }
  }

  /** A dispatch that reported success took effect, so its index may be saved. */
  lemma DispatchedPhase<C>(
    handler: Handler<C>, pairs: set<(Bytes, Bytes)>, w: World<C>, d: nat, effect: bool, ok: bool)
    requires Inv(handler, pairs, w) && AllApart(handler, pairs)
    ensures var w' := DispatchStep(handler, w, d, effect, ok); PhaseOk(handler, pairs, w', PhaseOf(w', d))
  {
    hide EffectsOf, CommandKey, Apart;
    var p := PhaseOf(w, d);
    assert PhaseOk(handler, pairs, w, p);
    var w' := DispatchStep(handler, w, d, effect, ok);
    if p.Dispatching? && p.next < |handler(p.manager, p.event)| {
      DispatchKeepsEvent(handler, pairs, w, d, effect, ok, p.manager, p.event);
      assert KeySeen(w', p.manager, p.event, p.next);
    }
  }

  lemma StepKeepsOwnPhase<C>(handler: Handler<C>, pairs: set<(Bytes, Bytes)>, w: World<C>, a: Action)
    requires Inv(handler, pairs, w) && AllApart(handler, pairs)
    requires a.Deliver? ==> (a.manager, a.event) in pairs
    ensures PhaseOk(handler, pairs, Step(handler, w, a), PhaseOf(Step(handler, w, a), a.d))
  {
    hide EffectsOf, CommandKey, DispatchStep, KeySeen, Apart;
    var p := PhaseOf(w, a.d);
    assert PhaseOk(handler, pairs, w, p);
    if a.Dispatch? {
      DispatchedPhase(handler, pairs, w, a.d, a.effect, a.ok);
    } else if !p.Idle? && !p.Failed? {
      var q := (p.manager, p.event);
      assert EventOk(handler, w, q.0, q.1);
      SameEffects(w, Step(handler, w, a), p.manager, p.event);
    }
  }

  lemma StepMovesOne<C>(handler: Handler<C>, w: World<C>, a: Action, d: nat)
    requires d != a.d
    ensures PhaseOf(Step(handler, w, a), d) == PhaseOf(w, d)
  {
    hide CommandKey;
  }

  lemma StepKeepsInv<C>(handler: Handler<C>, pairs: set<(Bytes, Bytes)>, w: World<C>, a: Action)
    requires Inv(handler, pairs, w) && AllApart(handler, pairs)
    requires a.Deliver? ==> (a.manager, a.event) in pairs
    ensures Inv(handler, pairs, Step(handler, w, a))
  {
    hide EventOk, PhaseOk, DispatchStep, SaveStep, ClearStep, AllApart;
    var w' := Step(handler, w, a);
    forall p | p in pairs ensures EventOk(handler, w', p.0, p.1) {
      StepKeepsEvent(handler, pairs, w, a, p.0, p.1);
    }
    StepKeepsOwnPhase(handler, pairs, w, a);
    forall d: nat ensures PhaseOk(handler, pairs, w', PhaseOf(w', d)) {
      if d != a.d {
        StepMovesOne(handler, w, a, d);
        OthersKeepPhase(handler, pairs, w, a, PhaseOf(w, d));
      }
    }
  }

  /** Only events of these pairs are delivered. */
  ghost predicate DeliversOnly(actions: seq<Action>, pairs: set<(Bytes, Bytes)>) {
    forall k | 0 <= k < |actions| && actions[k].Deliver? :: (actions[k].manager, actions[k].event) in pairs
  }

  lemma {:induction false} RunKeepsInv<C>(
    handler: Handler<C>, pairs: set<(Bytes, Bytes)>, w: World<C>, actions: seq<Action>)
    requires Inv(handler, pairs, w) && AllApart(handler, pairs) && DeliversOnly(actions, pairs)
    ensures Inv(handler, pairs, RunFrom(handler, w, actions))
  {
    hide Inv, Step, AllApart;
    if actions != [] {
      var init := actions[..|actions| - 1];
      assert DeliversOnly(init, pairs) by {
        forall k | 0 <= k < |init| && init[k].Deliver? ensures (init[k].manager, init[k].event) in pairs {
          assert init[k] == actions[k];
        }
      }
      RunKeepsInv(handler, pairs, w, init);
      StepKeepsInv(handler, pairs, RunFrom(handler, w, init), actions[|actions| - 1]);
    }
  }

  lemma StartInv<C>(handler: Handler<C>, pairs: set<(Bytes, Bytes)>)
    ensures Inv(handler, pairs, Start<C>())
  {
    forall p | p in pairs ensures EventOk(handler, Start<C>(), p.0, p.1) {
      forall i: nat | i < |handler(p.0, p.1)| ensures KeySeen(Start<C>(), p.0, p.1, i) {}
    }
  }

  // ---- main results ----

  /** A pair's commands took effect as promised: a prefix, and all of them after a success. */
  ghost predicate Promised<C>(handler: Handler<C>, w: World<C>, manager: Bytes, event: Bytes) {
    && PrefixOfBatch(handler, w, manager, event)
    && (forall d: nat | PhaseOf(w, d) == Succeeded(manager, event) ::
          Done(w, manager, event) == |handler(manager, event)|)
  }

  /**
   * In every run, the commands of an event that took effect are a prefix of the batch its
   * manager emits, in order, each once; and all of the batch once a delivery has succeeded.
   */
  lemma EffectsArePrefix<C>(
    handler: Handler<C>, pairs: set<(Bytes, Bytes)>, actions: seq<Action>, manager: Bytes, event: Bytes)
    requires AllApart(handler, pairs) && DeliversOnly(actions, pairs) && (manager, event) in pairs
    ensures Promised(handler, RunFrom(handler, Start(), actions), manager, event)
  {
    StartInv(handler, pairs);
    RunKeepsInv(handler, pairs, Start(), actions);
    var w := RunFrom(handler, Start(), actions);
    var p := (manager, event);
    assert EventOk(handler, w, p.0, p.1);
    forall d: nat | PhaseOf(w, d) == Succeeded(manager, event)
      ensures Done(w, manager, event) == |handler(manager, event)|
    {
      assert PhaseOk(handler, pairs, w, PhaseOf(w, d));
    }
  }

  /** Event ids none of which is a separator tail of another keep all pairs apart. */
  lemma NoTailsApart<C>(handler: Handler<C>, pairs: set<(Bytes, Bytes)>)
    requires forall p, q | p in pairs && q in pairs :: !IsTail(p.1, q.1)
    ensures AllApart(handler, pairs)
  {
    forall p, q | p in pairs && q in pairs ensures Apart(handler, p, q) {
      if Prefix(p.0, p.1) == Prefix(q.0, q.1) {
        SamePrefix(p.0, p.1, q.0, q.1);
      }
    }
  }

  // ---- pairs that are not apart ----

  /** Sending the first `n` commands of an event, with nothing failing. */
  function Sends(d: nat, n: nat): seq<Action> {
    if n == 0 then [] else Sends(d, n - 1) + [Dispatch(d, true, true)] + [SaveIndex(d, true, true)]
  }

  /** The first command of `p` is sent; then `q` is delivered from start to end. Nothing fails. */
  function Collision<C>(handler: Handler<C>, p: (Bytes, Bytes), q: (Bytes, Bytes)): seq<Action> {
    [Deliver(0, p.0, p.1)] + [LoadIndex(0, true)] + [Dispatch(0, true, true)]
    + [Deliver(1, q.0, q.1)] + [LoadIndex(1, true)] + Sends(1, |handler(q.0, q.1)|) + [ClearIndex(1, true, true)]
  }

  /** No command with this index of this event ever took effect. */
  ghost predicate NeverRan<C>(w: World<C>, manager: Bytes, event: Bytes, index: nat) {
    forall i | 0 <= i < |w.effects| ::
      !(w.effects[i].manager == manager && w.effects[i].event == event && w.effects[i].index == index)
  }

  /** One command of an event whose first key was taken by another: it goes on, and the first stays lost. */
  lemma SendOnward<C>(handler: Handler<C>, w: World<C>, d: nat, q: (Bytes, Bytes), n: nat)
    requires PhaseOf(w, d) == Dispatching(q.0, q.1, n) && n < |handler(q.0, q.1)|
    requires CommandKey(q.0, q.1, 0) in w.seen && NeverRan(w, q.0, q.1, 0)
    ensures var w' := Step(handler, Step(handler, w, Dispatch(d, true, true)), SaveIndex(d, true, true));
      && PhaseOf(w', d) == Dispatching(q.0, q.1, n + 1)
      && CommandKey(q.0, q.1, 0) in w'.seen && NeverRan(w', q.0, q.1, 0)
  {
    hide CommandKey;
    var w1 := Step(handler, w, Dispatch(d, true, true));
    assert PhaseOf(w1, d) == SavingIndex(q.0, q.1, n);
  }

  lemma {:induction false} SendsOnward<C>(handler: Handler<C>, w: World<C>, d: nat, q: (Bytes, Bytes), n: nat)
    requires PhaseOf(w, d) == Dispatching(q.0, q.1, 0) && n <= |handler(q.0, q.1)|
    requires CommandKey(q.0, q.1, 0) in w.seen && NeverRan(w, q.0, q.1, 0)
    ensures var w' := RunFrom(handler, w, Sends(d, n));
      && PhaseOf(w', d) == Dispatching(q.0, q.1, n)
      && CommandKey(q.0, q.1, 0) in w'.seen && NeverRan(w', q.0, q.1, 0)
  {
    hide Step, CommandKey, NeverRan;
    if n > 0 {
      SendsOnward(handler, w, d, q, n - 1);
      FoldLeftPush(Stepper(handler), w, Sends(d, n - 1), Dispatch(d, true, true));
      FoldLeftPush(Stepper(handler), w, Sends(d, n - 1) + [Dispatch(d, true, true)], SaveIndex(d, true, true));
      SendOnward(handler, RunFrom(handler, w, Sends(d, n - 1)), d, q, n - 1);
    }
  }

  lemma StartRun<C>(handler: Handler<C>, w: World<C>, a: Action, b: Action, c: Action, x: Action, y: Action)
    ensures RunFrom(handler, w, [a] + [b] + [c] + [x] + [y]) ==
            Step(handler, Step(handler, Step(handler, Step(handler, Step(handler, w, a), b), c), x), y)
  {
    hide Step;
    assert [] + [a] == [a];
    FoldLeftPush(Stepper(handler), w, [], a);
    FoldLeftPush(Stepper(handler), w, [a], b);
    FoldLeftPush(Stepper(handler), w, [a] + [b], c);
    FoldLeftPush(Stepper(handler), w, [a] + [b] + [c], x);
    FoldLeftPush(Stepper(handler), w, [a] + [b] + [c] + [x], y);
  }

  /** The other event's first command takes the key. */
  lemma CollisionOpens<C>(handler: Handler<C>, p: (Bytes, Bytes), q: (Bytes, Bytes))
    requires !Apart(handler, p, q)
    ensures var w := RunFrom(handler, Start(), [Deliver(0, p.0, p.1)] + [LoadIndex(0, true)] + [Dispatch(0, true, true)]
                             + [Deliver(1, q.0, q.1)] + [LoadIndex(1, true)]);
      && PhaseOf(w, 1) == Dispatching(q.0, q.1, 0)
      && CommandKey(q.0, q.1, 0) in w.seen && NeverRan(w, q.0, q.1, 0)
  {
    var a, b, c := Deliver(0, p.0, p.1), LoadIndex(0, true), Dispatch(0, true, true);
    var x, y := Deliver(1, q.0, q.1), LoadIndex(1, true);
    SameKey(p.0, p.1, 0, q.0, q.1, 0);
    hide CommandKey, FoldLeft;
    var w0 := Start<C>();
    StartRun(handler, w0, a, b, c, x, y);
    var w2 := Step(handler, Step(handler, w0, a), b);
    assert PhaseOf(w2, 0) == Dispatching(p.0, p.1, 0);
    var w3 := Step(handler, w2, c);
    assert w3.seen == {CommandKey(p.0, p.1, 0)};
    assert w3.effects == [Effect(p.0, p.1, 0, handler(p.0, p.1)[0])];
    assert w3.indexes == map[];
  }

  lemma LostIsNotPromised<C>(handler: Handler<C>, w: World<C>, d: nat, q: (Bytes, Bytes))
    requires PhaseOf(w, d) == Succeeded(q.0, q.1) && NeverRan(w, q.0, q.1, 0) && handler(q.0, q.1) != []
    ensures !Promised(handler, w, q.0, q.1)
  {
    if Done(w, q.0, q.1) > 0 {
      var x := EffectsOf(w, q.0, q.1)[0];
      FilterMembers(w.effects, (x: Effect<C>) => x.manager == q.0 && x.event == q.1, x);
    }
  }

  /**
   * For any two pairs that are not apart the promise fails, with nothing going wrong on the
   * way: the second delivery succeeds and its first command never takes effect.
   */
  lemma CollisionLosesCommand<C>(handler: Handler<C>, p: (Bytes, Bytes), q: (Bytes, Bytes))
    requires !Apart(handler, p, q)
    ensures var w := RunFrom(handler, Start(), Collision(handler, p, q));
      && PhaseOf(w, 1) == Succeeded(q.0, q.1)
      && NeverRan(w, q.0, q.1, 0)
      && !Promised(handler, w, q.0, q.1)
  {
    var n := |handler(q.0, q.1)|;
    var opening := [Deliver(0, p.0, p.1)] + [LoadIndex(0, true)] + [Dispatch(0, true, true)]
                   + [Deliver(1, q.0, q.1)] + [LoadIndex(1, true)];
    CollisionOpens(handler, p, q);
    var w := RunFrom(handler, Start(), opening);
    SendsOnward(handler, w, 1, q, n);
    FoldLeftConcat(Stepper(handler), Start(), opening, Sends(1, n));
    FoldLeftPush(Stepper(handler), Start(), opening + Sends(1, n), ClearIndex(1, true, true));
    hide FoldLeft, CommandKey, DispatchStep;
    LostIsNotPromised(handler, RunFrom(handler, Start(), Collision(handler, p, q)), 1, q);
  }

  lemma {:induction false} SendsDeliverNothing(d: nat, n: nat)
    ensures forall k | 0 <= k < |Sends(d, n)| :: !Sends(d, n)[k].Deliver?
  {
    if n > 0 {
      SendsDeliverNothing(d, n - 1);
    }
  }

  lemma CollisionDelivers<C>(
    handler: Handler<C>, pairs: set<(Bytes, Bytes)>, p: (Bytes, Bytes), q: (Bytes, Bytes))
    requires p in pairs && q in pairs
    ensures DeliversOnly(Collision(handler, p, q), pairs)
  {
    SendsDeliverNothing(1, |handler(q.0, q.1)|);
  }

  /** The promise is kept in every run that delivers these pairs if and only if they are apart. */
  lemma PromisedExactly<C>(handler: Handler<C>, pairs: set<(Bytes, Bytes)>)
    ensures (forall actions, p | DeliversOnly(actions, pairs) && p in pairs ::
               Promised(handler, RunFrom(handler, Start(), actions), p.0, p.1)) <==>
            AllApart(handler, pairs)
  {
    hide RunFrom, Promised, Apart;
    if AllApart(handler, pairs) {
      forall actions, p | DeliversOnly(actions, pairs) && p in pairs
        ensures Promised(handler, RunFrom(handler, Start(), actions), p.0, p.1)
      {
        EffectsArePrefix(handler, pairs, actions, p.0, p.1);
      }
    } else {
      var p, q :| p in pairs && q in pairs && !Apart(handler, p, q);
      CollisionLosesCommand(handler, p, q);
      CollisionDelivers(handler, pairs, p, q);
    }
  }

  // ---- what one step does for a delivery ----

  /**
   * Sending a command runs it once: under a new key if the bus does run it, never under a
   * key it has seen. The delivery goes on to save its index if it is told of success, which
   * only a command that ran by now can report.
   */
  lemma SendMeaning<C>(handler: Handler<C>, w: World<C>, d: nat, effect: bool, ok: bool)
    requires PhaseOf(w, d).Dispatching? && PhaseOf(w, d).next < |handler(PhaseOf(w, d).manager, PhaseOf(w, d).event)|
    ensures var Dispatching(manager, event, i) := PhaseOf(w, d);
      var w', key := Step(handler, w, Dispatch(d, effect, ok)), CommandKey(manager, event, i);
      && w'.indexes == w.indexes
      && (key !in w.seen && effect ==>
            && w'.effects == w.effects + [Effect(manager, event, i, handler(manager, event)[i])]
            && w'.seen == w.seen + {key})
      && (key in w.seen || !effect ==> w'.effects == w.effects && w'.seen == w.seen)
      && PhaseOf(w', d) == if ok && (effect || key in w.seen) then SavingIndex(manager, event, i) else Failed
  {
    hide CommandKey;
  }

  /** Saving behind command i makes the next delivery of the event begin with command i + 1. */
  lemma SaveResumes<C>(handler: Handler<C>, w: World<C>, d: nat, ok: bool, stored: bool, d2: nat)
    requires PhaseOf(w, d).SavingIndex? && d2 != d
    ensures var SavingIndex(manager, event, i) := PhaseOf(w, d);
      var w' := Step(handler, w, SaveIndex(d, ok, stored));
      var next := Step(handler, Step(handler, w', Deliver(d2, manager, event)), LoadIndex(d2, true));
      && w'.effects == w.effects && w'.seen == w.seen
      && w'.indexes == (if ok || stored then w.indexes[(manager, event) := i + 1] else w.indexes)
      && PhaseOf(w', d) == (if ok then Dispatching(manager, event, i + 1) else Failed)
      && (ok ==> PhaseOf(next, d2) == Dispatching(manager, event, i + 1))
  {
  }

  /** A delivery starts at the saved index, or from the beginning if the load fails or nothing was saved. */
  lemma LoadMeaning<C>(handler: Handler<C>, w: World<C>, d: nat, manager: Bytes, event: Bytes, ok: bool)
    ensures var w' := Step(handler, Step(handler, w, Deliver(d, manager, event)), LoadIndex(d, ok));
      && w'.effects == w.effects && w'.seen == w.seen && w'.indexes == w.indexes
      && PhaseOf(w', d) ==
         Dispatching(manager, event, if ok && (manager, event) in w.indexes then w.indexes[(manager, event)] else 0)
  {
  }

  /** Behind the last command the index goes, and only that of the event. */
  lemma ClearMeaning<C>(handler: Handler<C>, w: World<C>, d: nat, ok: bool, cleared: bool)
    requires PhaseOf(w, d).Dispatching?
    requires PhaseOf(w, d).next >= |handler(PhaseOf(w, d).manager, PhaseOf(w, d).event)|
    ensures var Dispatching(manager, event, _) := PhaseOf(w, d); var w' := Step(handler, w, ClearIndex(d, ok, cleared));
      && w'.effects == w.effects && w'.seen == w.seen
      && w'.indexes == (if ok || cleared then w.indexes - {(manager, event)} else w.indexes)
      && PhaseOf(w', d) == if ok then Succeeded(manager, event) else Failed
  {
  }

  // ---- one delivery, as the runner executes it ----

  datatype RunError = ManagerFailed | BusFailed | CheckpointFailed(index: nat)

  /** What one delivery returns: the outputs so far, and what stopped it. */
  datatype RunResult<+C> = RunResult(dispatched: seq<C>, failedIndex: Option<nat>, error: Option<RunError>)

  /** How a call to the bus or to the checkpoint store goes: its effect and its report. */
  datatype Attempt = Attempt(effect: bool, ok: bool)

  datatype Faults = Faults(
    loadOk: bool,
    handlerOk: bool,
    dispatch: nat -> Attempt,
    save: nat -> Attempt,
    clear: Attempt)

  /** What a delivery reports: the commands from the loaded index on, up to where it stopped. */
  ghost predicate Delivered<C>(commands: seq<C>, start: nat, result: RunResult<C>) {
    && (result.failedIndex.Some? <==> result.error == Some(BusFailed))
    && result.error != Some(ManagerFailed)
    && if start <= |commands|
       then && start + |result.dispatched| <= |commands|
            && result.dispatched == commands[start..start + |result.dispatched|]
            && (result.failedIndex.Some? ==> result.failedIndex.value == start + |result.dispatched|)
            && (result.error.None? ==> start + |result.dispatched| == |commands|)
       else result.dispatched == []
  }

  /** The indexes after a delivery that started at `start` saved behind every command before `next`. */
  function SavedUpTo(before: map<(Bytes, Bytes), nat>, pair: (Bytes, Bytes), start: nat, next: nat)
    : map<(Bytes, Bytes), nat>
  {
    if next <= start then before else before[pair := next]
  }

  /** The command a delivery begins with: the one behind the saved index, or the first if the load fails. */
  function StartOf<C>(w: World<C>, manager: Bytes, event: Bytes, faults: Faults): nat {
    if faults.loadOk && (manager, event) in w.indexes then w.indexes[(manager, event)] else 0
  }

  /** Nothing fails in this delivery but, possibly, the load. */
  ghost predicate Healthy(faults: Faults) {
    && faults.handlerOk && faults.clear.ok
    && (forall i: nat :: faults.dispatch(i).effect && faults.dispatch(i).ok && faults.save(i).ok)
  }

  /** No bus call and no save for these commands reported a failure. */
  ghost predicate AllWell(faults: Faults, start: nat, next: nat) {
    forall i | start <= i < next :: faults.dispatch(i).ok && faults.save(i).ok
  }

  /**
   * What the dispatch loop leaves and reports: the commands from `start` on, up to where it
   * stopped, and the index saved behind the last of them (behind the one before it, if its
   * save failed without reaching the store).
   */
  ghost predicate LoopDone<C>(
    commands: seq<C>, start: nat, faults: Faults, pair: (Bytes, Bytes),
    before: map<(Bytes, Bytes), nat>, after: map<(Bytes, Bytes), nat>, result: RunResult<C>)
  {
    var next := start + |result.dispatched|;
    && Delivered(commands, start, result)
    && (result.error.None? ==> next >= |commands| && AllWell(faults, start, next))
    && result.failedIndex == (if result.error == Some(BusFailed) then Some(next) else None)
    && (result.error.None? || result.error == Some(BusFailed) ==> after == SavedUpTo(before, pair, start, next))
    && (result.error.Some? && result.error != Some(BusFailed) ==>
          && next > start && result.error == Some(CheckpointFailed(next - 1)) && !faults.save(next - 1).ok
          && after == SavedUpTo(before, pair, start, if faults.save(next - 1).effect then next else next - 1))
    && (Healthy(faults) ==> result.error.None?)
  }

  /** What is reported when command `index` was refused, or the index behind it could not be saved. */
  function StoppedAt<C>(dispatched: seq<C>, command: C, index: nat, error: RunError): RunResult<C> {
    if error == BusFailed then RunResult(dispatched, Some(index), Some(error))
    else RunResult(dispatched + [command], None, Some(error))
  }

  /** The loop in front of command `index`. */
  ghost predicate LoopAt<C>(
    commands: seq<C>, start: nat, faults: Faults, pair: (Bytes, Bytes),
    before: map<(Bytes, Bytes), nat>, now: map<(Bytes, Bytes), nat>, index: nat, dispatched: seq<C>)
  {
    && start <= index && (if start <= |commands| then index <= |commands| else index == start)
    && dispatched == (if start <= |commands| then commands[start..index] else [])
    && now == SavedUpTo(before, pair, start, index)
    && AllWell(faults, start, index)
  }

  lemma LoopStarts<C>(
    commands: seq<C>, start: nat, faults: Faults, pair: (Bytes, Bytes), before: map<(Bytes, Bytes), nat>)
    ensures LoopAt(commands, start, faults, pair, before, before, start, [])
  {
  }

  lemma LoopGoesOn<C>(
    commands: seq<C>, start: nat, faults: Faults, pair: (Bytes, Bytes),
    before: map<(Bytes, Bytes), nat>, now: map<(Bytes, Bytes), nat>, index: nat, dispatched: seq<C>)
    requires LoopAt(commands, start, faults, pair, before, now, index, dispatched) && index < |commands|
    requires faults.dispatch(index).ok && faults.save(index).ok
    ensures LoopAt(commands, start, faults, pair, before, now[pair := index + 1], index + 1,
                   dispatched + [commands[index]])
  {
    assert dispatched + [commands[index]] == commands[start..index + 1];
  }

  lemma LoopEnds<C>(
    commands: seq<C>, start: nat, faults: Faults, pair: (Bytes, Bytes),
    before: map<(Bytes, Bytes), nat>, now: map<(Bytes, Bytes), nat>, index: nat, dispatched: seq<C>)
    requires LoopAt(commands, start, faults, pair, before, now, index, dispatched) && index >= |commands|
    ensures index == start + |dispatched|
    ensures LoopDone(commands, start, faults, pair, before, now, RunResult(dispatched, None, None))
  {
    hide Healthy, SavedUpTo, AllWell;
  }

  lemma LoopFails<C>(
    commands: seq<C>, start: nat, faults: Faults, pair: (Bytes, Bytes),
    before: map<(Bytes, Bytes), nat>, now: map<(Bytes, Bytes), nat>, index: nat, dispatched: seq<C>, error: RunError)
    requires LoopAt(commands, start, faults, pair, before, now, index, dispatched) && index < |commands|
    requires error == BusFailed || (error == CheckpointFailed(index) && !faults.save(index).ok)
    requires !(faults.dispatch(index).effect && faults.dispatch(index).ok && faults.save(index).ok)
    ensures LoopDone(commands, start, faults, pair, before,
                     if error != BusFailed && faults.save(index).effect then now[pair := index + 1] else now,
                     StoppedAt(dispatched, commands[index], index, error))
  {
    assert dispatched + [commands[index]] == commands[start..index + 1];
  }

  /**
   * What a whole delivery leaves and reports. Without an error the event's index is gone;
   * after a refused command it is the index of that command, so that the next delivery
   * begins with it (no index was saved if it was the first). A checkpoint error names the
   * command whose index was not saved or, at the end, the one before the first command of
   * this delivery. With nothing failing there is no error.
   */
  ghost predicate DeliveryDone<C>(
    commands: seq<C>, start: nat, faults: Faults, pair: (Bytes, Bytes),
    before: map<(Bytes, Bytes), nat>, after: map<(Bytes, Bytes), nat>, result: RunResult<C>)
  {
    && (Healthy(faults) ==> result.error.None?)
    && (result.error == Some(ManagerFailed) <==> !faults.handlerOk)
    && match result.error
       case None => Delivered(commands, start, result) && after == before - {pair}
       case Some(ManagerFailed) => result.dispatched == [] && result.failedIndex.None? && after == before
       case Some(BusFailed) =>
         && Delivered(commands, start, result)
         && after == SavedUpTo(before, pair, start, result.failedIndex.value)
       case Some(CheckpointFailed(index)) =>
         var next := start + |result.dispatched|;
         && Delivered(commands, start, result)
         && if next > start && !faults.save(next - 1).ok
            then index == next - 1
                 && after == SavedUpTo(before, pair, start, if faults.save(index).effect then next else index)
            else next >= |commands| && !faults.clear.ok && index == (if start == 0 then 0 else start - 1)
                 && after == if faults.clear.effect then before - {pair} else SavedUpTo(before, pair, start, next)
  }

  lemma NotDelivered<C>(
    commands: seq<C>, start: nat, faults: Faults, pair: (Bytes, Bytes), before: map<(Bytes, Bytes), nat>)
    requires !faults.handlerOk
    ensures DeliveryDone(commands, start, faults, pair, before, before, RunResult([], None, Some(ManagerFailed)))
  {
  }

  /** The loop and then, if it reached the end, the clear. */
  lemma Delivers<C>(
    commands: seq<C>, start: nat, faults: Faults, pair: (Bytes, Bytes),
    before: map<(Bytes, Bytes), nat>, after: map<(Bytes, Bytes), nat>, result: RunResult<C>)
    requires faults.handlerOk && LoopDone(commands, start, faults, pair, before, after, result)
    ensures result.error != Some(ManagerFailed)
    ensures result.error.None? ==> start + |result.dispatched| >= |commands|
    ensures result.error.Some? ==> DeliveryDone(commands, start, faults, pair, before, after, result)
    ensures result.error.None? && faults.clear.ok ==>
      DeliveryDone(commands, start, faults, pair, before, after - {pair}, result)
    ensures result.error.None? && !faults.clear.ok ==>
      DeliveryDone(commands, start, faults, pair, before, if faults.clear.effect then after - {pair} else after,
                   result.(error := Some(CheckpointFailed(if start == 0 then 0 else start - 1))))
  {
  }

  class Runner<C> {
    const handler: Handler<C>
    var seen: set<Bytes>
    var effects: seq<Effect<C>>
    var indexes: map<(Bytes, Bytes), nat>
    ghost var deliveries: map<nat, Phase>

    constructor (handler: Handler<C>)
      ensures this.handler == handler && Abs() == Start()
    {
      this.handler := handler;
      seen, effects, indexes, deliveries := {}, [], map[], map[];
    }

    ghost function Abs(): World<C>
      reads this
    {
      World(seen, effects, indexes, deliveries)
    }

    /** The bus: runs the command unless it has seen the key. */
    method DispatchIdempotent(manager: Bytes, event: Bytes, index: nat, command: C, attempt: Attempt)
      returns (ok: bool)
      modifies this`seen, this`effects
      ensures Abs() == Send(old(Abs()), manager, event, index, command, attempt.effect)
      ensures ok <==> attempt.ok && CommandKey(manager, event, index) in seen
    {
      var key := CommandKey(manager, event, index);
      if key !in seen && attempt.effect {
        seen, effects := seen + {key}, effects + [Effect(manager, event, index, command)];
      }
      ok := attempt.ok && key in seen;
    }

    /** One command: send it, then save the index behind it. */
    method DispatchOne(d: nat, manager: Bytes, event: Bytes, index: nat, faults: Faults)
      returns (error: Option<RunError>, ghost steps: seq<Action>)
      requires index < |handler(manager, event)|
      requires PhaseOf(Abs(), d) == Dispatching(manager, event, index)
      modifies this
      ensures Abs() == RunFrom(handler, old(Abs()), steps)
      ensures error.None? ==> PhaseOf(Abs(), d) == Dispatching(manager, event, index + 1)
      ensures error.Some? ==> PhaseOf(Abs(), d) == Failed
      ensures error.Some? ==> error.value == BusFailed || error.value == CheckpointFailed(index)
      ensures error.None? ==> indexes == old(indexes)[(manager, event) := index + 1]
      ensures error == Some(BusFailed) ==> indexes == old(indexes)
      ensures error == Some(CheckpointFailed(index)) ==>
        !faults.save(index).ok &&
        indexes == if faults.save(index).effect then old(indexes)[(manager, event) := index + 1] else old(indexes)
      ensures faults.dispatch(index).effect && faults.dispatch(index).ok && faults.save(index).ok ==> error.None?
      ensures error.None? ==> faults.dispatch(index).ok && faults.save(index).ok
    {
      hide CommandKey;
      ghost var before := Abs();
      var attempt, save := faults.dispatch(index), faults.save(index);
      ghost var send: Action := Dispatch(d, attempt.effect, attempt.ok);
      ghost var store: Action := SaveIndex(d, save.ok, save.effect);
      FoldLeftPair(Stepper(handler), before, send, store);
      var ok := DispatchIdempotent(manager, event, index, handler(manager, event)[index], attempt);
      if !ok {
        deliveries := deliveries[d := Failed];
        assert Abs() == Step(handler, before, send);
        return Some(BusFailed), [send];
      }
      deliveries := deliveries[d := SavingIndex(manager, event, index)];
      assert Abs() == Step(handler, before, send);
      if save.ok || save.effect {
        indexes := indexes[(manager, event) := index + 1];
      }
      deliveries := deliveries[d := if save.ok then Dispatching(manager, event, index + 1) else Failed];
      error := if save.ok then None else Some(CheckpointFailed(index));
      steps := [send, store];
    }

    /** The loop over the remaining commands. */
    method DispatchFrom(d: nat, manager: Bytes, event: Bytes, start: nat, faults: Faults)
      returns (result: RunResult<C>, ghost trace: seq<Action>)
      requires PhaseOf(Abs(), d) == Dispatching(manager, event, start)
      modifies this
      ensures Abs() == RunFrom(handler, old(Abs()), trace)
      ensures PhaseOf(Abs(), d) ==
        if result.error.None? then Dispatching(manager, event, start + |result.dispatched|) else Failed
      ensures LoopDone(handler(manager, event), start, faults, (manager, event), old(indexes), indexes, result)
    {
      ghost var w, pair, before := Abs(), (manager, event), indexes;
      assert RunFrom(handler, w, []) == w;
      hide CommandKey, Step, FoldLeft, LoopAt, LoopDone, StoppedAt;
      trace := [];
      var commands := handler(manager, event);
      var dispatched: seq<C> := [];
      var index := start;
      LoopStarts(commands, start, faults, pair, before);
      while index < |commands|
        invariant LoopAt(commands, start, faults, pair, before, indexes, index, dispatched)
        invariant PhaseOf(Abs(), d) == Dispatching(manager, event, index)
        invariant Abs() == RunFrom(handler, w, trace)
      {
        ghost var now := indexes;
        var error, steps := DispatchOne(d, manager, event, index, faults);
        FoldLeftConcat(Stepper(handler), w, trace, steps);
        trace := trace + steps;
        if error.Some? {
          LoopFails(commands, start, faults, pair, before, now, index, dispatched, error.value);
          return StoppedAt(dispatched, commands[index], index, error.value), trace;
        }
        LoopGoesOn(commands, start, faults, pair, before, now, index, dispatched);
        dispatched := dispatched + [commands[index]];
        index := index + 1;
      }
      LoopEnds(commands, start, faults, pair, before, indexes, index, dispatched);
      return RunResult(dispatched, None, None), trace;
    }

    /** Loads the dispatch index; a failed load starts over. */
    method OpenDelivery(d: nat, manager: Bytes, event: Bytes, loadOk: bool) returns (start: nat)
      modifies this`deliveries
      ensures Abs() == Step(handler, Step(handler, old(Abs()), Deliver(d, manager, event)), LoadIndex(d, loadOk))
      ensures start == if loadOk && (manager, event) in indexes then indexes[(manager, event)] else 0
      ensures PhaseOf(Abs(), d) == Dispatching(manager, event, start)
    {
      start := if loadOk && (manager, event) in indexes then indexes[(manager, event)] else 0;
      deliveries := deliveries[d := Dispatching(manager, event, start)];
    }

    method AbandonDelivery(d: nat)
      requires PhaseOf(Abs(), d).Dispatching?
      modifies this`deliveries
      ensures Abs() == Step(handler, old(Abs()), HandlerFails(d)) && PhaseOf(Abs(), d) == Failed
    {
      deliveries := deliveries[d := Failed];
    }

    /** Clears the dispatch index behind the last command. */
    method FinishDelivery(d: nat, manager: Bytes, event: Bytes, clear: Attempt)
      requires var p := PhaseOf(Abs(), d);
        p.Dispatching? && p == Dispatching(manager, event, p.next) && p.next >= |handler(manager, event)|
      modifies this`deliveries, this`indexes
      ensures Abs() == Step(handler, old(Abs()), ClearIndex(d, clear.ok, clear.effect))
      ensures PhaseOf(Abs(), d) == if clear.ok then Succeeded(manager, event) else Failed
      ensures indexes == if clear.ok || clear.effect then old(indexes) - {(manager, event)} else old(indexes)
    {
      if clear.ok || clear.effect {
        indexes := indexes - {(manager, event)};
      }
      deliveries := deliveries[d := if clear.ok then Succeeded(manager, event) else Failed];
    }

    /**
     * The whole delivery is one uninterrupted stretch of the protocol, so everything proved
     * of runs holds of it; it reports no error exactly if it reached the end.
     */
    method RunEnvelopeWithCheckpoint(d: nat, manager: Bytes, event: Bytes, faults: Faults)
      returns (result: RunResult<C>, ghost trace: seq<Action>)
      modifies this
      ensures Abs() == RunFrom(handler, old(Abs()), [Deliver(d, manager, event), LoadIndex(d, faults.loadOk)] + trace)
      ensures result.error.None? <==> PhaseOf(Abs(), d) == Succeeded(manager, event)
      ensures DeliveryDone(handler(manager, event), StartOf(old(Abs()), manager, event, faults), faults,
                           (manager, event), old(indexes), indexes, result)
    {
      hide Step, FoldLeft, LoopDone, DeliveryDone;
      ghost var w, pair := Abs(), (manager, event);
      ghost var opening := [Deliver(d, manager, event), LoadIndex(d, faults.loadOk)];
      FoldLeftPair(Stepper(handler), w, Deliver(d, manager, event), LoadIndex(d, faults.loadOk));
      var start := OpenDelivery(d, manager, event, faults.loadOk);
      ghost var begun := Abs();
      if !faults.handlerOk {
        trace := [HandlerFails(d)];
        FoldLeftPush(Stepper(handler), w, opening, HandlerFails(d));
        AbandonDelivery(d);
        NotDelivered(handler(manager, event), start, faults, pair, indexes);
        return RunResult([], None, Some(ManagerFailed)), trace;
      }
      result, trace := DispatchFrom(d, manager, event, start, faults);
      FoldLeftConcat(Stepper(handler), w, opening, trace);
      Delivers(handler(manager, event), start, faults, pair, old(indexes), indexes, result);
      if result.error.None? {
        ghost var clear := ClearIndex(d, faults.clear.ok, faults.clear.effect);
        FoldLeftPush(Stepper(handler), w, opening + trace, clear);
        assert opening + (trace + [clear]) == opening + trace + [clear];
        trace := trace + [clear];
        FinishDelivery(d, manager, event, faults.clear);
        if !faults.clear.ok {
          result := result.(error := Some(CheckpointFailed(if start == 0 then 0 else start - 1)));
        }
      }
    }
  }
}
