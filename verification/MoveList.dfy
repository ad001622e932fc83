/**
 From rest to rest: what a machine of the engine does when its lifecycle is described by a
 complete list of moves, each with the effects performed on the way. The machine rests only
 where the list says, accepts exactly the requests listed there, ends each one where the list
 says once the effects are acknowledged, and can reach every state of the list.
 */
module MoveLists {
  import opened Wrappers
  import opened StateMachines

  /** A request at some resting states, where it comes to rest, and the one or two batches performed on the way. */
  datatype Move<S> = Move(from: seq<S>, request: Event, to: S, effects: seq<EffectIntent>, following: seq<EffectIntent>)

  function AllEffects<S>(move: Move<S>): seq<EffectIntent> {
    move.effects + move.following
  }

  // ---------------------------------------------------------------------------
  // What a list of moves promises

  ghost predicate RestsAt<S>(m: Machine<S>, state: S) {
    m.state == At(state) && m.deferred.None?
  }

  ghost predicate Listed<S>(initial: S, moves: seq<Move<S>>, state: S) {
    state == initial || exists i :: 0 <= i < |moves| && moves[i].to == state
  }

  ghost predicate Offers<S>(moves: seq<Move<S>>, state: S, request: Event) {
    exists i :: 0 <= i < |moves| && state in moves[i].from && moves[i].request == request
  }

  /** Space for that many more records of the trace and generations of effects. */
  predicate Room<S>(m: Machine<S>, records: nat, batches: nat) {
    |m.trace| + records <= m.traceLimit && m.nextGeneration + batches <= U64_MAX
  }

  predicate Acknowledges(instanceId: nat, events: seq<Event>, effects: seq<EffectIntent>) {
    && |events| == |effects|
    && forall j :: 0 <= j < |events| ==>
         && events[j].EffectAcknowledged?
         && events[j].token.instanceId == instanceId && events[j].token.effect == effects[j]
  }

  /** The request and the acknowledgement of each effect in turn are all accepted and end at the move's end. */
  ghost predicate Ends<S>(table: Table<S>, m: Machine<S>, move: Move<S>, acks: seq<Event>) {
    var m' := Run(table, m, [move.request] + acks);
    && RestsAt(m', move.to) && |m'.trace| == |m.trace| + 1 + |acks|
    && m.nextGeneration <= m'.nextGeneration <= m.nextGeneration + 2
    && m'.traceLimit == m.traceLimit && m'.instanceId == m.instanceId
  }

  ghost predicate Completes<S>(table: Table<S>, m: Machine<S>, move: Move<S>) {
    exists acks :: Acknowledges(m.instanceId, acks, AllEffects(move)) && Ends(table, m, move, acks)
  }

  ghost predicate Honours<S>(table: Table<S>, initial: S, moves: seq<Move<S>>, m: Machine<S>) {
    m.state.At? ==>
      && Listed(initial, moves, m.state.state)
      && (forall e :: !IsOutcome(e) && Room(m, 1, 1) ==>
            (Apply(table, m, e).0.Ok? <==> Offers(moves, m.state.state, e)))
      && (forall i :: 0 <= i < |moves| && m.state.state in moves[i].from && Room(m, 1 + |AllEffects(moves[i])|, 2) ==>
            Completes(table, m, moves[i]))
  }

  ghost predicate Reached<S>(table: Table<S>, initial: S, state: S) {
    exists limit, events :: RestsAt(Run(table, New(initial, 0, limit), events), state)
  }

  /** Every run honours the moves, and every state of the moves is reached by some run. */
  ghost predicate Behaves<S(!new)>(table: Table<S>, initial: S, moves: seq<Move<S>>) {
    && (forall instanceId, traceLimit, events ::
          Honours(table, initial, moves, Run(table, New(initial, instanceId, traceLimit), events)))
    && (forall state :: Listed(initial, moves, state) ==> Reached(table, initial, state))
  }

  // ---------------------------------------------------------------------------
  // What makes a list the moves of a table

  const PROBE := EffectAcknowledged(Token(0, BeginJob, 0))

  /** Where a state leads once its effects are acknowledged, and the effects that follow. */
  function Then<S>(table: Table<S>, state: S): (S, seq<EffectIntent>) {
    match table(state, PROBE)
    case None => (state, [])
    case Some(next) => next
  }

  /** At the state the table answers the request with the first batch, and then leads to the end over the second. */
  ghost predicate Makes<S>(table: Table<S>, state: S, move: Move<S>) {
    && table(state, move.request).Some?
    && var (next, effects) := table(state, move.request).value;
    && effects == move.effects && Then(table, next) == (move.to, move.following)
  }

  /** What follows an acknowledged batch is never followed by more. */
  ghost predicate Shallow<S(!new)>(table: Table<S>) {
    && WellFormed(table)
    && forall s :: Quiet(table, Then(table, s).0)
  }

  /** A move that the table makes from each of its states. */
  ghost predicate Taken<S(!new)>(table: Table<S>, move: Move<S>) {
    && !IsOutcome(move.request) && |AllEffects(move)| < 20
    && forall s :: s in move.from ==> Makes(table, s, move)
  }

  /** Each move can start where the machine starts or where an earlier move of the list ends. */
  ghost predicate Ordered<S>(initial: S, moves: seq<Move<S>>) {
    forall i :: 0 <= i < |moves| ==>
      initial in moves[i].from || exists j :: 0 <= j < i && moves[j].to in moves[i].from
  }

  /** No request is accepted where machines can rest but those of the list. */
  ghost predicate Exhaustive<S(!new)>(table: Table<S>, moves: seq<Move<S>>) {
    forall s, e :: Quiet(table, s) && !IsOutcome(e) && table(s, e).Some? ==> Offers(moves, s, e)
  }

  ghost predicate Lists<S(!new)>(table: Table<S>, initial: S, moves: seq<Move<S>>) {
    && Shallow(table) && Quiet(table, initial) && |moves| < 100
    && (forall i :: 0 <= i < |moves| ==> Taken(table, moves[i]))
    && Ordered(initial, moves) && Exhaustive(table, moves)
  }

  lemma QuietStays<S(!new)>(table: Table<S>, state: S)
    requires Quiet(table, state)
    ensures Then(table, state) == (state, [])
  {
  }

  lemma AnyAcknowledgement<S(!new)>(table: Table<S>, state: S, token: Token)
    requires WellFormed(table)
    ensures table(state, EffectAcknowledged(token)) == table(state, PROBE)
  {
  }

  lemma NothingAskedRests<S(!new)>(table: Table<S>, state: S, event: Event)
    requires WellFormed(table) && table(state, event).Some? && table(state, event).value.1 == []
    ensures Quiet(table, table(state, event).value.0)
  {
  }

  // ---------------------------------------------------------------------------
  // Machines rest only at listed states

  ghost predicate Bound<S(!new)>(table: Table<S>, initial: S, moves: seq<Move<S>>, m: Machine<S>) {
    match m.deferred
    case None => m.state.At? && Quiet(table, m.state.state) && Listed(initial, moves, m.state.state)
    case Some(d) => !m.state.At? && Listed(initial, moves, Then(table, d.target).0)
  }

  /** Entering a state whose end is listed keeps the machine bound for a listed state. */
  lemma EnterBound<S(!new)>(table: Table<S>, initial: S, moves: seq<Move<S>>, m: Machine<S>, event: Event, next: S,
                            effects: seq<EffectIntent>)
    requires Bound(table, initial, moves, m) && Listed(initial, moves, Then(table, next).0)
    requires effects == [] ==> Quiet(table, next)
    ensures Bound(table, initial, moves, Enter(m, event, next, effects).1)
  {
    if effects == [] { QuietStays(table, next); }
    hide Quiet, Then, Listed;
  }

  lemma SettleBound<S(!new)>(table: Table<S>, initial: S, moves: seq<Move<S>>, m: Machine<S>, event: Event)
    requires Shallow(table) && Bound(table, initial, moves, m) && m.deferred.Some?
    ensures Bound(table, initial, moves, Settle(table, m, m.deferred.value, event).1)
  {
    var d := m.deferred.value;
    if event.EffectAcknowledged? {
      AnyAcknowledgement(table, d.target, event.token);
      var (next, _) := Then(table, d.target);
      assert Quiet(table, next);
      QuietStays(table, next);
      match table(d.target, event)
      case Some((_, effects)) => EnterBound(table, initial, moves, m, event, next, effects);
      case None => EnterBound(table, initial, moves, m, event, next, []);
    }
    hide Quiet, Listed, Enter, Shallow;
  }

  lemma NextIsListed<S(!new)>(table: Table<S>, initial: S, moves: seq<Move<S>>, state: S, event: Event)
    requires Lists(table, initial, moves) && Quiet(table, state) && !IsOutcome(event) && table(state, event).Some?
    ensures Listed(initial, moves, Then(table, table(state, event).value.0).0)
  {
    assert Offers(moves, state, event);
    var i :| 0 <= i < |moves| && state in moves[i].from && moves[i].request == event;
    assert Taken(table, moves[i]);
    hide Lists, Quiet;
  }

  lemma AdvanceBound<S(!new)>(table: Table<S>, initial: S, moves: seq<Move<S>>, m: Machine<S>, event: Event)
    requires Lists(table, initial, moves) && Bound(table, initial, moves, m) && m.deferred.None?
    ensures Bound(table, initial, moves, Advance(table, m, event).1)
  {
    var state := m.state.state;
    if table(state, event).Some? && !event.EffectFailed? && !event.EffectCancelled? {
      assert !IsOutcome(event);
      var (next, effects) := table(state, event).value;
      NextIsListed(table, initial, moves, state, event);
      if effects == [] { NothingAskedRests(table, state, event); }
      hide Exhaustive, Ordered, Taken;
      EnterBound(table, initial, moves, m, event, next, effects);
    }
    hide Quiet, Listed, Enter, Lists;
  }

  lemma StepBound<S(!new)>(table: Table<S>, initial: S, moves: seq<Move<S>>, m: Machine<S>, event: Event)
    requires Lists(table, initial, moves) && Bound(table, initial, moves, m)
    requires m.deferred.Some? ==> m.deferred.value.effects != []
    ensures Bound(table, initial, moves, Apply(table, m, event).1)
  {
    if m.deferred.None? {
      AdvanceBound(table, initial, moves, m, event);
    } else {
      SettleBound(table, initial, moves, m, event);
      EnterBound(table, initial, moves, m, event, m.deferred.value.target, m.deferred.value.effects);
    }
    hide Bound, Lists, Advance, Settle, Enter;
  }

  lemma {:induction false} RunBound<S(!new)>(table: Table<S>, initial: S, moves: seq<Move<S>>, m: Machine<S>,
                                             events: seq<Event>)
    requires Lists(table, initial, moves) && Bound(table, initial, moves, m) && Inv(table, m)
    ensures var m' := Run(table, m, events);
            Bound(table, initial, moves, m') && Inv(table, m')
    decreases |events|
  {
    if events != [] {
      assert WellFormed(table) && (m.deferred.Some? ==> m.deferred.value.effects != []);
      StepBound(table, initial, moves, m, events[0]);
      hide Apply, Bound, Lists, WellFormed, Inv;
      ApplyKeeps(table, m, events[0]);
      RunBound(table, initial, moves, Apply(table, m, events[0]).1, events[1..]);
    }
  }

  // ---------------------------------------------------------------------------
  // A move runs to its end

  function Acks(instanceId: nat, generation: nat, effects: seq<EffectIntent>): seq<Event> {
    seq(|effects|, i requires 0 <= i < |effects| => EffectAcknowledged(Token(instanceId, effects[i], generation)))
  }

  /** Nothing has gone wrong, and the given effects are outstanding under one generation. */
  ghost predicate Waits<S>(m: Machine<S>, target: S, generation: nat, effects: seq<EffectIntent>) {
    && m.state.EffectPending? && effects != []
    && m.deferred.Some? && m.deferred.value.target == target && !m.deferred.value.hasUnsuccessfulOutcome
    && m.pending == Tokens(m.instanceId, generation, effects)
  }

  /** The machine has taken the given number of further records and generations. */
  ghost predicate Grew<S>(m: Machine<S>, m': Machine<S>, records: nat, batches: nat) {
    && |m'.trace| == |m.trace| + records
    && m'.nextGeneration == m.nextGeneration + batches
    && m'.traceLimit == m.traceLimit && m'.instanceId == m.instanceId
  }

  /** A batch is entered: the machine rests when it is empty and waits for it otherwise. */
  ghost predicate Entered<S>(m: Machine<S>, next: S, generation: nat, effects: seq<EffectIntent>) {
    if effects == [] then RestsAt(m, next) else Waits(m, next, generation, effects)
  }

  /** A batch takes a generation of its own unless it is empty. */
  function Cost(effects: seq<EffectIntent>): nat {
    if effects == [] then 0 else 1
  }

  lemma EnterEnters<S>(m: Machine<S>, event: Event, next: S, effects: seq<EffectIntent>)
    requires m.nextGeneration + Cost(effects) <= U64_MAX
    ensures var (r, m') := Enter(m, event, next, effects);
            r.Ok? && Grew(m, m', 1, Cost(effects)) && Entered(m', next, m.nextGeneration, effects)
  {
  }

  lemma OneTokenFewer(instanceId: nat, generation: nat, effects: seq<EffectIntent>)
    requires effects != []
    ensures var tokens := Tokens(instanceId, generation, effects);
            && tokens[0] == Token(instanceId, effects[0], generation)
            && Remove(tokens, tokens[0]) == Tokens(instanceId, generation, effects[1..])
            && Acks(instanceId, generation, effects)
               == [EffectAcknowledged(tokens[0])] + Acks(instanceId, generation, effects[1..])
  {
    var tokens := Tokens(instanceId, generation, effects);
    assert Position(tokens, tokens[0]) == 0;
    assert Remove(tokens, tokens[0]) == tokens[1..];
  }

  lemma OneAck<S(!new)>(table: Table<S>, m: Machine<S>, target: S, generation: nat, effects: seq<EffectIntent>)
    requires WellFormed(table) && Waits(m, target, generation, effects)
    requires Room(m, 1, Cost(Then(table, target).1))
    ensures var m' := Apply(table, m, EffectAcknowledged(Token(m.instanceId, effects[0], generation))).1;
            if |effects| > 1 then
              Grew(m, m', 1, 0) && Waits(m', target, generation, effects[1..])
            else
              && Grew(m, m', 1, Cost(Then(table, target).1))
              && Entered(m', Then(table, target).0, m.nextGeneration, Then(table, target).1)
  {
    var token := Token(m.instanceId, effects[0], generation);
    OneTokenFewer(m.instanceId, generation, effects);
    AnyAcknowledgement(table, target, token);
    var (next, following) := Then(table, target);
    EnterEnters(m, EffectAcknowledged(token), next, following);
    hide WellFormed, Tokens, Remove, Enter;
    assert |effects| > 1 <==> Remove(m.pending, token) != [];
    hide Entered;
  }

  /** Acknowledging all of a batch in turn leads on to what follows it. */
  lemma {:induction false} AllAcks<S(!new)>(table: Table<S>, m: Machine<S>, target: S, generation: nat,
                                            effects: seq<EffectIntent>)
    requires WellFormed(table) && Waits(m, target, generation, effects)
    requires Room(m, |effects|, Cost(Then(table, target).1))
    ensures var m' := Run(table, m, Acks(m.instanceId, generation, effects));
            && Grew(m, m', |effects|, Cost(Then(table, target).1))
            && Entered(m', Then(table, target).0, m.nextGeneration, Then(table, target).1)
    decreases |effects|
  {
    var events := Acks(m.instanceId, generation, effects);
    var m1 := Apply(table, m, events[0]).1;
    OneAck(table, m, target, generation, effects);
    OneTokenFewer(m.instanceId, generation, effects);
    hide Apply, WellFormed, Entered, Tokens, Remove, Then;
    assert events[1..] == Acks(m.instanceId, generation, effects[1..]);
    if |effects| > 1 {
      AllAcks(table, m1, target, generation, effects[1..]);
    } else {
      assert events[1..] == [];
    }
  }

  /** The request of a move is accepted and enters the batch it asks for. */
  lemma Asked<S(!new)>(table: Table<S>, m: Machine<S>, request: Event)
    requires m.state.At? && m.deferred.None? && Room(m, 1, 1) && !IsOutcome(request)
    requires table(m.state.state, request).Some?
    ensures var (r, m1) := Apply(table, m, request);
            var (next, effects) := table(m.state.state, request).value;
            r.Ok? && Grew(m, m1, 1, Cost(effects)) && Entered(m1, next, m.nextGeneration, effects)
  {
    var (next, effects) := table(m.state.state, request).value;
    EnterEnters(m, request, next, effects);
    hide Enter, Entered, Grew;
  }

  /** Whatever batch was entered, acknowledging it in turn leads on to what follows. */
  lemma BatchSettles<S(!new)>(table: Table<S>, m: Machine<S>, next: S, generation: nat, effects: seq<EffectIntent>)
    requires WellFormed(table) && Entered(m, next, generation, effects)
    requires effects == [] ==> Quiet(table, next)
    requires Room(m, |effects|, Cost(Then(table, next).1))
    ensures var m' := Run(table, m, Acks(m.instanceId, generation, effects));
            && Grew(m, m', |effects|, Cost(Then(table, next).1))
            && Entered(m', Then(table, next).0, m.nextGeneration, Then(table, next).1)
  {
    if effects == [] {
      QuietStays(table, next);
    } else {
      AllAcks(table, m, next, generation, effects);
    }
    hide WellFormed, Quiet, Then;
  }

  lemma AcksAcknowledge(instanceId: nat, a: nat, first: seq<EffectIntent>, b: nat, second: seq<EffectIntent>)
    ensures Acknowledges(instanceId, Acks(instanceId, a, first) + Acks(instanceId, b, second), first + second)
  {
  }

  lemma MoveEnds<S(!new)>(table: Table<S>, m: Machine<S>, move: Move<S>, state: S)
    requires Shallow(table) && RestsAt(m, state) && state in move.from && Taken(table, move)
    requires Room(m, 1 + |AllEffects(move)|, 2)
    ensures Completes(table, m, move)
  {
    assert Makes(table, state, move);
    var (next, effects) := table(state, move.request).value;
    var (end, following) := Then(table, next);
    if effects == [] { NothingAskedRests(table, state, move.request); }
    assert Quiet(table, end);
    QuietStays(table, end);
    Asked(table, m, move.request);
    var m1 := Apply(table, m, move.request).1;
    var (g1, g2) := (m.nextGeneration, m1.nextGeneration);
    var (first, second) := (Acks(m.instanceId, g1, effects), Acks(m.instanceId, g2, following));
    BatchSettles(table, m1, next, g1, effects);
    var m2 := Run(table, m1, first);
    hide Run, Apply, Shallow, WellFormed, Quiet, Waits, Acks, Then, Makes, Acknowledges, Taken;
    assert WellFormed(table);
    BatchSettles(table, m2, end, g2, following);
    RunConcat(table, m1, first, second);
    RunFirst(table, m, move.request, first + second);
    AcksAcknowledge(m.instanceId, g1, effects, g2, following);
    AcksLength(m.instanceId, g1, effects);
    AcksLength(m.instanceId, g2, following);
    assert Ends(table, m, move, first + second);
  }

  lemma AcksLength(instanceId: nat, generation: nat, effects: seq<EffectIntent>)
    ensures |Acks(instanceId, generation, effects)| == |effects|
  {
  }

  lemma RunFirst<S>(table: Table<S>, m: Machine<S>, event: Event, events: seq<Event>)
    ensures Run(table, m, [event] + events) == Run(table, Apply(table, m, event).1, events)
  {
    assert ([event] + events)[1..] == events;
  }

  // ---------------------------------------------------------------------------
  // Every run honours the moves, and every listed state is reached

  lemma RunHonours<S(!new)>(table: Table<S>, initial: S, moves: seq<Move<S>>, instanceId: nat, traceLimit: nat,
                            events: seq<Event>)
    requires Lists(table, initial, moves)
    ensures Honours(table, initial, moves, Run(table, New(initial, instanceId, traceLimit), events))
  {
    var start := New(initial, instanceId, traceLimit);
    var m := Run(table, start, events);
    assert Bound(table, initial, moves, start) && Inv(table, start);
    RunBound(table, initial, moves, start, events);
    hide Run, Inv;
    if m.state.At? {
      forall e | !IsOutcome(e) && Room(m, 1, 1)
        ensures Apply(table, m, e).0.Ok? <==> Offers(moves, m.state.state, e) {
        AcceptedIffOffered(table, initial, moves, m, e);
      }
      forall i | 0 <= i < |moves| && m.state.state in moves[i].from && Room(m, 1 + |AllEffects(moves[i])|, 2)
        ensures Completes(table, m, moves[i]) {
        assert Taken(table, moves[i]);
        MoveEnds(table, m, moves[i], m.state.state);
      }
    }
    hide Lists, Completes, Offers, Listed, Apply;
  }

  lemma AcceptedIffOffered<S(!new)>(table: Table<S>, initial: S, moves: seq<Move<S>>, m: Machine<S>, e: Event)
    requires Lists(table, initial, moves) && m.state.At? && m.deferred.None? && Quiet(table, m.state.state)
    requires !IsOutcome(e) && Room(m, 1, 1)
    ensures Apply(table, m, e).0.Ok? <==> Offers(moves, m.state.state, e)
  {
    var state := m.state.state;
    if table(state, e).Some? {
      Asked(table, m, e);
      assert Offers(moves, state, e);
    }
    if Offers(moves, state, e) {
      var i :| 0 <= i < |moves| && state in moves[i].from && moves[i].request == e;
      assert Taken(table, moves[i]);
    }
    hide Lists, Offers, Quiet, Enter;
  }

  const AMPLE := 10000

  /** After so many moves the machine rests at the state with room for more. */
  ghost predicate ReachedBy<S>(table: Table<S>, initial: S, events: seq<Event>, state: S, moved: nat) {
    var m := Run(table, New(initial, 0, AMPLE), events);
    RestsAt(m, state) && |m.trace| <= 20 * moved && m.nextGeneration <= 1 + 2 * moved && m.traceLimit == AMPLE
  }

  /** Each listed state is reached along moves listed before. */
  lemma {:induction false} Reach<S(!new)>(table: Table<S>, initial: S, moves: seq<Move<S>>, n: nat, state: S)
    returns (events: seq<Event>)
    requires Lists(table, initial, moves) && n <= |moves|
    requires state == initial || exists j :: 0 <= j < n && moves[j].to == state
    ensures ReachedBy(table, initial, events, state, n)
  {
    if state == initial {
      events := [];
    } else {
      var j :| 0 <= j < n && moves[j].to == state;
      var move := moves[j];
      assert Taken(table, moves[j]);
      var from := if initial in move.from then initial else
        var k :| 0 <= k < j && moves[k].to in move.from; moves[k].to;
      var earlier := Reach(table, initial, moves, j, from);
      var m := Run(table, New(initial, 0, AMPLE), earlier);
      assert Shallow(table);
      hide Lists, Run, Taken, Shallow;
      var acks := MoveOn(table, m, move, from);
      events := earlier + ([move.request] + acks);
      RunConcat(table, New(initial, 0, AMPLE), earlier, [move.request] + acks);
    }
  }

  lemma MoveOn<S(!new)>(table: Table<S>, m: Machine<S>, move: Move<S>, from: S) returns (acks: seq<Event>)
    requires Shallow(table) && RestsAt(m, from) && from in move.from && Taken(table, move)
    requires Room(m, 20, 2)
    ensures Ends(table, m, move, acks) && |acks| < 20
  {
    hide Shallow, Ends, Makes;
    MoveEnds(table, m, move, from);
    acks :| Acknowledges(m.instanceId, acks, AllEffects(move)) && Ends(table, m, move, acks);
    AcknowledgesLength(m.instanceId, acks, AllEffects(move));
  }

  lemma AcknowledgesLength(instanceId: nat, events: seq<Event>, effects: seq<EffectIntent>)
    requires Acknowledges(instanceId, events, effects)
    ensures |events| == |effects|
  {
  }

  /** A machine does exactly what the list of its moves says. */
  lemma ListsBehave<S(!new)>(table: Table<S>, initial: S, moves: seq<Move<S>>)
    requires Lists(table, initial, moves)
    ensures Behaves(table, initial, moves)
  {
    forall instanceId, traceLimit, events
      ensures Honours(table, initial, moves, Run(table, New(initial, instanceId, traceLimit), events)) {
      RunHonours(table, initial, moves, instanceId, traceLimit, events);
    }
    hide Lists, Honours, Run;
    forall state | Listed(initial, moves, state) ensures Reached(table, initial, state) {
      var events := Reach(table, initial, moves, |moves|, state);
      assert RestsAt(Run(table, New(initial, 0, AMPLE), events), state);
    }
  }
}
