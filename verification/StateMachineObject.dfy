/**
 The correlated-effect engine as a mutable object. `Apply` is proved to do exactly what the
 engine function prescribes; in particular deferred effects taken out while a step is tried
 are put back when it fails. `Replay` is the loop over recorded transitions.
 */
module StateMachineObjects {
  import opened Wrappers
  import opened StateMachines

  class StateMachine<S(==,!new)> {
    const table: Table<S>
    const instanceId: nat
    const traceLimit: nat
    var state: Phase<S>
    var trace: seq<Record<S>>
    var pending: seq<Token>
    var deferred: Option<Deferred<S>>
    var nextGeneration: nat

    ghost function Model(): Machine<S>
      reads this
    {
      Machine(instanceId, traceLimit, state, trace, pending, deferred, nextGeneration)
    }

    ghost predicate Valid()
      reads this
    {
      WellFormed(table) && Inv(table, Model())
    }

    constructor (table: Table<S>, initial: S, instanceId: nat, traceLimit: nat)
      requires WellFormed(table) && Quiet(table, initial)
      ensures Valid() && this.table == table
      ensures Model() == New(initial, instanceId, traceLimit)
    {
      this.table := table;
      this.instanceId := instanceId;
      this.traceLimit := traceLimit;
      state, trace, pending, deferred, nextGeneration := At(initial), [], [], None, 1;
      new;
      NewIsCorrelated(table, initial, instanceId, traceLimit);
    }

    method RecordTransition(event: Event, next: Phase<S>, effects: seq<EffectIntent>, required: seq<EffectIntent>,
                            outstanding: Option<Deferred<S>>)
      returns (r: Result<(), TransitionError>)
      modifies this
      ensures r.Err? <==> required != [] && old(nextGeneration) >= U64_MAX
      ensures r.Ok? ==> r == Ok(())
      ensures r.Err? ==> r.error == EffectGenerationExhausted && Model() == old(Model())
      ensures r.Ok? ==>
                var generation := old(nextGeneration) + if required == [] then 0 else 1;
                Model() == Recorded(old(Model()).(nextGeneration := generation), event, next, effects,
                                    Tokens(instanceId, old(nextGeneration), required), outstanding)
    {
      var following := nextGeneration;
      if required != [] {
        if nextGeneration >= U64_MAX {
          return Err(EffectGenerationExhausted);
        }
        following := nextGeneration + 1;
      }
      pending := Tokens(instanceId, nextGeneration, required);
      trace := trace + [Record(state, event, next, effects)];
      state := next;
      deferred := outstanding;
      nextGeneration := following;
      r := Ok(());
    }

    method EnterState(event: Event, next: S, effects: seq<EffectIntent>) returns (r: Result<(), TransitionError>)
      modifies this
      ensures (r, Model()) == Enter(old(Model()), event, next, effects)
    {
      if effects != [] {
        r := RecordTransition(event, EffectPending, effects, effects, Some(Deferred(next, effects, false)));
      } else {
        r := RecordTransition(event, At(next), effects, [], None);
        assert Tokens(instanceId, nextGeneration, []) == [];
      }
    }

    method RestartDeferred(event: Event) returns (r: Result<(), TransitionError>)
      requires deferred.Some?
      modifies this
      ensures (r, Model()) == Retry(old(Model()), old(deferred).value, event)
    {
      if event != Restart {
        return Err(InvalidTransition(event));
      }
      var taken := deferred.value;
      deferred := None;
      r := EnterState(event, taken.target, taken.effects);
      if r.Err? {
        deferred := Some(taken);
      }
    }

    method CompleteDeferred(event: Event) returns (r: Result<(), TransitionError>)
      requires deferred.Some? && state.EffectPending?
      modifies this
      ensures (r, Model()) == Settle(table, old(Model()), old(deferred).value, event)
    {
      if !IsOutcome(event) {
        return Err(InvalidTransition(event));
      }
      if event.token !in pending {
        return Err(OutcomeError(event, pending));
      }
      var remaining := Remove(pending, event.token);
      var taken := deferred.value;
      deferred := None;
      var updated := taken.(hasUnsuccessfulOutcome := taken.hasUnsuccessfulOutcome || !event.EffectAcknowledged?);
      if remaining != [] {
        pending := remaining;
        deferred := Some(updated);
        trace := trace + [Record(state, event, EffectPending, [])];
        return Ok(());
      }
      if updated.hasUnsuccessfulOutcome {
        r := RecordTransition(event, EffectRecovery, [], [], Some(updated));
        assert Tokens(instanceId, nextGeneration, []) == [];
        return;
      }
      var next, effects := taken.target, [];
      var move := table(taken.target, event);
      if move.Some? {
        next, effects := move.value.0, move.value.1;
      }
      r := EnterState(event, next, effects);
      if r.Err? {
        deferred := Some(updated);
      }
    }

    method Apply(event: Event) returns (r: Result<(), TransitionError>)
      requires Valid()
      modifies this
      ensures Valid()
      ensures (r, Model()) == StateMachines.Apply(table, old(Model()), event)
    {
      ApplyKeeps(table, Model(), event);
      hide WellFormed, Enter, Settle, Retry, PendingOk, Quiet;
      if |trace| >= traceLimit {
        return Err(TraceLimitReached(traceLimit));
      }
      if deferred.Some? {
        if state.EffectRecovery? {
          r := RestartDeferred(event);
        } else {
          r := CompleteDeferred(event);
        }
        return;
      }
      if event.EffectFailed? || event.EffectCancelled? {
        return Err(OutcomeError(event, pending));
      }
      var move := table(state.state, event);
      if move.None? {
        return Err(InvalidTransition(event));
      }
      r := EnterState(event, move.value.0, move.value.1);
    }

    /** Re-applies the recorded events from a fresh machine and compares every record. */
    static method Replay(table: Table<S>, initial: S, instanceId: nat, traceLimit: nat, expected: seq<Record<S>>)
      returns (r: Result<StateMachine<S>, TransitionError>)
      requires WellFormed(table) && Quiet(table, initial)
      ensures var replayed := StateMachines.Replay(table, New(initial, instanceId, traceLimit), expected);
              && (r.Ok? <==> replayed.Ok?)
              && (r.Ok? ==> fresh(r.value) && r.value.Model() == replayed.value)
              && (r.Err? ==> r.error == replayed.error)
    {
      var machine := new StateMachine(table, initial, instanceId, traceLimit);
      ghost var start := machine.Model();
      assert expected[..0] == [];
      hide StateMachines.Apply, StateMachines.Replay, Inv, WellFormed, Quiet;
      ReplayNothing(table, start);
      for index := 0 to |expected|
        invariant machine.Valid() && machine.table == table && fresh(machine)
        invariant StateMachines.Replay(table, start, expected[..index]) == Ok(machine.Model())
      {
        ReplayOneMore(table, start, expected, index, machine.Model());
        var applied := machine.Apply(expected[index].event);
        if applied.Err? {
          ReplayStopsAt(table, start, expected, index + 1);
          return Err(applied.error);
        }
        if machine.trace == [] || machine.trace[|machine.trace| - 1] != expected[index] {
          ReplayStopsAt(table, start, expected, index + 1);
          return Err(ReplayMismatch(index));
        }
      }
      assert expected[..|expected|] == expected;
      r := Ok(machine);
    }
  }

  lemma ReplayOneMore<S>(table: Table<S>, start: Machine<S>, records: seq<Record<S>>, n: nat, m: Machine<S>)
    requires n < |records| && Replay(table, start, records[..n]) == Ok(m)
    ensures var (r, m') := Apply(table, m, records[n].event);
            Replay(table, start, records[..n + 1]) ==
              if r.Err? then Err(r.error)
              else if m'.trace == [] || m'.trace[|m'.trace| - 1] != records[n] then Err(ReplayMismatch(n))
              else Ok(m')
  {
    assert records[..n + 1][..n] == records[..n];
    hide Apply;
  }

  /** The first refusal decides a replay. */
  lemma {:induction false} ReplayStopsAt<S>(table: Table<S>, start: Machine<S>, records: seq<Record<S>>, n: nat)
    requires n <= |records| && Replay(table, start, records[..n]).Err?
    ensures Replay(table, start, records) == Replay(table, start, records[..n])
    decreases |records|
  {
    if n == |records| {
      assert records[..n] == records;
    } else {
      var front := records[..|records| - 1];
      assert front[..n] == records[..n];
      ReplayStopsAt(table, start, front, n);
    }
  }
}
