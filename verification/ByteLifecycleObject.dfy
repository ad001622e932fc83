/**
 The byte-durability machine as an object holding its engine and, once bound, its broker.
 Broker identity is object identity.
 */
module ByteLifecycleObjects {
  import opened Wrappers
  import opened StateMachines
  import opened StateMachineObjects
  import opened ByteLifecycles
  import opened ByteCreditObjects
  import Credit = ByteCredits

  class ByteDurabilityMachine {
    const machine: StateMachine<Phases>
    var authorized: bool
    var broker: ByteCreditLedger?

    ghost predicate Valid()
      reads this, machine, broker
    {
      && machine.table == BytesTable && machine.Valid() && MachineOk(machine.Model())
      && !authorized
      && (broker != null ==> Credit.Inv(broker.Model()))
    }

    /** This machine beside the given ledger, which is number 0; a different bound ledger is number 1. */
    ghost function Beside(ledger: ByteCreditLedger): World
      reads this, machine, broker, ledger
    {
      if broker == null then World(machine.Model(), authorized, None, map[0 := ledger.Model()])
      else if broker == ledger then World(machine.Model(), authorized, Some(0), map[0 := ledger.Model()])
      else World(machine.Model(), authorized, Some(1), map[0 := ledger.Model(), 1 := broker.Model()])
    }

    constructor (instanceId: nat, traceLimit: nat)
      ensures Valid() && fresh(machine) && broker == null
      ensures machine.Model() == New(Empty, instanceId, traceLimit)
    {
      TableIsWellFormed();
      machine := new StateMachine(BytesTable, Empty, instanceId, traceLimit);
      authorized := false;
      broker := null;
    }

    /** Taking the authorization and applying; without one, byte effects are not acknowledged here. */
    method ApplyEvent(event: Event) returns (r: Result<(), TransitionError>)
      requires machine.table == BytesTable && machine.Valid() && MachineOk(machine.Model())
      modifies this`authorized, machine
      ensures !authorized
      ensures machine.Valid() && MachineOk(machine.Model())
      ensures r.Err? ==> machine.Model() == old(machine.Model())
      ensures (r, machine.Model()) ==
                if !old(authorized) && event.EffectAcknowledged? && IsByteEffect(event.token.effect)
                then (Err(ByteDurabilityAcknowledgementRequired(event.token.effect)), old(machine.Model()))
                else StateMachines.Apply(BytesTable, old(machine.Model()), event)
    {
      var taken := authorized;
      authorized := false;
      if event.EffectAcknowledged? && IsByteEffect(event.token.effect) && !taken {
        return Err(ByteDurabilityAcknowledgementRequired(event.token.effect));
      }
      EventKeepsMachine(machine.Model(), event);
      hide StateMachines.Apply, MachineOk;
      r := machine.Apply(event);
    }

    /** Once a broker is bound, only that broker can accept the receipt it issued for its own position. */
    method VerifyIdentity(ledger: ByteCreditLedger) returns (r: Result<(), Credit.CreditError>)
      requires Valid() && Credit.Inv(ledger.Model())
      modifies ledger
      ensures ledger.Model() == old(ledger.Model())
      ensures r == VerifyBroker(old(Beside(ledger)), 0)
      ensures r.Ok? <==> broker == null || broker == ledger
    {
      hide Credit.Inv;
      if broker == null {
        return Ok(());
      }
      OwnPositionIsValid(broker.Model());
      var receipt := Credit.ValidateNextPosition(broker.Snapshot(), broker.position);
      hide Credit.ValidateNextPosition;
      if receipt.Err? {
        return receipt;
      }
      if broker != ledger {
        return Err(Credit.AcknowledgementBrokerMismatch);
      }
      r := ledger.AdvancePosition(ledger.position);
    }

    /** Lifecycle and broker position move together or not at all. */
    method AcknowledgeEffect(ledger: ByteCreditLedger, event: Event, next: Credit.Position)
      returns (r: Result<(), EffectError>)
      requires Valid() && Credit.Inv(ledger.Model())
      modifies this, machine, ledger
      ensures Valid() && Credit.Inv(ledger.Model())
      ensures (r, Beside(ledger)) == AcknowledgeBytes(old(Beside(ledger)), 0, event, next)
      ensures broker == if r.Ok? then ledger else old(broker)
    {
      hide StateMachines.Apply, MachineOk, Credit.Inv, PositionMatchesEffect, Credit.ValidateNextPosition;
      hide AcknowledgeBytes, VerifyBroker;
      AcknowledgementCases(Beside(ledger), 0, event, next);
      if !event.EffectAcknowledged? {
        return Err(TransitionFailed(InvalidTransition(event)));
      }
      var effect := event.token.effect;
      if !IsByteEffect(effect) {
        return Err(UnsupportedEffect(effect));
      }
      var identity := VerifyIdentity(ledger);
      if identity.Err? {
        return Err(CreditFailed(identity.error));
      }
      if !PositionMatchesEffect(ledger.position, next, effect) {
        return Err(PositionDoesNotMatchEffect(effect));
      }
      var receipt := Credit.ValidateNextPosition(ledger.Snapshot(), next);
      if receipt.Err? {
        return Err(CreditFailed(receipt.error));
      }
      authorized := true;
      Credit.AdvanceKeeps(ledger.Model(), next);
      var applied := ApplyEvent(event);
      if applied.Err? {
        return Err(TransitionFailed(applied.error));
      }
      var advanced := ledger.AdvancePosition(next);
      broker := ledger;
      ghost var before := old(ledger.Model());
      assert ledger.Model() == before.(position := next);
      assert map[0 := before][0 := before.(position := next)] == map[0 := before.(position := next)];
      r := Ok(());
    }
  }

  /** The outcome of an acknowledgement, case by case in the order of its checks. */
  lemma AcknowledgementCases(w: World, broker: nat, event: Event, next: Credit.Position)
    requires broker in w.brokers && MachineOk(w.machine) && !w.authorized
    ensures var outcome := AcknowledgeBytes(w, broker, event, next);
            if !event.EffectAcknowledged? then outcome == (Err(TransitionFailed(InvalidTransition(event))), w)
            else if !IsByteEffect(event.token.effect) then outcome == (Err(UnsupportedEffect(event.token.effect)), w)
            else if VerifyBroker(w, broker).Err? then outcome == (Err(CreditFailed(VerifyBroker(w, broker).error)), w)
            else if !PositionMatchesEffect(w.brokers[broker].position, next, event.token.effect) then
              outcome == (Err(PositionDoesNotMatchEffect(event.token.effect)), w)
            else if Credit.ValidateNextPosition(w.brokers[broker], next).Err? then
              outcome == (Err(CreditFailed(Credit.ValidateNextPosition(w.brokers[broker], next).error)), w)
            else
              var (applied, m) := StateMachines.Apply(BytesTable, w.machine, event);
              if applied.Err? then outcome == (Err(TransitionFailed(applied.error)), w)
              else
                outcome ==
                  (Ok(()), World(m, false, if w.bound.None? then Some(broker) else w.bound,
                                 w.brokers[broker := w.brokers[broker].(position := next)]))
  {
    hide StateMachines.Apply, MachineOk, PositionMatchesEffect, Credit.ValidateNextPosition, VerifyBroker;
    EventKeepsMachine(w.machine, event);
  }
}
