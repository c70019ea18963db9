/**
  The status machine of an external effect (packages/lifecycle/src/effects.ts).

  One table decides which status writes are legal. Every writer in the system is
  later shown to stay inside it.
 */
module EffectTable {

  datatype Status =
    | Prepared
    | Executing
    | Committed
    | Failed
    | CompensationPending
    | Compensated
    | RemediationRequired
    | IrreversibleCommitted
    | ReconciliationRequired

  datatype Reversibility = R0 | R1 | R2 | R3

  predicate CanTransition(from: Status, to: Status) {
    match from
    case Prepared => to.Executing? || to.Failed? || to.ReconciliationRequired?
    case Executing => to.Committed? || to.Failed? || to.IrreversibleCommitted? || to.ReconciliationRequired?
    case Committed => to.CompensationPending? || to.RemediationRequired?
    case Failed => to.Executing? || to.ReconciliationRequired?
    case CompensationPending => to.Compensated? || to.RemediationRequired? || to.ReconciliationRequired?
    case Compensated => false
    case RemediationRequired => to.CompensationPending? || to.Compensated?
    case IrreversibleCommitted => to.RemediationRequired?
    case ReconciliationRequired =>
      || to.Executing? || to.Committed? || to.Failed?
      || to.CompensationPending? || to.RemediationRequired? || to.IrreversibleCommitted?
  }

  /** The statuses an effect may have directly before it has the given one. */
  function Sources(to: Status): set<Status> {
    match to
    case Prepared => {}
    case Executing => {Prepared, Failed, ReconciliationRequired}
    case Committed => {Executing, ReconciliationRequired}
    case IrreversibleCommitted => {Executing, ReconciliationRequired}
    case Failed => {Prepared, Executing, ReconciliationRequired}
    case CompensationPending => {Committed, RemediationRequired, ReconciliationRequired}
    case Compensated => {CompensationPending, RemediationRequired}
    case RemediationRequired => {Committed, CompensationPending, IrreversibleCommitted, ReconciliationRequired}
    case ReconciliationRequired => {Prepared, Executing, Failed, CompensationPending}
  }

  lemma EdgesInto(from: Status, to: Status)
    ensures CanTransition(from, to) <==> from in Sources(to)
  {
  }

  /** The status an effect takes once its receipt is durable. */
  function TerminalStatus(reversibility: Reversibility): Status {
    if reversibility == R3 then IrreversibleCommitted else Committed
  }

  /** Statuses in which an external operation may be in flight. */
  predicate InFlight(status: Status) {
    status == Executing || status == CompensationPending
  }
}
