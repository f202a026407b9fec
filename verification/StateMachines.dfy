/** The agreement transition table. */
module AgreementMachine {

  datatype Status =
    | Draft
    | PendingAcceptance
    | Accepted
    | FundingRequired
    | Funded
    | InProgress
    | ProofSubmitted
    | UnderReview
    | Approved
    | ReleasePending
    | Released
    | Rejected
    | Disputed
    | Cancelled
    | Refunded
    | Expired

  function Successors(from: Status): set<Status> {
    match from
    case Draft => {PendingAcceptance}
    case PendingAcceptance => {Accepted}
    case Accepted => {FundingRequired}
    case FundingRequired => {Funded, Cancelled}
    case Funded => {InProgress, Refunded, Disputed}
    case InProgress => {ProofSubmitted, Disputed}
    case ProofSubmitted => {UnderReview}
    case UnderReview => {Approved, Rejected, Disputed}
    case Approved => {ReleasePending}
    case ReleasePending => {Released}
    case Released => {}
    case Rejected => {InProgress}
    case Disputed => {Approved, Refunded, Released}
    case Cancelled => {}
    case Refunded => {}
    case Expired => {Cancelled}
  }

  predicate CanTransition(from: Status, to: Status) {
    to in Successors(from)
  }

  /** The table read backwards: where each status can be reached from. */
  lemma Predecessors(from: Status, to: Status)
    ensures CanTransition(from, to) <==>
              match to
              case Draft => false
              case PendingAcceptance => from in {Draft}
              case Accepted => from in {PendingAcceptance}
              case FundingRequired => from in {Accepted}
              case Funded => from in {FundingRequired}
              case InProgress => from in {Funded, Rejected}
              case ProofSubmitted => from in {InProgress}
              case UnderReview => from in {ProofSubmitted}
              case Approved => from in {UnderReview, Disputed}
              case ReleasePending => from in {Approved}
              case Released => from in {ReleasePending, Disputed}
              case Rejected => from in {UnderReview}
              case Disputed => from in {Funded, InProgress, UnderReview}
              case Cancelled => from in {FundingRequired, Expired}
              case Refunded => from in {Funded, Disputed}
              case Expired => false
  {
  }
}

/** The milestone transition table. */
module MilestoneMachine {

  datatype Status =
    | Pending
    | FundingRequired
    | Funded
    | InProgress
    | ProofSubmitted
    | UnderReview
    | Approved
    | Released
    | Rejected
    | Disputed
    | Refunded
    | Cancelled
    | Expired

  function Successors(from: Status): set<Status> {
    match from
    case Pending => {FundingRequired, Funded, InProgress}
    case FundingRequired => {Funded, Refunded}
    case Funded => {InProgress, Disputed, Refunded}
    case InProgress => {ProofSubmitted, Disputed}
    case ProofSubmitted => {UnderReview}
    case UnderReview => {Approved, Rejected, Disputed}
    case Approved => {Released}
    case Released => {}
    case Rejected => {InProgress}
    case Disputed => {Approved, Released, Refunded}
    case Refunded => {}
    case Cancelled => {}
    case Expired => {}
  }

  predicate CanTransition(from: Status, to: Status) {
    to in Successors(from)
  }

  /** The table read backwards: where each status can be reached from. */
  lemma Predecessors(from: Status, to: Status)
    ensures CanTransition(from, to) <==>
              match to
              case Pending => false
              case FundingRequired => from in {Pending}
              case Funded => from in {Pending, FundingRequired}
              case InProgress => from in {Pending, Funded, Rejected}
              case ProofSubmitted => from in {InProgress}
              case UnderReview => from in {ProofSubmitted}
              case Approved => from in {UnderReview, Disputed}
              case Released => from in {Approved, Disputed}
              case Rejected => from in {UnderReview}
              case Disputed => from in {Funded, InProgress, UnderReview}
              case Refunded => from in {FundingRequired, Funded, Disputed}
              case Cancelled => false
              case Expired => false
  {
  }
}

/** The escrow transition table. */
module EscrowMachine {

  datatype Status =
    | NotCreated
    | AwaitingFunding
    | FundingDetected
    | Funded
    | ReleasePending
    | Released
    | RefundPending
    | Refunded
    | ReconciliationRequired
    | Failed

  function Successors(from: Status): set<Status> {
    match from
    case NotCreated => {AwaitingFunding, ReconciliationRequired, Failed}
    case AwaitingFunding => {FundingDetected, Funded, ReconciliationRequired, Failed}
    case FundingDetected => {Funded, ReconciliationRequired, Failed}
    case Funded => {ReleasePending, RefundPending, ReconciliationRequired}
    case ReleasePending => {Released, ReconciliationRequired, Failed}
    case Released => {ReconciliationRequired}
    case RefundPending => {Refunded, ReconciliationRequired, Failed}
    case Refunded => {ReconciliationRequired}
    case ReconciliationRequired =>
      {AwaitingFunding, FundingDetected, Funded, ReleasePending, Released, RefundPending, Refunded, Failed}
    case Failed => {Funded}
  }

  predicate CanTransition(from: Status, to: Status) {
    to in Successors(from)
  }

  /** The table read backwards: where each status can be reached from. */
  lemma Predecessors(from: Status, to: Status)
    ensures CanTransition(from, to) <==>
              match to
              case NotCreated => false
              case AwaitingFunding => from in {NotCreated, ReconciliationRequired}
              case FundingDetected => from in {AwaitingFunding, ReconciliationRequired}
              case Funded => from in {AwaitingFunding, FundingDetected, ReconciliationRequired, Failed}
              case ReleasePending => from in {Funded, ReconciliationRequired}
              case Released => from in {ReleasePending, ReconciliationRequired}
              case RefundPending => from in {Funded, ReconciliationRequired}
              case Refunded => from in {RefundPending, ReconciliationRequired}
              case ReconciliationRequired => from in {NotCreated, AwaitingFunding, FundingDetected, Funded, ReleasePending, Released, RefundPending, Refunded}
              case Failed => from in {NotCreated, AwaitingFunding, FundingDetected, ReleasePending, RefundPending, ReconciliationRequired}
  {
  }

  /** The statuses the terminal-scope lookup selects. */
  const TERMINAL: set<Status> := {Released, Refunded}

  /** The statuses the active-scope lookup selects. */
  const ACTIVE: set<Status> :=
    {NotCreated, AwaitingFunding, FundingDetected, Funded, ReleasePending, RefundPending,
     ReconciliationRequired, Failed}
}
