/** The payout status machine, its guards and the available-funds check. */
module Payouts {
  import opened Wrappers
  import opened Int64

  datatype Status = Pending | UnderReview | Approved | Rejected | Processing | Completed | Failed

  datatype Transition = MoveToReview | Approve | Reject | MarkProcessing | Complete | Fail {
    function Target(): Status {
      match this
      case MoveToReview => UnderReview
      case Approve => Approved
      case Reject => Rejected
      case MarkProcessing => Processing
      case Complete => Completed
      case Fail => Failed
    }
  }

  datatype MilestoneStatus = Planned | Funded | PartiallyPaid | Paid | Cancelled

  datatype SchoolStatus = SchoolPending | SchoolVerified | SchoolRejected

  predicate Edge(current: Status, target: Status) {
    || (current == Pending && target == UnderReview)
    || (current == Pending && target == Rejected)
    || (current == UnderReview && target == Approved)
    || (current == UnderReview && target == Rejected)
    || (current == Approved && target == Processing)
    || (current == Processing && target == Completed)
    || (current == Processing && target == Failed)
  }

  /** A listed edge, or the row already being at the target. */
  function ValidateTransition(current: Status, transition: Transition): Option<Status> {
    var target := transition.Target();
    if Edge(current, target) || current == target then Some(target) else None
  }

  predicate Payable(status: MilestoneStatus) {
    status == Planned || status == Funded || status == PartiallyPaid
  }

  /** The two subtractions are machine subtractions. */
  predicate EnsureAvailableFunds(contributed: i64, locked: i64, disbursed: i64, amount: i64) {
    Wrap(Wrap(contributed - locked) - disbursed) >= amount
  }

  /** For the non-negative totals a vault row can hold and a positive amount, the machine check
      agrees with exact arithmetic exactly when the commitments do not exceed the contributions
      by more than 2^63, or exceed them by so much that what wraps around is still too little. */
  lemma FundsCheckExactIff(contributed: i64, locked: i64, disbursed: i64, amount: i64)
    requires 0 <= contributed && 0 <= locked && 0 <= disbursed && 0 < amount
    ensures (EnsureAvailableFunds(contributed, locked, disbursed, amount)
             <==> contributed - locked - disbursed >= amount)
      <==> (locked + disbursed - contributed <= 0x8000_0000_0000_0000
            || 0x1_0000_0000_0000_0000 - (locked + disbursed - contributed) < amount)
  {
  }

  /** Rank along the longest path of edges, at most four. */
  function Rank(status: Status): nat {
    match status
    case Pending => 0
    case UnderReview => 1
    case Approved => 2
    case Processing => 3
    case Rejected => 4
    case Completed => 4
    case Failed => 4
  }
}
