/** The contribution status machine and its access rules. */
module Contributions {
  import opened Wrappers
  import opened Roles

  datatype Status = Pending | Confirmed | Failed | Reversed

  datatype Source = FiatSource | UsdcSource | ManualSource

  datatype Transition = Confirm | Fail | Reverse {
    function Target(): Status {
      match this
      case Confirm => Confirmed
      case Fail => Failed
      case Reverse => Reversed
    }
  }

  predicate Edge(current: Status, target: Status) {
    || (current == Pending && target == Confirmed)
    || (current == Pending && target == Failed)
    || (current == Confirmed && target == Reversed)
  }

  /** A listed edge, or the row already being at the target. */
  function ValidateTransition(current: Status, transition: Transition): Option<Status> {
    var target := transition.Target();
    if Edge(current, target) || current == target then Some(target) else None
  }

  predicate CanSettle(role: Role) {
    role == PlatformAdmin
  }

  predicate CanFundVault(role: Role, userId: Id, ownerId: Id, explicitContributor: bool) {
    || (userId == ownerId && role == Parent)
    || (explicitContributor && (role == Contributor || role == Parent))
  }

  /** Steps taken from `Pending`: no path of edges is longer than two. */
  function Rank(status: Status): nat {
    match status
    case Pending => 0
    case Confirmed => 1
    case Failed => 2
    case Reversed => 2
  }
}
