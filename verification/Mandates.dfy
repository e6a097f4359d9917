/** Who called for what is on record, in every interleaving, and the way every payout and contribution
    has come. */
module Mandates {
  import opened Wrappers
  import opened Roles
  import opened VaultModel
  import opened AuditTrail
  import opened VaultRuns
  import opened VaultDecisions
  import Contributions
  import Payouts

  // ---------------------------------------------------------------- who called for it

  /** The request is one that may leave this row in the log. */
  predicate CallsFor(request: Request, row: AuditRow) {
    match row
    case ContributionRecorded(user, id, key) =>
      && request.Record? && request.newId == id && request.intent.key == key && 0 < request.intent.amount
      && request.actor.userId == user && (request.actor.role == Parent || request.actor.role == Contributor)
    case ContributionSettled(user, id, from, to) =>
      && request.Settle? && request.contributionId == id && request.actor == Actor(user, PlatformAdmin)
      && Settles(request.settlement, from, to)
    case PayoutRequested(user, id) =>
      && request.RequestPayout? && request.newId == id && request.actor == Actor(user, Parent)
      && Fits(request.site, request.input.vaultId) && Verified(request.site)
    case PayoutReviewed(user, id, before, after) =>
      && request.Review? && request.payoutId == id && request.actor == Actor(user, PlatformAdmin)
      && Reviews(request.review, before, after) && request.site.milestone.Some?
      && (request.review != Payouts.MoveToReview && request.review != Payouts.Reject ==> Verified(request.site))
  }

  predicate IsCallFor(event: Event, row: AuditRow) {
    event.Started? && CallsFor(event.request, row)
  }

  ghost predicate WasCalledFor(events: seq<Event>, row: AuditRow) {
    exists n | 0 <= n < |events| :: IsCallFor(events[n], row)
  }

  lemma CalledStays(events: seq<Event>, event: Event, row: AuditRow)
    requires WasCalledFor(events, row)
    ensures WasCalledFor(events + [event], row)
  {
    var n :| 0 <= n < |events| && IsCallFor(events[n], row);
    assert IsCallFor((events + [event])[n], row);
  }

  lemma BegunIsCalledFor(db: Db, request: Request)
    requires Begin(db, request).Ready?
    ensures CallsFor(request, Begin(db, request).ticket.audit)
  {
  }

  /** A transaction adds its ticket's audit row to the log, or nothing. */
  lemma CommitLogsItsRow(db: Db, ticket: Ticket)
    ensures var out := Commit(db, ticket).db; out.audits == db.audits || out.audits == db.audits + [ticket.audit]
  {
  }

  ghost predicate AllCalled(s: Sys, events: seq<Event>) {
    && (forall row | row in s.db.audits :: WasCalledFor(events, row))
    && (forall call | call in s.inflight :: WasCalledFor(events, s.inflight[call].audit))
  }

  lemma StepKeepsCalled(s: Sys, events: seq<Event>, event: Event)
    requires AllCalled(s, events)
    ensures AllCalled(Step(s, event), events + [event])
  {
    var more := events + [event];
    forall row | row in s.db.audits
      ensures WasCalledFor(more, row)
    {
      CalledStays(events, event, row);
    }
    forall call | call in s.inflight
      ensures WasCalledFor(more, s.inflight[call].audit)
    {
      CalledStays(events, event, s.inflight[call].audit);
    }
    if event.Started? && Begin(s.db, event.request).Ready? {
      BegunIsCalledFor(s.db, event.request);
      assert IsCallFor(more[|events|], Begin(s.db, event.request).ticket.audit);
    }
    if event.Committed? && event.call in s.inflight { CommitLogsItsRow(s.db, s.inflight[event.call]); }
  }

  /** In every interleaving, each row of the log goes back to a call that somebody entitled made: an
      administrator settled or reviewed along a valid pair, at a verified school where that is asked; a
      parent or contributor recorded; a parent requested, for an open milestone of the vault. */
  lemma {:induction false} EveryRowWasCalledFor(db: Db, events: seq<Event>)
    requires Initial(db)
    ensures AllCalled(Run(Sys(db, map[]), events), events)
  {
    if events != [] {
      var earlier := events[..|events| - 1];
      EveryRowWasCalledFor(db, earlier);
      StepKeepsCalled(Run(Sys(db, map[]), earlier), earlier, events[|events| - 1]);
      assert earlier + [events[|events| - 1]] == events;
    }
  }

  /** So nothing in the log skips a status, whatever overlaps. */
  lemma NoStatusIsSkipped(db: Db, events: seq<Event>, row: AuditRow)
    requires Initial(db) && row in Run(Sys(db, map[]), events).db.audits
    ensures row.PayoutReviewed? ==>
      && (row.after == Payouts.UnderReview ==> row.before == Payouts.Pending)
      && (row.after == Payouts.Approved ==> row.before == Payouts.UnderReview)
      && (row.after == Payouts.Rejected ==> row.before == Payouts.Pending || row.before == Payouts.UnderReview)
      && (row.after == Payouts.Processing ==> row.before == Payouts.Approved)
      && (row.after == Payouts.Completed || row.after == Payouts.Failed ==> row.before == Payouts.Processing)
      && row.after != Payouts.Pending
    ensures row.ContributionSettled? ==>
      && (row.to == Contributions.Confirmed || row.to == Contributions.Failed ==> row.from == Contributions.Pending)
      && (row.to == Contributions.Reversed ==> row.from == Contributions.Confirmed)
      && row.to != Contributions.Pending
  {
    EveryRowWasCalledFor(db, events);
    var n :| 0 <= n < |events| && IsCallFor(events[n], row);
  }

  // ---------------------------------------------------------------- postings

  /** An administrator's settlement of that contribution. */
  predicate IsPosting(event: Event, entry: LedgerEntry) {
    && event.Started? && event.request.Settle? && event.request.actor == Actor(entry.actor, PlatformAdmin)
    && event.request.contributionId == entry.contributionId
    && event.request.settlement
         == (if entry.kind == ContributionConfirmed then Contributions.Confirm else Contributions.Reverse)
  }

  ghost predicate Posted(events: seq<Event>, entry: LedgerEntry) {
    exists n | 0 <= n < |events| :: IsPosting(events[n], entry)
  }

  lemma PostedStays(events: seq<Event>, event: Event, entry: LedgerEntry)
    requires Posted(events, entry)
    ensures Posted(events + [event], entry)
  {
    var n :| 0 <= n < |events| && IsPosting(events[n], entry);
    assert IsPosting((events + [event])[n], entry);
  }

  /** What a transaction adds to the ledger is a confirmation or a reversal by its ticket's actor. */
  lemma CommitPosts(db: Db, ticket: Ticket, entry: LedgerEntry)
    requires entry in Commit(db, ticket).db.ledger && entry !in db.ledger
    ensures ticket.SettleRow? && entry.actor == ticket.actor && entry.contributionId == ticket.id
    ensures ticket.target
      == if entry.kind == ContributionConfirmed then Contributions.Confirmed else Contributions.Reversed
  {
  }

  lemma CalledIsPosted(events: seq<Event>, ticket: Ticket, entry: LedgerEntry)
    requires WasCalledFor(events, ticket.audit) && Shaped(ticket)
    requires ticket.SettleRow? && entry.actor == ticket.actor && entry.contributionId == ticket.id
    requires ticket.target
      == if entry.kind == ContributionConfirmed then Contributions.Confirmed else Contributions.Reversed
    ensures Posted(events, entry)
  {
    var n :| 0 <= n < |events| && IsCallFor(events[n], ticket.audit);
    assert IsPosting(events[n], entry);
  }

  /** In every interleaving, each posting was called for by an administrator, who confirmed or reversed
      that contribution. */
  lemma {:induction false} EveryPostingWasCalledFor(db: Db, events: seq<Event>)
    requires Initial(db)
    ensures forall entry | entry in Run(Sys(db, map[]), events).db.ledger :: Posted(events, entry)
  {
    if events != [] {
      var earlier, event := events[..|events| - 1], events[|events| - 1];
      var s := Run(Sys(db, map[]), earlier);
      EveryPostingWasCalledFor(db, earlier);
      EveryRowWasCalledFor(db, earlier);
      RunsKeepShape(db, earlier);
      assert earlier + [event] == events;
      forall entry | entry in Step(s, event).db.ledger
        ensures Posted(events, entry)
      {
        if entry !in s.db.ledger {
          CommitPosts(s.db, s.inflight[event.call], entry);
          CalledIsPosted(earlier, s.inflight[event.call], entry);
        }
        PostedStays(earlier, event, entry);
      }
    }
  }

  // ---------------------------------------------------------------- the way a payout has come

  /** The row records this step of the payout. */
  predicate IsStep(row: AuditRow, id: Id, before: Payouts.Status, after: Payouts.Status) {
    row.PayoutReviewed? && row.payoutId == id && row.before == before && row.after == after
  }

  /** The log holds the steps of the path, in this order. */
  ghost predicate Walked(audits: seq<AuditRow>, id: Id, path: seq<Payouts.Status>)
    decreases |path|
  {
    |path| >= 2 ==>
      exists j | 0 <= j < |audits| ::
        && IsStep(audits[j], id, path[|path| - 2], path[|path| - 1])
        && Walked(audits[..j], id, path[..|path| - 1])
  }

  lemma {:induction false} WalkedStays(audits: seq<AuditRow>, row: AuditRow, id: Id, path: seq<Payouts.Status>)
    requires Walked(audits, id, path)
    ensures Walked(audits + [row], id, path)
  {
    if |path| >= 2 {
      var j :| 0 <= j < |audits|
        && IsStep(audits[j], id, path[|path| - 2], path[|path| - 1]) && Walked(audits[..j], id, path[..|path| - 1]);
      assert (audits + [row])[j] == audits[j] && (audits + [row])[..j] == audits[..j];
    }
  }

  lemma WalkedFurther(audits: seq<AuditRow>, row: AuditRow, id: Id, path: seq<Payouts.Status>, after: Payouts.Status)
    requires Walked(audits, id, path) && |path| >= 1 && IsStep(row, id, path[|path| - 1], after)
    ensures Walked(audits + [row], id, path + [after])
  {
    var longer := path + [after];
    assert (audits + [row])[|audits|] == row && (audits + [row])[..|audits|] == audits;
    assert longer[..|longer| - 1] == path;
  }

  /** The way to each status. */
  function Way(status: Payouts.Status): (path: seq<Payouts.Status>)
    ensures path != [] && path[|path| - 1] == status
  {
    match status
    case Pending => [Payouts.Pending]
    case UnderReview => [Payouts.Pending, Payouts.UnderReview]
    case Approved => [Payouts.Pending, Payouts.UnderReview, Payouts.Approved]
    case Rejected => [Payouts.Pending, Payouts.UnderReview, Payouts.Rejected]
    case Processing => [Payouts.Pending, Payouts.UnderReview, Payouts.Approved, Payouts.Processing]
    case Completed => [Payouts.Pending, Payouts.UnderReview, Payouts.Approved, Payouts.Processing, Payouts.Completed]
    case Failed => [Payouts.Pending, Payouts.UnderReview, Payouts.Approved, Payouts.Processing, Payouts.Failed]
  }

  /** There is one way to each status, but a rejection may also come before any review. */
  ghost predicate CameTo(audits: seq<AuditRow>, id: Id, status: Payouts.Status) {
    || Walked(audits, id, Way(status))
    || (status == Payouts.Rejected && Walked(audits, id, [Payouts.Pending, Payouts.Rejected]))
  }

  lemma RestStays(audits: seq<AuditRow>, row: AuditRow, id: Id, status: Payouts.Status)
    requires CameTo(audits, id, status)
    ensures CameTo(audits + [row], id, status)
  {
    if Walked(audits, id, Way(status)) {
      WalkedStays(audits, row, id, Way(status));
    } else {
      WalkedStays(audits, row, id, [Payouts.Pending, Payouts.Rejected]);
    }
  }

  lemma WayGoesOn(transition: Payouts.Transition, before: Payouts.Status, after: Payouts.Status)
    requires Reviews(transition, before, after)
    ensures before != Payouts.Rejected
    ensures Way(before) + [after]
      == if before == Payouts.Pending && after == Payouts.Rejected then [Payouts.Pending, Payouts.Rejected]
         else Way(after)
  {
  }

  lemma OneMoreStep(audits: seq<AuditRow>, row: AuditRow, id: Id, transition: Payouts.Transition,
    before: Payouts.Status, after: Payouts.Status)
    requires CameTo(audits, id, before) && IsStep(row, id, before, after) && Reviews(transition, before, after)
    ensures CameTo(audits + [row], id, after)
  {
    WayGoesOn(transition, before, after);
    WalkedFurther(audits, row, id, Way(before), after);
  }

  lemma EdgeIsReview(before: Payouts.Status, after: Payouts.Status)
    requires Payouts.Edge(before, after)
    ensures exists transition :: Reviews(transition, before, after)
  {
    var transition := match after
      case UnderReview => Payouts.MoveToReview
      case Approved => Payouts.Approve
      case Rejected => Payouts.Reject
      case Processing => Payouts.MarkProcessing
      case Completed => Payouts.Complete
      case _ => Payouts.Fail;
    assert Reviews(transition, before, after);
  }

  lemma {:induction false} TrailCameTo(audits: seq<AuditRow>, id: Id)
    requires TrailOfPayout(audits, id).At?
    ensures CameTo(audits, id, TrailOfPayout(audits, id).status)
  {
    var earlier, row := audits[..|audits| - 1], audits[|audits| - 1];
    assert earlier + [row] == audits;
    if row.PayoutReviewed? && row.payoutId == id {
      TrailCameTo(earlier, id);
      EdgeIsReview(row.before, row.after);
      var transition :| Reviews(transition, row.before, row.after);
      OneMoreStep(earlier, row, id, transition, row.before, row.after);
    } else if TrailOfPayout(earlier, id).At? {
      TrailCameTo(earlier, id);
      RestStays(earlier, row, id, TrailOfPayout(earlier, id).status);
    }
  }

  /** In every interleaving without two calls on one row, each payout has come to its status the one
      way there is: a paid one was put under review, approved, put in processing and completed, in this
      order, each step on record. */
  lemma EveryPayoutCameItsWay(db: Db, events: seq<Event>, id: Id)
    requires Initial(db) && ExclusiveRun(Sys(db, map[]), events) && id in Run(Sys(db, map[]), events).db.payouts
    ensures var end := Run(Sys(db, map[]), events).db; CameTo(end.audits, id, end.payouts[id].status)
  {
    ExclusiveRunsKeepBooks(db, events);
    TrailCameTo(Run(Sys(db, map[]), events).db.audits, id);
  }
}
