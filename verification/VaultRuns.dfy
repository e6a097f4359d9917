/** Runs of the vault engine: every invariant over every interleaving it holds in. */
module VaultRuns {
  import opened Wrappers
  import opened Roles
  import opened VaultModel
  import opened Effects
  import opened VaultBooks
  import opened AuditTrail
  import opened Ledger
  import opened MapSums
  import Contributions
  import Payouts

  // ---------------------------------------------------------------- calls on different rows

  /** Everything the tables of one vault database should agree on. */
  ghost predicate Books(base: map<Id, Vault>, db: Db) {
    LegalStart(base) && Totals(base, db) && Versions(base, db) && TrailsMatch(db) && ChangesRanked(db)
    && LedgerAgrees(base, db) && CreditedOnce(db)
  }

  ghost predicate SysInv(base: map<Id, Vault>, s: Sys) {
    Books(base, s.db) && forall call | call in s.inflight :: Current(s.db, s.inflight[call])
  }

  lemma BegunIsCurrent(db: Db, request: Request)
    requires Begin(db, request).Ready?
    ensures Current(db, Begin(db, request).ticket)
  {
  }

  /** A transaction leaves every ticket current that updates another row. */
  lemma OthersStayCurrent(db: Db, out: Db, ticket: Ticket, other: Ticket)
    requires TicketEffect(db, out, ticket) && Current(db, other)
    requires Target(other).Some? ==> Target(other) != Target(ticket)
    ensures Current(out, other)
  {
  }

  lemma SettlementKeepsBooks(base: map<Id, Vault>, db: Db, out: Db, id: Id, target: Contributions.Status, actor: Id,
    audit: AuditRow)
    requires Totals(base, db) && Versions(base, db)
    requires SettleEffect(db, out, id, target, actor, audit) && WellFormed(base, out)
    requires Contributions.Edge(db.contributions[id].status, target)
    ensures Totals(base, out) && Versions(base, out)
  {
    SettlementKeepsTotalsIff(base, db, out, id, target, actor, audit);
    SettlementKeepsVersions(base, db, out, id, target, actor, audit);
  }

  lemma ReviewIsCompatible(base: map<Id, Vault>, db: Db, id: Id, target: Payouts.Status)
    requires Totals(base, db) && LegalStart(base) && id in db.payouts && Payouts.Edge(db.payouts[id].status, target)
    ensures CompatibleReview(db.payouts[id].status, target, Releases(db, id))
    ensures target == Payouts.Failed ==> Releases(db, id)
  {
    if Holds(db.payouts[id].status) { LockIsCovered(base, db, id); }
  }

  lemma ReviewKeepsBooks(base: map<Id, Vault>, db: Db, out: Db, id: Id, target: Payouts.Status, audit: AuditRow)
    requires Totals(base, db) && Versions(base, db) && LegalStart(base)
    requires ReviewEffect(db, out, id, target, audit) && WellFormed(base, out)
    requires Payouts.Edge(db.payouts[id].status, target)
    ensures Totals(base, out) && Versions(base, out)
  {
    ReviewIsCompatible(base, db, id, target);
    assert Totals(base, out) by { ReviewKeepsTotalsIff(base, db, out, id, target, audit); }
    assert Versions(base, out) by { ReviewKeepsVersions(base, db, out, id, target, audit); }
  }

  lemma EffectKeepsTotals(base: map<Id, Vault>, db: Db, out: Db, ticket: Ticket)
    requires LegalStart(base) && Totals(base, db) && Versions(base, db)
    requires Current(db, ticket) && TicketEffect(db, out, ticket) && WellFormed(base, out)
    ensures Totals(base, out) && Versions(base, out)
  {
    match ticket
    case SettleRow(id, target, actor, _, audit) => SettlementKeepsBooks(base, db, out, id, target, actor, audit);
    case ReviewRow(id, target, _, _, _, audit) => ReviewKeepsBooks(base, db, out, id, target, audit);
    case _ =>
      InsertKeepsTotals(base, db, out, ticket);
      InsertKeepsVersions(base, db, out, ticket);
  }

  lemma EffectKeepsCredits(db: Db, out: Db, ticket: Ticket)
    requires CreditedOnce(db) && Current(db, ticket) && TicketEffect(db, out, ticket)
    ensures CreditedOnce(out)
  {
    if ticket.SettleRow? { SettlementKeepsCredits(db, out, ticket.id, ticket.target, ticket.actor, ticket.audit); }
  }

  /** The transaction of a current ticket keeps all the books. */
  lemma CommitKeepsBooks(base: map<Id, Vault>, db: Db, ticket: Ticket)
    requires Books(base, db) && Current(db, ticket)
    ensures Books(base, Commit(db, ticket).db)
  {
    var out := Commit(db, ticket).db;
    CommitIsAtomic(db, ticket);
    CommitKeepsLedger(base, db, ticket);
    if out != db {
      CommitKeepsVaults(base, db, out, ticket);
      EffectKeepsTrails(db, out, ticket);
      EffectKeepsRanks(db, out, ticket);
      EffectKeepsTotals(base, db, out, ticket);
      EffectKeepsCredits(db, out, ticket);
    }
  }

  lemma CommitKeepsVaults(base: map<Id, Vault>, db: Db, out: Db, ticket: Ticket)
    requires WellFormed(base, db) && TicketEffect(db, out, ticket) && Checked(out)
    ensures WellFormed(base, out)
  {
  }

  lemma StepKeepsInv(base: map<Id, Vault>, s: Sys, event: Event)
    requires SysInv(base, s) && Exclusive(s)
    ensures SysInv(base, Step(s, event))
  {
    match event
    case Started(call, request) =>
      if Begin(s.db, request).Ready? { BegunIsCurrent(s.db, request); }
    case Committed(call) =>
      if call in s.inflight { CommittedKeepsInv(base, s, call); }
    case Abandoned(_) =>
    case ContributorAdded(v, user) => ContributorsAreNotBooks(base, s.db, s.db.contributors + {(v, user)});
  }

  lemma ContributorsAreNotBooks(base: map<Id, Vault>, db: Db, contributors: set<(Id, Id)>)
    requires Books(base, db)
    ensures Books(base, db.(contributors := contributors))
  {
    ContributorsAreNotTotals(base, db, contributors);
    ContributorsAreNotCredits(base, db, contributors);
  }

  lemma ContributorsAreNotTotals(base: map<Id, Vault>, db: Db, contributors: set<(Id, Id)>)
    requires Totals(base, db) && Versions(base, db)
    ensures Totals(base, db.(contributors := contributors)) && Versions(base, db.(contributors := contributors))
  {
  }

  lemma ContributorsAreNotCredits(base: map<Id, Vault>, db: Db, contributors: set<(Id, Id)>)
    requires LedgerAgrees(base, db) && CreditedOnce(db)
    ensures LedgerAgrees(base, db.(contributors := contributors)) && CreditedOnce(db.(contributors := contributors))
  {
  }

  lemma CommittedKeepsInv(base: map<Id, Vault>, s: Sys, call: nat)
    requires SysInv(base, s) && Exclusive(s) && call in s.inflight
    ensures SysInv(base, Step(s, Committed(call)))
  {
    var ticket := s.inflight[call];
    var out := Commit(s.db, ticket).db;
    CommitKeepsBooks(base, s.db, ticket);
    CommitIsAtomic(s.db, ticket);
    if out != s.db {
      forall other | other in s.inflight && other != call
        ensures Current(out, s.inflight[other])
      {
        OthersStayCurrent(s.db, out, ticket, s.inflight[other]);
      }
    }
  }

  lemma InitialBooks(db: Db)
    requires Initial(db)
    ensures Books(db.vaults, db)
  {
  }

  /** In every interleaving of Begin, Commit and abandoned calls in which no two calls in flight
      update the same row, all the books agree after every step. */
  lemma {:induction false} ExclusiveRunsKeepBooks(db: Db, events: seq<Event>)
    requires Initial(db) && ExclusiveRun(Sys(db, map[]), events)
    ensures SysInv(db.vaults, Run(Sys(db, map[]), events))
  {
    var s := Sys(db, map[]);
    if events == [] {
      InitialBooks(db);
    } else {
      var earlier := events[..|events| - 1];
      forall n | 0 <= n <= |earlier|
        ensures Exclusive(Run(s, earlier[..n]))
      {
        assert earlier[..n] == events[..n];
      }
      ExclusiveRunsKeepBooks(db, earlier);
      assert earlier[..|earlier|] == earlier;
      StepKeepsInv(db.vaults, Run(s, earlier), events[|events| - 1]);
    }
  }

  /** The same, spelled out for one vault: its totals and its version are closed forms of the rows. */
  lemma ExclusiveRunsBalance(db: Db, events: seq<Event>, v: Id)
    requires Initial(db) && ExclusiveRun(Sys(db, map[]), events) && v in db.vaults
    ensures var end := Run(Sys(db, map[]), events).db;
      && v in end.vaults
      && end.vaults[v].contributed == db.vaults[v].contributed + Sum(end.contributions, ConfirmedIn(v))
      && end.vaults[v].locked == db.vaults[v].locked + Sum(end.payouts, HeldIn(v))
      && end.vaults[v].disbursed == db.vaults[v].disbursed + Sum(end.payouts, PaidIn(v))
      && end.vaults[v].version == db.vaults[v].version + Sum(end.contributions, SettleBumps(v))
            + Sum(end.payouts, ReviewBumps(v))
  {
    ExclusiveRunsKeepBooks(db, events);
    var end := Run(Sys(db, map[]), events).db;
    assert VaultTotals(db.vaults[v], end.vaults[v], v, end);
  }

  /** Replaying the audit log of such a run gives the status of every row, and the log holds at
      most two status changes per contribution and four per payout. */
  lemma ExclusiveRunsReplay(db: Db, events: seq<Event>)
    requires Initial(db) && ExclusiveRun(Sys(db, map[]), events)
    ensures TrailsMatch(Run(Sys(db, map[]), events).db)
    ensures var end := Run(Sys(db, map[]), events).db;
      Changes(end.audits) <= 2 * |end.contributions| + 4 * |end.payouts|
  {
    ExclusiveRunsKeepBooks(db, events);
    RankedChangesBounded(Run(Sys(db, map[]), events).db);
  }

  /** In such a run no Reverse is refused for a negative balance, no Complete for a locked
      underflow, and every Fail that goes through releases exactly its own lock. */
  lemma DefensiveBranchesUnreachable(db: Db, events: seq<Event>, call: nat)
    requires Initial(db) && ExclusiveRun(Sys(db, map[]), events) && call in Run(Sys(db, map[]), events).inflight
    ensures var s := Run(Sys(db, map[]), events);
      var ticket := s.inflight[call];
      var out := Commit(s.db, ticket);
      && out.reply != Err(Conflict("vault balance would become negative"))
      && out.reply != Err(Conflict("vault locked balance underflow"))
      && (ticket.ReviewRow? && ticket.goal == Payouts.Failed && out.reply.Ok? ==>
            && ticket.id in s.db.payouts && s.db.payouts[ticket.id].vaultId in s.db.vaults
            && var v := s.db.payouts[ticket.id].vaultId;
            && v in out.db.vaults
            && out.db.vaults[v].locked == s.db.vaults[v].locked - s.db.payouts[ticket.id].amount)
  {
    ExclusiveRunsKeepBooks(db, events);
    var s := Run(Sys(db, map[]), events);
    CoveredTicketsPass(db.vaults, s.db, s.inflight[call]);
  }

  lemma CoveredTicketsPass(base: map<Id, Vault>, db: Db, ticket: Ticket)
    requires Totals(base, db) && LegalStart(base) && Current(db, ticket)
    ensures Commit(db, ticket).reply != Err(Conflict("vault balance would become negative"))
    ensures Commit(db, ticket).reply != Err(Conflict("vault locked balance underflow"))
    ensures ticket.ReviewRow? && ticket.goal == Payouts.Failed && Commit(db, ticket).reply.Ok? ==>
      && db.payouts[ticket.id].vaultId in db.vaults
      && var v := db.payouts[ticket.id].vaultId;
      && v in Commit(db, ticket).db.vaults
      && Commit(db, ticket).db.vaults[v].locked == db.vaults[v].locked - db.payouts[ticket.id].amount
  {
    match ticket
    case SettleRow(id, target, actor, reference, audit) =>
      if target == Contributions.Reversed { ReverseIsCovered(base, db, id); }
      CoveredSettlementPasses(db, id, target, actor, reference, audit);
    case ReviewRow(_, _, _, _, _, _) => CoveredReviewTicketPasses(base, db, ticket);
    case _ =>
  }

  lemma CoveredReviewTicketPasses(base: map<Id, Vault>, db: Db, ticket: Ticket)
    requires Totals(base, db) && LegalStart(base) && ticket.ReviewRow? && Current(db, ticket)
    ensures db.payouts[ticket.id].vaultId in db.vaults
    ensures var out := Commit(db, ticket);
      var v := db.payouts[ticket.id].vaultId;
      && out.reply != Err(Conflict("vault balance would become negative"))
      && out.reply != Err(Conflict("vault locked balance underflow"))
      && (ticket.goal == Payouts.Failed && out.reply.Ok? ==>
            && v in out.db.vaults
            && out.db.vaults[v].locked == db.vaults[v].locked - db.payouts[ticket.id].amount)
  {
    if Holds(db.payouts[ticket.id].status) { LockIsCovered(base, db, ticket.id); }
    CoveredReviewPasses(db, ticket.id, ticket.goal, ticket.actor, ticket.notes, ticket.reference, ticket.audit);
  }

  lemma CoveredSettlementPasses(db: Db, id: Id, target: Contributions.Status, actor: Id, reference: Option<string>,
    audit: AuditRow)
    requires id in db.contributions && db.contributions[id].vaultId in db.vaults
    requires target == Contributions.Reversed ==>
      db.contributions[id].amount <= db.vaults[db.contributions[id].vaultId].contributed
    ensures var out := SettleTx(db, id, target, actor, reference, audit);
      out.reply != Err(Conflict("vault balance would become negative"))
    ensures SettleTx(db, id, target, actor, reference, audit).reply != Err(Conflict("vault locked balance underflow"))
  {
    if db.contributions[id].status != target { SettleTxWrites(db, id, target, actor, reference, audit); }
  }

  lemma CoveredReviewPasses(db: Db, id: Id, goal: Payouts.Status, actor: Id, notes: Option<string>,
    reference: Option<string>, audit: AuditRow)
    requires Checked(db) && id in db.payouts && db.payouts[id].vaultId in db.vaults && db.payouts[id].status != goal
    requires goal == Payouts.Completed || goal == Payouts.Failed ==> Releases(db, id)
    ensures var out := ReviewTx(db, id, goal, actor, notes, reference, audit);
      var v := db.payouts[id].vaultId;
      && out.reply != Err(Conflict("vault balance would become negative"))
      && out.reply != Err(Conflict("vault locked balance underflow"))
      && (goal == Payouts.Failed && out.reply.Ok? ==>
            v in out.db.vaults && out.db.vaults[v].locked == db.vaults[v].locked - db.payouts[id].amount)
  {
    ReviewTxWrites(db, id, goal, actor, notes, reference, audit);
    ReviewIsExact(db, id, goal, actor, notes, reference, audit);
  }

  // ---------------------------------------------------------------- which races break the totals

  /** The rows of an insert are new and Pending; an update has to be compatible with the status
      its row has by the time of the commit. */
  predicate Compatible(db: Db, ticket: Ticket)
    requires ticket.SettleRow? ==> ticket.id in db.contributions
    requires ticket.ReviewRow? ==> ticket.id in db.payouts && db.payouts[ticket.id].vaultId in db.vaults
  {
    match ticket
    case SettleRow(id, target, _, _, _) => CompatibleSettlement(db.contributions[id].status, target)
    case ReviewRow(id, goal, _, _, _, _) => CompatibleReview(db.payouts[id].status, goal, Releases(db, id))
    case _ => true
  }

  /** Tickets as `Begin` makes them, whatever has happened since. */
  predicate Issued(ticket: Ticket) {
    match ticket
    case InsertContribution(_, row, _) => row.status == Contributions.Pending
    case InsertPayout(_, row, _) => row.status == Payouts.Pending
    case SettleRow(_, target, _, _, _) => target != Contributions.Pending
    case ReviewRow(_, _, _, _, _, _) => true
  }

  /** With no assumption on overlap: a commit that changes anything keeps the totals right if and
      only if its ticket is compatible with the status of the row it finds. */
  lemma CommitKeepsTotalsIff(base: map<Id, Vault>, db: Db, ticket: Ticket)
    requires Totals(base, db) && Issued(ticket) && Commit(db, ticket).db != db
    ensures ticket.SettleRow? ==> ticket.id in db.contributions
    ensures ticket.ReviewRow? ==> ticket.id in db.payouts && db.payouts[ticket.id].vaultId in db.vaults
    ensures Totals(base, Commit(db, ticket).db) <==> Compatible(db, ticket)
  {
    var out := Commit(db, ticket).db;
    CommitIsAtomic(db, ticket);
    CommitKeepsVaults(base, db, out, ticket);
    EffectKeepsTotalsIff(base, db, out, ticket);
  }

  lemma EffectKeepsTotalsIff(base: map<Id, Vault>, db: Db, out: Db, ticket: Ticket)
    requires Totals(base, db) && Issued(ticket) && TicketEffect(db, out, ticket) && WellFormed(base, out)
    ensures Totals(base, out) <==> Compatible(db, ticket)
  {
    match ticket
    case SettleRow(id, target, actor, _, audit) => SettlementKeepsTotalsIff(base, db, out, id, target, actor, audit);
    case ReviewRow(id, target, _, _, _, audit) => ReviewKeepsTotalsIff(base, db, out, id, target, audit);
    case _ => InsertKeepsTotals(base, db, out, ticket);
  }

  // ---------------------------------------------------------------- which races break any of the books

  /** A ticket's audit row says what its transaction will do, from the status that was read. */
  predicate Shaped(ticket: Ticket) {
    match ticket
    case InsertContribution(id, row, audit) =>
      row.status == Contributions.Pending && audit == ContributionRecorded(row.contributor, id, row.key)
    case InsertPayout(id, row, audit) => row.status == Payouts.Pending && audit == PayoutRequested(row.requestedBy, id)
    case SettleRow(id, target, actor, _, audit) =>
      && audit.ContributionSettled? && audit == ContributionSettled(actor, id, audit.from, target)
      && Contributions.Edge(audit.from, target)
    case ReviewRow(id, goal, actor, _, _, audit) =>
      && audit.PayoutReviewed? && audit == PayoutReviewed(actor, id, audit.before, goal)
      && Payouts.Edge(audit.before, goal)
  }

  lemma CurrentIsShaped(db: Db, ticket: Ticket)
    requires Current(db, ticket)
    ensures Shaped(ticket)
  {
  }

  lemma ShapedIsIssued(ticket: Ticket)
    requires Shaped(ticket)
    ensures Issued(ticket)
  {
  }

  /** A stale ticket writes an audit row that does not fit the history of its row. */
  lemma StaleBreaksTrails(db: Db, out: Db, ticket: Ticket)
    requires TrailsMatch(db) && Shaped(ticket) && TicketEffect(db, out, ticket) && !Current(db, ticket)
    ensures !TrailsMatch(out)
  {
    match ticket
    case SettleRow(id, _, _, _, audit) =>
      ContributionTrailGrows(db.audits, audit, id);
      assert TrailOfContribution(out.audits, id) == Broken;
    case ReviewRow(id, _, _, _, _, audit) =>
      PayoutTrailGrows(db.audits, audit, id);
      assert TrailOfPayout(out.audits, id) == Broken;
    case _ => assert false;
  }

  /** With no assumption on overlap: a commit that changes anything keeps all the books if and only if
      its row still has the status that the call read. */
  lemma CommitKeepsBooksIff(base: map<Id, Vault>, db: Db, ticket: Ticket)
    requires Books(base, db) && Shaped(ticket) && Commit(db, ticket).db != db
    ensures Books(base, Commit(db, ticket).db) <==> Current(db, ticket)
  {
    if Current(db, ticket) {
      CommitKeepsBooks(base, db, ticket);
    } else {
      CommitIsAtomic(db, ticket);
      StaleBreaksTrails(db, Commit(db, ticket).db, ticket);
    }
  }

  /** Every ticket in flight in any run is of that shape. */
  lemma {:induction false} RunsKeepShape(db: Db, events: seq<Event>)
    ensures forall call | call in Run(Sys(db, map[]), events).inflight ::
      Shaped(Run(Sys(db, map[]), events).inflight[call])
  {
    if events != [] {
      var s := Run(Sys(db, map[]), events[..|events| - 1]);
      var event := events[|events| - 1];
      RunsKeepShape(db, events[..|events| - 1]);
      if event.Started? && Begin(s.db, event.request).Ready? {
        BegunIsCurrent(s.db, event.request);
        CurrentIsShaped(s.db, Begin(s.db, event.request).ticket);
      }
    }
  }

  /** So at any point of any run, overlapping calls included, at which the books agree: the next commit
      that changes anything keeps all of them if and only if its ticket is current, and keeps the
      totals if and only if its ticket is compatible with the status it finds. */
  lemma RacedCommitKeepsBooksIff(db: Db, events: seq<Event>, call: nat)
    requires var s := Run(Sys(db, map[]), events);
      call in s.inflight && Books(db.vaults, s.db) && Commit(s.db, s.inflight[call]).db != s.db
    ensures var s := Run(Sys(db, map[]), events);
      var ticket := s.inflight[call];
      var out := Commit(s.db, ticket).db;
      && (ticket.SettleRow? ==> ticket.id in s.db.contributions)
      && (ticket.ReviewRow? ==> ticket.id in s.db.payouts && s.db.payouts[ticket.id].vaultId in s.db.vaults)
      && (Books(db.vaults, out) <==> Current(s.db, ticket))
      && (Totals(db.vaults, out) <==> Compatible(s.db, ticket))
  {
    var s := Run(Sys(db, map[]), events);
    RunsKeepShape(db, events);
    ShapedIsIssued(s.inflight[call]);
    CommitKeepsBooksIff(db.vaults, s.db, s.inflight[call]);
    CommitKeepsTotalsIff(db.vaults, s.db, s.inflight[call]);
  }
}
