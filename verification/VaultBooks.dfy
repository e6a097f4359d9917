/** The vault totals against the status of every contribution and payout. */
module VaultBooks {
  import opened Roles
  import opened VaultModel
  import opened MapSums
  import opened Effects
  import Contributions
  import Payouts

  // ---------------------------------------------------------------- what the totals should be

  predicate Holds(status: Payouts.Status) {
    status == Payouts.Approved || status == Payouts.Processing
  }

  function ConfirmedIn(vaultId: Id): Contribution -> int {
    (row: Contribution) => if row.vaultId == vaultId && row.status == Contributions.Confirmed then row.amount else 0
  }

  function HeldIn(vaultId: Id): Payout -> int {
    (row: Payout) => if row.vaultId == vaultId && Holds(row.status) then row.amount else 0
  }

  function PaidIn(vaultId: Id): Payout -> int {
    (row: Payout) => if row.vaultId == vaultId && row.status == Payouts.Completed then row.amount else 0
  }

  /** The vaults are those the run started with, unchanged apart from totals and version. */
  ghost predicate WellFormed(base: map<Id, Vault>, db: Db) {
    && Checked(db)
    && db.vaults.Keys == base.Keys
    && (forall v | v in base :: db.vaults[v].owner == base[v].owner && db.vaults[v].currency == base[v].currency)
  }

  predicate LegalStart(base: map<Id, Vault>) {
    forall v | v in base :: 0 <= base[v].contributed && 0 <= base[v].locked && 0 <= base[v].disbursed
  }

  ghost predicate VaultTotals(start: Vault, vault: Vault, v: Id, db: Db) {
    && vault.contributed == start.contributed + Sum(db.contributions, ConfirmedIn(v))
    && vault.locked == start.locked + Sum(db.payouts, HeldIn(v))
    && vault.disbursed == start.disbursed + Sum(db.payouts, PaidIn(v))
  }

  /** contributed, locked and disbursed are their starting values plus the sums over the
      Confirmed contributions, the Approved and Processing payouts, and the Completed payouts. */
  ghost predicate Totals(base: map<Id, Vault>, db: Db) {
    && WellFormed(base, db)
    && forall v | v in base :: VaultTotals(base[v], db.vaults[v], v, db)
  }

  // ---------------------------------------------------------------- which commits keep them

  /** Which effective settlement commits leave the totals right: any Confirm, a Reverse of a
      Confirmed row, and a Fail of a row that is not Confirmed. */
  predicate CompatibleSettlement(current: Contributions.Status, target: Contributions.Status) {
    target == Contributions.Confirmed || (target == Contributions.Reversed <==> current == Contributions.Confirmed)
  }

  /** The same for payouts; `released` says whether a Fail found enough locked balance. */
  predicate CompatibleReview(current: Payouts.Status, target: Payouts.Status, released: bool) {
    match target
    case Approved => !Holds(current) && current != Payouts.Completed
    case Completed => Holds(current)
    case Processing => Holds(current)
    case Failed => if released then Holds(current) else !Holds(current) && current != Payouts.Completed
    case _ => !Holds(current) && current != Payouts.Completed
  }

  lemma SettledVault(start: Vault, db: Db, out: Db, id: Id, target: Contributions.Status, actor: Id, audit: AuditRow,
    w: Id)
    requires w in db.vaults && VaultTotals(start, db.vaults[w], w, db)
    requires SettleEffect(db, out, id, target, actor, audit) && 0 < db.contributions[id].amount
    requires target != Contributions.Pending
    ensures w in out.vaults
    ensures VaultTotals(start, out.vaults[w], w, out)
      <==> (w == db.contributions[id].vaultId ==> CompatibleSettlement(db.contributions[id].status, target))
  {
    SumUpdate(db.contributions, ConfirmedIn(w), id, out.contributions[id]);
  }

  lemma ReviewedVault(start: Vault, db: Db, out: Db, id: Id, target: Payouts.Status, audit: AuditRow, w: Id)
    requires w in db.vaults && VaultTotals(start, db.vaults[w], w, db)
    requires ReviewEffect(db, out, id, target, audit) && 0 < db.payouts[id].amount
    ensures w in out.vaults
    ensures VaultTotals(start, out.vaults[w], w, out)
      <==> (w == db.payouts[id].vaultId ==> CompatibleReview(db.payouts[id].status, target, Releases(db, id)))
  {
    SumUpdate(db.payouts, HeldIn(w), id, out.payouts[id]);
    SumUpdate(db.payouts, PaidIn(w), id, out.payouts[id]);
  }

  /** Exactly the compatible settlements keep the totals; the others are the races the commit
      does not catch, since it only compares the row with its target. */
  lemma SettlementKeepsTotalsIff(base: map<Id, Vault>, db: Db, out: Db, id: Id, target: Contributions.Status,
    actor: Id, audit: AuditRow)
    requires Totals(base, db) && SettleEffect(db, out, id, target, actor, audit) && WellFormed(base, out)
    requires target != Contributions.Pending
    ensures Totals(base, out) <==> CompatibleSettlement(db.contributions[id].status, target)
  {
    var v := db.contributions[id].vaultId;
    forall w | w in base
      ensures VaultTotals(base[w], out.vaults[w], w, out)
        <==> (w == v ==> CompatibleSettlement(db.contributions[id].status, target))
    {
      SettledVault(base[w], db, out, id, target, actor, audit, w);
    }
    assert v in base;
  }

  /** For reviews: exactly the compatible ones keep the totals. */
  lemma ReviewKeepsTotalsIff(base: map<Id, Vault>, db: Db, out: Db, id: Id, target: Payouts.Status, audit: AuditRow)
    requires Totals(base, db) && ReviewEffect(db, out, id, target, audit) && WellFormed(base, out)
    ensures Totals(base, out) <==> CompatibleReview(db.payouts[id].status, target, Releases(db, id))
  {
    var v := db.payouts[id].vaultId;
    forall w | w in base
      ensures VaultTotals(base[w], out.vaults[w], w, out)
        <==> (w == v ==> CompatibleReview(db.payouts[id].status, target, Releases(db, id)))
    {
      ReviewedVault(base[w], db, out, id, target, audit, w);
    }
    assert v in base;
  }

  // ---------------------------------------------------------------- guards that cannot fire

  /** While the totals are right, a Confirmed row is covered: its Reverse cannot go negative. */
  lemma ReverseIsCovered(base: map<Id, Vault>, db: Db, id: Id)
    requires Totals(base, db) && LegalStart(base)
    requires id in db.contributions && db.contributions[id].status == Contributions.Confirmed
    ensures db.contributions[id].amount <= db.vaults[db.contributions[id].vaultId].contributed
  {
    var v := db.contributions[id].vaultId;
    assert VaultTotals(base[v], db.vaults[v], v, db);
    SumAtLeast(db.contributions, ConfirmedIn(v), id);
  }

  /** While the totals are right, a held payout is covered: its Complete cannot underflow and its
      Fail always finds its own lock. */
  lemma LockIsCovered(base: map<Id, Vault>, db: Db, id: Id)
    requires Totals(base, db) && LegalStart(base)
    requires id in db.payouts && Holds(db.payouts[id].status)
    ensures Releases(db, id)
  {
    var v := db.payouts[id].vaultId;
    assert VaultTotals(base[v], db.vaults[v], v, db);
    SumAtLeast(db.payouts, HeldIn(v), id);
  }

  // ---------------------------------------------------------------- the version column

  function SettleBumps(vaultId: Id): Contribution -> int {
    (row: Contribution) =>
      if row.vaultId != vaultId then 0
      else if row.status == Contributions.Confirmed then 1
      else if row.status == Contributions.Reversed then 2
      else 0
  }

  function ReviewBumps(vaultId: Id): Payout -> int {
    (row: Payout) =>
      if row.vaultId != vaultId then 0
      else if Holds(row.status) then 1
      else if row.status == Payouts.Completed || row.status == Payouts.Failed then 2
      else 0
  }

  /** The closed form of `version`: one for each Confirmed, two for each Reversed contribution,
      one for each held, two for each Completed or Failed payout. */
  ghost predicate Versions(base: map<Id, Vault>, db: Db) {
    && db.vaults.Keys == base.Keys
    && forall v | v in base ::
         db.vaults[v].version == base[v].version + Sum(db.contributions, SettleBumps(v))
               + Sum(db.payouts, ReviewBumps(v))
  }

  lemma SettledVersion(start: int, db: Db, out: Db, id: Id, target: Contributions.Status, actor: Id, audit: AuditRow,
    v: Id)
    requires v in db.vaults && SettleEffect(db, out, id, target, actor, audit)
    requires Contributions.Edge(db.contributions[id].status, target)
    requires db.vaults[v].version == start + Sum(db.contributions, SettleBumps(v))
    ensures v in out.vaults && out.vaults[v].version == start + Sum(out.contributions, SettleBumps(v))
  {
    SumUpdate(db.contributions, SettleBumps(v), id, out.contributions[id]);
  }

  lemma SettlementKeepsVersions(base: map<Id, Vault>, db: Db, out: Db, id: Id, target: Contributions.Status,
    actor: Id, audit: AuditRow)
    requires Versions(base, db) && SettleEffect(db, out, id, target, actor, audit)
    requires Contributions.Edge(db.contributions[id].status, target)
    ensures Versions(base, out)
  {
    forall v | v in base
      ensures v in out.vaults
        && out.vaults[v].version == base[v].version + Sum(out.contributions, SettleBumps(v))
              + Sum(out.payouts, ReviewBumps(v))
    {
      SettledVersion(base[v].version + Sum(db.payouts, ReviewBumps(v)), db, out, id, target, actor, audit, v);
    }
  }

  lemma ReviewedVersion(start: int, db: Db, out: Db, id: Id, target: Payouts.Status, audit: AuditRow, v: Id)
    requires v in db.vaults && ReviewEffect(db, out, id, target, audit) && 0 < db.payouts[id].amount
    requires Payouts.Edge(db.payouts[id].status, target) && (target == Payouts.Failed ==> Releases(db, id))
    requires db.vaults[v].version == start + Sum(db.payouts, ReviewBumps(v))
    ensures v in out.vaults && out.vaults[v].version == start + Sum(out.payouts, ReviewBumps(v))
  {
    SumUpdate(db.payouts, ReviewBumps(v), id, out.payouts[id]);
  }

  lemma ReviewKeepsVersions(base: map<Id, Vault>, db: Db, out: Db, id: Id, target: Payouts.Status, audit: AuditRow)
    requires Versions(base, db) && ReviewEffect(db, out, id, target, audit) && 0 < db.payouts[id].amount
    requires Payouts.Edge(db.payouts[id].status, target) && (target == Payouts.Failed ==> Releases(db, id))
    ensures Versions(base, out)
  {
    forall v | v in base
      ensures v in out.vaults
        && out.vaults[v].version == base[v].version + Sum(out.contributions, SettleBumps(v))
              + Sum(out.payouts, ReviewBumps(v))
    {
      ReviewedVersion(base[v].version + Sum(db.contributions, SettleBumps(v)), db, out, id, target, audit, v);
    }
  }

  /** A new Pending row weighs nothing in any of the sums. */
  lemma NewContributionWeighsNothing(db: Db, id: Id, row: Contribution, v: Id)
    requires id !in db.contributions && row.status == Contributions.Pending
    ensures Sum(db.contributions[id := row], ConfirmedIn(v)) == Sum(db.contributions, ConfirmedIn(v))
    ensures Sum(db.contributions[id := row], SettleBumps(v)) == Sum(db.contributions, SettleBumps(v))
  {
    SumUpdate(db.contributions, ConfirmedIn(v), id, row);
    SumUpdate(db.contributions, SettleBumps(v), id, row);
  }

  lemma NewPayoutWeighsNothing(db: Db, id: Id, row: Payout, v: Id)
    requires id !in db.payouts && row.status == Payouts.Pending
    ensures Sum(db.payouts[id := row], HeldIn(v)) == Sum(db.payouts, HeldIn(v))
    ensures Sum(db.payouts[id := row], PaidIn(v)) == Sum(db.payouts, PaidIn(v))
    ensures Sum(db.payouts[id := row], ReviewBumps(v)) == Sum(db.payouts, ReviewBumps(v))
  {
    SumUpdate(db.payouts, HeldIn(v), id, row);
    SumUpdate(db.payouts, PaidIn(v), id, row);
    SumUpdate(db.payouts, ReviewBumps(v), id, row);
  }

  lemma InsertKeepsTotals(base: map<Id, Vault>, db: Db, out: Db, ticket: Ticket)
    requires Totals(base, db) && WellFormed(base, out) && PendingInserted(db, out, ticket)
    ensures Totals(base, out)
  {
    forall v | v in base
      ensures VaultTotals(base[v], out.vaults[v], v, out)
    {
      assert VaultTotals(base[v], db.vaults[v], v, db);
      if ticket.InsertContribution? {
        NewContributionWeighsNothing(db, ticket.newId, out.contributions[ticket.newId], v);
      } else {
        NewPayoutWeighsNothing(db, ticket.newId, out.payouts[ticket.newId], v);
      }
    }
  }

  lemma InsertKeepsVersions(base: map<Id, Vault>, db: Db, out: Db, ticket: Ticket)
    requires Versions(base, db) && PendingInserted(db, out, ticket)
    ensures Versions(base, out)
  {
    forall v | v in base
      ensures Sum(out.contributions, SettleBumps(v)) + Sum(out.payouts, ReviewBumps(v))
           == Sum(db.contributions, SettleBumps(v)) + Sum(db.payouts, ReviewBumps(v))
    {
      if ticket.InsertContribution? {
        NewContributionWeighsNothing(db, ticket.newId, out.contributions[ticket.newId], v);
      } else {
        NewPayoutWeighsNothing(db, ticket.newId, out.payouts[ticket.newId], v);
      }
    }
  }

  ghost predicate PendingInserted(db: Db, out: Db, ticket: Ticket) {
    || (ticket.InsertContribution? && ticket.contribution.status == Contributions.Pending
         && ContributionInserted(db, out, ticket.newId, ticket.contribution, ticket.audit))
    || (ticket.InsertPayout? && ticket.payout.status == Payouts.Pending
         && PayoutInserted(db, out, ticket.newId, ticket.payout, ticket.audit))
  }
}
