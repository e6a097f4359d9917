/** What a committed transaction changes, in exact arithmetic and without the machinery. */
module Effects {
  import opened Wrappers
  import opened Int64
  import opened Money
  import opened Roles
  import opened VaultModel
  import Contributions
  import Payouts

  /** Non-negative totals and positive amounts: what the CHECK constraints alone keep. */
  ghost predicate Checked(db: Db) {
    && (forall v | v in db.vaults ::
      0 <= db.vaults[v].contributed && 0 <= db.vaults[v].locked && 0 <= db.vaults[v].disbursed)
    && (forall id | id in db.contributions ::
      0 < db.contributions[id].amount && db.contributions[id].vaultId in db.vaults)
    && (forall id | id in db.payouts :: 0 < db.payouts[id].amount && db.payouts[id].vaultId in db.vaults)
  }

  function Credit(target: Contributions.Status, amount: int): int {
    match target
    case Confirmed => amount
    case Reversed => -amount
    case _ => 0
  }

  /** The row `v` keeps owner and currency, and its totals and version move by exactly these steps. */
  ghost predicate VaultMoved(db: Db, out: Db, v: Id, contributed: int, locked: int, disbursed: int, version: int)
    requires v in db.vaults
  {
    && v in out.vaults
    && out.vaults == db.vaults[v := out.vaults[v]]
    && out.vaults[v].owner == db.vaults[v].owner && out.vaults[v].currency == db.vaults[v].currency
    && out.vaults[v].contributed == db.vaults[v].contributed + contributed
    && out.vaults[v].locked == db.vaults[v].locked + locked
    && out.vaults[v].disbursed == db.vaults[v].disbursed + disbursed
    && out.vaults[v].version == db.vaults[v].version + version
  }

  /** The ledger entry of a settled row, with the balance its vault has afterwards. */
  function Posting(out: Db, id: Id, actor: Id, kind: EntryKind): LedgerEntry
    requires id in out.contributions && out.contributions[id].vaultId in out.vaults
  {
    var row := out.contributions[id];
    LedgerEntry(row.vaultId, id, actor, kind, row.amount, out.vaults[row.vaultId].contributed, row.externalReference)
  }

  ghost predicate SettleEffect(db: Db, out: Db, id: Id, target: Contributions.Status, actor: Id, audit: AuditRow) {
    && id in db.contributions && id in out.contributions && db.contributions[id].vaultId in db.vaults
    && var before := db.contributions[id];
    && var row := out.contributions[id];
    && var v := row.vaultId;
    && before.status != target
    && row == before.(status := target, externalReference := row.externalReference)
    && out == db.(vaults := out.vaults, contributions := db.contributions[id := row], ledger := out.ledger,
      audits := db.audits + [audit])
    && var bump := if target == Contributions.Confirmed || target == Contributions.Reversed then 1 else 0;
    && VaultMoved(db, out, v, Credit(target, row.amount), 0, 0, bump)
    && out.ledger == db.ledger + Postings(out, id, target, actor)
  }

  function Written(row: Option<Vault>): Result<Vault, Error> {
    if row.None? then Err(Repository) else Ok(row.value)
  }

  /** The vault row after a settlement, or why there is none. */
  function AfterSettlement(vault: Vault, target: Contributions.Status, amount: i64): Result<Vault, Error> {
    match target
    case Confirmed => Written(UpdateVault(vault, Wrap(vault.contributed + amount), vault.locked, vault.disbursed))
    case Reversed =>
      if vault.contributed < amount then Err(Conflict("vault balance would become negative"))
      else Written(UpdateVault(vault, Wrap(vault.contributed - amount), vault.locked, vault.disbursed))
    case _ => Ok(vault)
  }

  function Postings(out: Db, id: Id, target: Contributions.Status, actor: Id): seq<LedgerEntry>
    requires id in out.contributions && out.contributions[id].vaultId in out.vaults
  {
    match target
    case Confirmed => [Posting(out, id, actor, ContributionConfirmed)]
    case Reversed => [Posting(out, id, actor, ContributionReversed)]
    case _ => []
  }

  /** A settlement that has to change its row writes the row, its vault, its ledger entry and the audit
      row, or nothing. */
  lemma SettleTxWrites(db: Db, id: Id, target: Contributions.Status, actor: Id, reference: Option<string>,
    audit: AuditRow)
    requires id in db.contributions && db.contributions[id].vaultId in db.vaults
    requires db.contributions[id].status != target
    ensures var current := db.contributions[id];
      var row := current.(status := target, externalReference := Coalesce(reference, current.externalReference));
      SettleTx(db, id, target, actor, reference, audit)
        == match AfterSettlement(db.vaults[row.vaultId], target, row.amount)
           case Err(error) => Outcome(db, Err(error))
           case Ok(moved) =>
             var settled := db.(
               vaults := db.vaults[row.vaultId := moved], contributions := db.contributions[id := row],
               audits := db.audits + [audit]);
             Outcome(settled.(ledger := db.ledger + Postings(settled, id, target, actor)), Ok(id))
  {
    var v := db.contributions[id].vaultId;
    assert db.vaults[v := db.vaults[v]] == db.vaults;
    assert db.ledger + [] == db.ledger;
  }

  /** What is written is the exact sum or difference: a wrapped one fails the CHECK. */
  lemma SettlementIsExact(vault: Vault, target: Contributions.Status, amount: i64)
    requires 0 <= vault.contributed && 0 <= vault.locked && 0 <= vault.disbursed && 0 < amount
    ensures var after := AfterSettlement(vault, target, amount);
      after.Ok? ==>
        && after.value == vault.(contributed := after.value.contributed, version := after.value.version)
        && 0 <= after.value.contributed == vault.contributed + Credit(target, amount)
        && after.value.version == vault.version
             + (if target == Contributions.Confirmed || target == Contributions.Reversed then 1 else 0)
  {
  }

  /** A settlement that answers Ok either found the row at its target and changed nothing, or had
      exactly its effect; one that fails changes nothing. No wrapped total is ever stored. */
  lemma SettleIsExact(db: Db, id: Id, target: Contributions.Status, actor: Id, reference: Option<string>,
    audit: AuditRow)
    requires Checked(db)
    ensures var out := SettleTx(db, id, target, actor, reference, audit);
      && (out.reply.Err? ==> out.db == db)
      && (out.reply.Ok? ==> id in db.contributions && out.reply == Ok(id))
      && (out.reply.Ok? && db.contributions[id].status == target ==> out.db == db)
      && (out.reply.Ok? && db.contributions[id].status != target ==>
            SettleEffect(db, out.db, id, target, actor, audit) && Checked(out.db))
  {
    if id in db.contributions && db.contributions[id].status != target {
      SettleTxWrites(db, id, target, actor, reference, audit);
      SettlementIsExact(db.vaults[db.contributions[id].vaultId], target, db.contributions[id].amount);
    }
  }

  /** Whether a Fail finds the lock it should release. */
  predicate Releases(db: Db, id: Id)
    requires id in db.payouts && db.payouts[id].vaultId in db.vaults
  {
    db.vaults[db.payouts[id].vaultId].locked >= db.payouts[id].amount
  }

  function LockMove(target: Payouts.Status, amount: int, released: bool): int {
    match target
    case Approved => amount
    case Completed => -amount
    case Failed => if released then -amount else 0
    case _ => 0
  }

  ghost predicate ReviewEffect(db: Db, out: Db, id: Id, target: Payouts.Status, audit: AuditRow) {
    && id in db.payouts && id in out.payouts && db.payouts[id].vaultId in db.vaults
    && var before := db.payouts[id];
    && var row := out.payouts[id];
    && var v := row.vaultId;
    && var move := LockMove(target, row.amount, Releases(db, id));
    && before.status != target
    && row == before.(status := target, reviewNotes := row.reviewNotes, externalReference := row.externalReference,
      reviewedBy := row.reviewedBy)
    && out == db.(vaults := out.vaults, payouts := db.payouts[id := row], audits := db.audits + [audit])
    && var paid := if target == Payouts.Completed then row.amount else 0;
    && VaultMoved(db, out, v, 0, move, paid, if move != 0 then 1 else 0)
  }

  /** The vault row after a review, or why there is none. */
  function AfterReview(vault: Vault, target: Payouts.Status, amount: i64): Result<Vault, Error> {
    match target
    case Approved => Written(UpdateVault(vault, vault.contributed, Wrap(vault.locked + amount), vault.disbursed))
    case Completed =>
      if vault.locked < amount then Err(Conflict("vault locked balance underflow"))
      else Written(UpdateVault(vault, vault.contributed, Wrap(vault.locked - amount), Wrap(vault.disbursed + amount)))
    case Failed =>
      if vault.locked < amount then Ok(vault)
      else Written(UpdateVault(vault, vault.contributed, Wrap(vault.locked - amount), vault.disbursed))
    case _ => Ok(vault)
  }

  /** A review that has to change its row writes the row, its vault and the audit row, or nothing. */
  lemma ReviewTxWrites(db: Db, id: Id, target: Payouts.Status, actor: Id, notes: Option<string>,
    reference: Option<string>, audit: AuditRow)
    requires id in db.payouts && db.payouts[id].vaultId in db.vaults && db.payouts[id].status != target
    ensures var current := db.payouts[id];
      var row := current.(status := target, reviewNotes := Coalesce(notes, current.reviewNotes),
        externalReference := Coalesce(reference, current.externalReference), reviewedBy := Some(actor));
      ReviewTx(db, id, target, actor, notes, reference, audit)
        == match AfterReview(db.vaults[row.vaultId], target, row.amount)
           case Err(error) => Outcome(db, Err(error))
           case Ok(moved) => Outcome(db.(vaults := db.vaults[row.vaultId := moved], payouts := db.payouts[id := row],
               audits := db.audits + [audit]), Ok(id))
  {
    var v := db.payouts[id].vaultId;
    assert db.vaults[v := db.vaults[v]] == db.vaults;
  }

  lemma MoveIsExact(vault: Vault, target: Payouts.Status, amount: i64)
    requires 0 <= vault.contributed && 0 <= vault.locked && 0 <= vault.disbursed && 0 < amount
    ensures var after := AfterReview(vault, target, amount);
      var move := LockMove(target, amount, vault.locked >= amount);
      after.Ok? ==>
        && after.value == vault.(locked := after.value.locked, disbursed := after.value.disbursed,
             version := after.value.version)
        && 0 <= after.value.locked == vault.locked + move
        && 0 <= after.value.disbursed == vault.disbursed + (if target == Payouts.Completed then amount else 0)
        && after.value.version == vault.version + (if move != 0 then 1 else 0)
  {
  }

  lemma ReviewIsExact(db: Db, id: Id, target: Payouts.Status, actor: Id, notes: Option<string>,
    reference: Option<string>, audit: AuditRow)
    requires Checked(db)
    ensures var out := ReviewTx(db, id, target, actor, notes, reference, audit);
      && (out.reply.Err? ==> out.db == db)
      && (out.reply.Ok? ==> id in db.payouts && out.reply == Ok(id))
      && (out.reply.Ok? && db.payouts[id].status == target ==> out.db == db)
      && (out.reply.Ok? && db.payouts[id].status != target ==>
            ReviewEffect(db, out.db, id, target, audit) && Checked(out.db))
  {
    if id in db.payouts && db.payouts[id].status != target {
      ReviewTxWrites(db, id, target, actor, notes, reference, audit);
      MoveIsExact(db.vaults[db.payouts[id].vaultId], target, db.payouts[id].amount);
    }
  }

  /** An insert that answers Ok added exactly one positive row of an existing vault, under an id
      and a key no row had. */
  ghost predicate ContributionInserted(db: Db, out: Db, id: Id, row: Contribution, audit: AuditRow) {
    && id !in db.contributions && id in out.contributions
    && (forall other | other in db.contributions :: db.contributions[other].key != row.key)
    && out.contributions[id] == row.(currency := out.contributions[id].currency)
    && Canonical(out.contributions[id].currency) && out.contributions[id].currency.AsStr() == row.currency.AsStr()
    && 0 < row.amount && row.vaultId in db.vaults
    && out == db.(contributions := db.contributions[id := out.contributions[id]], audits := db.audits + [audit])
  }

  lemma InsertContributionIsExact(db: Db, id: Id, row: Contribution, audit: AuditRow)
    ensures var out := InsertContributionTx(db, id, row, audit);
      && (out.reply.Err? ==> out.db == db)
      && (out.reply.Ok? ==> out.reply == Ok(id) && ContributionInserted(db, out.db, id, row, audit))
      && (out.reply.Ok? && Checked(db) ==> Checked(out.db))
  {
    if Parse(row.currency.AsStr()).Some? { ParsedIsCanonical(row.currency.AsStr()); }
  }

  ghost predicate PayoutInserted(db: Db, out: Db, id: Id, row: Payout, audit: AuditRow) {
    && id !in db.payouts && id in out.payouts
    && (forall other | other in db.payouts :: db.payouts[other].key != row.key)
    && out.payouts[id] == row.(currency := out.payouts[id].currency)
    && Canonical(out.payouts[id].currency) && out.payouts[id].currency.AsStr() == row.currency.AsStr()
    && 0 < row.amount && row.vaultId in db.vaults
    && out == db.(payouts := db.payouts[id := out.payouts[id]], audits := db.audits + [audit])
  }

  lemma InsertPayoutIsExact(db: Db, id: Id, row: Payout, audit: AuditRow)
    ensures var out := InsertPayoutTx(db, id, row, audit);
      && (out.reply.Err? ==> out.db == db)
      && (out.reply.Ok? ==> out.reply == Ok(id) && PayoutInserted(db, out.db, id, row, audit))
      && (out.reply.Ok? && Checked(db) ==> Checked(out.db))
  {
    if Parse(row.currency.AsStr()).Some? { ParsedIsCanonical(row.currency.AsStr()); }
  }

  /** What a ticket's transaction did, whichever it was. */
  ghost predicate TicketEffect(db: Db, out: Db, ticket: Ticket) {
    match ticket
    case InsertContribution(id, row, audit) => ContributionInserted(db, out, id, row, audit)
    case InsertPayout(id, row, audit) => PayoutInserted(db, out, id, row, audit)
    case SettleRow(id, target, actor, _, audit) => SettleEffect(db, out, id, target, actor, audit)
    case ReviewRow(id, target, _, _, _, audit) => ReviewEffect(db, out, id, target, audit)
  }

  /** Every transaction is all or nothing: it leaves the tables as they were, or has the whole of
      its effect. */
  lemma CommitIsAtomic(db: Db, ticket: Ticket)
    requires Checked(db)
    ensures Commit(db, ticket).db == db || TicketEffect(db, Commit(db, ticket).db, ticket)
    ensures Checked(Commit(db, ticket).db)
  {
    match ticket
    case InsertContribution(id, row, audit) => InsertContributionIsExact(db, id, row, audit);
    case InsertPayout(id, row, audit) => InsertPayoutIsExact(db, id, row, audit);
    case SettleRow(id, target, actor, reference, audit) => SettleIsExact(db, id, target, actor, reference, audit);
    case ReviewRow(id, target, actor, notes, reference, audit) =>
      ReviewIsExact(db, id, target, actor, notes, reference, audit);
  }
}
