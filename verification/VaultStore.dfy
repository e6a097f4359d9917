/** The tables as mutable state: the workflow repositories, which update them row by row inside a
    transaction, and the services that call them. Each method is proved to do exactly what the
    transaction functions and `Call` of the model say, so the books agree after every call. */
module VaultStore {
  import opened Wrappers
  import opened Int64
  import opened Money
  import opened Roles
  import opened VaultModel
  import opened Effects
  import opened VaultRuns
  import opened Solvency
  import opened SequentialRuns
  import opened Idempotency
  import Contributions
  import Payouts

  class Store {
    var vaults: map<Id, Vault>
    var contributors: set<(Id, Id)>
    var contributions: map<Id, Contribution>
    var payouts: map<Id, Payout>
    var ledger: seq<LedgerEntry>
    var audits: seq<AuditRow>
    ghost const start: Db
    ghost var history: seq<Action>

    function State(): Db
      reads this
    {
      Db(vaults, contributors, contributions, payouts, ledger, audits)
    }

    /** The tables are where their history of calls leads from tables without contributions and payouts. */
    ghost predicate Valid()
      reads this
    {
      Initial(start) && State() == Play(start, history)
    }

    constructor (db: Db)
      requires Initial(db)
      ensures Valid() && State() == start == db && history == []
    {
      vaults, contributors, contributions := db.vaults, db.contributors, db.contributions;
      payouts, ledger, audits := db.payouts, db.ledger, db.audits;
      start, history := db, [];
    }

    /** So totals, version, audit trail, ledger and credits agree. */
    lemma ValidKeepsBooks()
      requires Valid()
      ensures Books(start.vaults, State())
    {
      PlayKeepsBooks(start, history);
    }

    /** And rows are legal, with keys used once. */
    lemma ValidKeepsKeys()
      requires Valid()
      ensures Checked(State()) && KeysAgree(State())
    {
      PlayIsAnExclusiveRun(start, history);
      InitialKeys(start);
      RunsKeepKeys(Sys(start, map[]), Spread(history));
    }

    /** A call goes on record as it starts. */
    ghost method Note(request: Request)
      requires Valid()
      modifies this`history
      ensures history == old(history) + [Called(request)]
      ensures Play(start, history) == Call(State(), request).db
    {
      history := history + [Called(request)];
      assert history[..|history| - 1] == old(history);
    }

    method AddContributor(vaultId: Id, userId: Id)
      requires Valid() && vaultId in vaults
      modifies this`contributors, this`history
      ensures Valid() && contributors == old(contributors) + {(vaultId, userId)}
    {
      history := history + [Joined(vaultId, userId)];
      assert history[..|history| - 1] == old(history);
      contributors := contributors + {(vaultId, userId)};
    }

    /** ROLLBACK: the transaction's writes are undone. */
    method Rollback(saved: Db)
      modifies this
      ensures history == old(history)
      ensures State() == saved
    {
      vaults, contributors, contributions := saved.vaults, saved.contributors, saved.contributions;
      payouts, ledger, audits := saved.payouts, saved.ledger, saved.audits;
    }

    /** UPDATE savings_vaults; a violated CHECK changes nothing and reports failure. */
    method WriteVault(vaultId: Id, contributed: i64, locked: i64, disbursed: i64) returns (ok: bool)
      requires vaultId in vaults
      modifies this`vaults
      ensures var written := UpdateVault(old(vaults)[vaultId], contributed, locked, disbursed);
        ok == written.Some? && vaults == if ok then old(vaults)[vaultId := written.value] else old(vaults)
    {
      var vault := vaults[vaultId];
      ok := 0 <= contributed && 0 <= locked && 0 <= disbursed && vault.version < MAX;
      if ok {
        vaults := vaults[vaultId := vault.(contributed := contributed, locked := locked, disbursed := disbursed,
          version := vault.version + 1)];
      }
    }

    method SettleWithAudit(id: Id, target: Contributions.Status, actor: Id, reference: Option<string>, audit: AuditRow)
      returns (reply: Result<Id, Error>)
      modifies this
      ensures history == old(history)
      ensures Outcome(State(), reply) == SettleTx(old(State()), id, target, actor, reference, audit)
    {
      var saved := State();
      if id !in contributions { return Err(NotFound); }
      var contribution := contributions[id];
      if contribution.vaultId !in vaults { return Err(NotFound); }
      if contribution.status == target { return Ok(id); }
      SettleTxWrites(saved, id, target, actor, reference, audit);
      contributions := contributions[id := contribution.(status := target,
        externalReference := Coalesce(reference, contribution.externalReference))];
      var failure := ApplySettlement(id, target, actor);
      if failure.Some? {
        Rollback(saved);
        return Err(failure.value);
      }
      audits := audits + [audit];
      return Ok(id);
    }

    /** What a settlement does to the contributed total, and the ledger entry that records it. */
    method ApplySettlement(id: Id, target: Contributions.Status, actor: Id) returns (failure: Option<Error>)
      requires id in contributions && contributions[id].vaultId in vaults
      modifies this`vaults, this`ledger
      ensures var v := contributions[id].vaultId;
        var written := AfterSettlement(old(vaults)[v], target, contributions[id].amount);
        if failure.Some? then written == Err(failure.value) && vaults == old(vaults) && ledger == old(ledger)
        else
          && written.Ok? && vaults == old(vaults)[v := written.value]
          && ledger == old(ledger) + Postings(State(), id, target, actor)
    {
      var contribution := contributions[id];
      var vault := vaults[contribution.vaultId];
      match target {
        case Confirmed =>
          var total := Wrap(vault.contributed + contribution.amount);
          var ok := WriteVault(contribution.vaultId, total, vault.locked, vault.disbursed);
          if !ok { return Some(Repository); }
          InsertLedgerEntry(id, actor, ContributionConfirmed);
        case Reversed =>
          if vault.contributed < contribution.amount {
            return Some(Conflict("vault balance would become negative"));
          }
          var total := Wrap(vault.contributed - contribution.amount);
          var ok := WriteVault(contribution.vaultId, total, vault.locked, vault.disbursed);
          if !ok { return Some(Repository); }
          InsertLedgerEntry(id, actor, ContributionReversed);
        case Failed =>
        case Pending =>
      }
      return None;
    }

    method InsertLedgerEntry(id: Id, actor: Id, kind: EntryKind)
      requires id in contributions && contributions[id].vaultId in vaults
      modifies this`ledger
      ensures ledger == old(ledger) + [Posting(State(), id, actor, kind)]
    {
      var row := contributions[id];
      var balance := vaults[row.vaultId].contributed;
      var entry := LedgerEntry(row.vaultId, id, actor, kind, row.amount, balance, row.externalReference);
      ledger := ledger + [entry];
    }

    method TransitionWithAudit(id: Id, target: Payouts.Status, actor: Id, notes: Option<string>,
      reference: Option<string>, audit: AuditRow) returns (reply: Result<Id, Error>)
      modifies this
      ensures history == old(history)
      ensures Outcome(State(), reply) == ReviewTx(old(State()), id, target, actor, notes, reference, audit)
    {
      var saved := State();
      if id !in payouts { return Err(NotFound); }
      var payout := payouts[id];
      if payout.vaultId !in vaults { return Err(NotFound); }
      if payout.status == target { return Ok(id); }
      ReviewTxWrites(saved, id, target, actor, notes, reference, audit);
      payouts := payouts[id := payout.(status := target, reviewNotes := Coalesce(notes, payout.reviewNotes),
        externalReference := Coalesce(reference, payout.externalReference), reviewedBy := Some(actor))];
      var failure := ApplyReview(id, target);
      if failure.Some? {
        Rollback(saved);
        return Err(failure.value);
      }
      audits := audits + [audit];
      return Ok(id);
    }

    /** What a review does to the balances of the payout's vault. */
    method ApplyReview(id: Id, target: Payouts.Status) returns (failure: Option<Error>)
      requires id in payouts && payouts[id].vaultId in vaults
      modifies this`vaults
      ensures var v := payouts[id].vaultId;
        var written := AfterReview(old(vaults)[v], target, payouts[id].amount);
        if failure.Some? then written == Err(failure.value) && vaults == old(vaults)
        else written.Ok? && vaults == old(vaults)[v := written.value]
    {
      var payout := payouts[id];
      var vault := vaults[payout.vaultId];
      var ok := true;
      match target {
        case Approved =>
          ok := WriteVault(payout.vaultId, vault.contributed, Wrap(vault.locked + payout.amount), vault.disbursed);
        case Completed =>
          if vault.locked < payout.amount { return Some(Conflict("vault locked balance underflow")); }
          ok := WriteVault(payout.vaultId, vault.contributed, Wrap(vault.locked - payout.amount),
            Wrap(vault.disbursed + payout.amount));
        case Failed =>
          if vault.locked >= payout.amount {
            ok := WriteVault(payout.vaultId, vault.contributed, Wrap(vault.locked - payout.amount), vault.disbursed);
          }
        case _ =>
      }
      return if ok then None else Some(Repository);
    }

    method CreateIntentWithAudit(id: Id, row: Contribution, audit: AuditRow) returns (reply: Result<Id, Error>)
      modifies this
      ensures history == old(history)
      ensures Outcome(State(), reply) == InsertContributionTx(old(State()), id, row, audit)
    {
      if id in contributions || exists other | other in contributions :: contributions[other].key == row.key {
        return Err(Conflict("duplicate key"));
      }
      if row.amount <= 0 || row.vaultId !in vaults { return Err(Repository); }
      var stored := Parse(row.currency.AsStr());
      if stored == None { return Err(Repository); }
      contributions := contributions[id := row.(currency := stored.value)];
      audits := audits + [audit];
      return Ok(id);
    }

    method CreateRequestWithAudit(id: Id, row: Payout, audit: AuditRow) returns (reply: Result<Id, Error>)
      modifies this
      ensures history == old(history)
      ensures Outcome(State(), reply) == InsertPayoutTx(old(State()), id, row, audit)
    {
      if id in payouts || exists other | other in payouts :: payouts[other].key == row.key {
        return Err(Conflict("duplicate key"));
      }
      if row.amount <= 0 || row.vaultId !in vaults { return Err(Repository); }
      var stored := Parse(row.currency.AsStr());
      if stored == None { return Err(Repository); }
      payouts := payouts[id := row.(currency := stored.value)];
      audits := audits + [audit];
      return Ok(id);
    }
  }

  // ---------------------------------------------------------------- services

  method SettleContribution(store: Store, actor: Actor, id: Id, reference: Option<string>,
    transition: Contributions.Transition)
    returns (reply: Result<Id, Error>)
    requires store.Valid()
    modifies store
    ensures Outcome(store.State(), reply) == Call(old(store.State()), Settle(actor, id, reference, transition))
    ensures store.Valid() && store.history == old(store.history) + [Called(Settle(actor, id, reference, transition))]
  {
    store.Note(Settle(actor, id, reference, transition));
    if !Contributions.CanSettle(actor.role) { return Err(Forbidden); }
    if id !in store.contributions { return Err(NotFound); }
    var current := store.contributions[id];
    var target := Contributions.ValidateTransition(current.status, transition);
    if target == None { return Err(Conflict("invalid contribution transition")); }
    if current.status == target.value { return Ok(id); }
    var audit := ContributionSettled(actor.userId, id, current.status, target.value);
    reply := store.SettleWithAudit(id, target.value, actor.userId, reference, audit);
  }

  method RecordContributionIntent(store: Store, actor: Actor, intent: Intent, newId: Id)
    returns (reply: Result<Id, Error>)
    requires store.Valid()
    modifies store
    ensures Outcome(store.State(), reply) == Call(old(store.State()), Record(actor, intent, newId))
    ensures store.Valid() && store.history == old(store.history) + [Called(Record(actor, intent, newId))]
  {
    store.ValidKeepsKeys();
    store.Note(Record(actor, intent, newId));
    if actor.role != Parent && actor.role != Contributor { return Err(Forbidden); }
    if intent.amount <= 0 { return Err(Validation); }
    if intent.vaultId !in store.vaults { return Err(NotFound); }
    var vault := store.vaults[intent.vaultId];
    var explicitContributor := (intent.vaultId, actor.userId) in store.contributors;
    if !Contributions.CanFundVault(actor.role, actor.userId, vault.owner, explicitContributor) {
      return Err(Forbidden);
    }
    if intent.currency.AsStr() != vault.currency { return Err(Validation); }
    if existing :| existing in store.contributions && store.contributions[existing].key == intent.key {
      assert ContributionByKey(store.State(), intent.key) == Some(existing);
      if !SameIntent(store.contributions[existing], actor.userId, intent) {
        return Err(Conflict("idempotency key already used for a different contribution intent"));
      }
      return Ok(existing);
    }
    var audit := ContributionRecorded(actor.userId, newId, intent.key);
    reply := store.CreateIntentWithAudit(newId, PendingContribution(actor, intent), audit);
  }

  method CreatePayoutRequest(store: Store, actor: Actor, input: PayoutInput, site: Site, newId: Id)
    returns (reply: Result<Id, Error>)
    requires store.Valid()
    modifies store
    ensures Outcome(store.State(), reply) == Call(old(store.State()), RequestPayout(actor, input, site, newId))
    ensures store.Valid() && store.history == old(store.history) + [Called(RequestPayout(actor, input, site, newId))]
  {
    store.ValidKeepsKeys();
    store.Note(RequestPayout(actor, input, site, newId));
    if actor.role != Parent { return Err(Forbidden); }
    if input.amount <= 0 { return Err(Validation); }
    if existing :| existing in store.payouts && store.payouts[existing].key == input.key {
      assert PayoutByKey(store.State(), input.key) == Some(existing);
      if SamePayout(store.payouts[existing], actor.userId, input) { return Ok(existing); }
      return Err(Conflict("idempotency key already used for a different payout request"));
    }
    var refusal := RequestGuard(store.State(), actor, input, site);
    if refusal.Some? { return Err(refusal.value); }
    var audit := PayoutRequested(actor.userId, newId);
    reply := store.CreateRequestWithAudit(newId, PendingPayout(actor, input), audit);
  }

  method ReviewTransition(store: Store, actor: Actor, id: Id, notes: Option<string>, reference: Option<string>,
    transition: Payouts.Transition, site: Site) returns (reply: Result<Id, Error>)
    requires store.Valid()
    modifies store
    ensures Outcome(store.State(), reply)
      == Call(old(store.State()), Review(actor, id, notes, reference, transition, site))
    ensures store.Valid()
      && store.history == old(store.history) + [Called(Review(actor, id, notes, reference, transition, site))]
  {
    store.Note(Review(actor, id, notes, reference, transition, site));
    if actor.role != PlatformAdmin { return Err(Forbidden); }
    if id !in store.payouts { return Err(NotFound); }
    var payout := store.payouts[id];
    var target := Payouts.ValidateTransition(payout.status, transition);
    if target == None { return Err(Conflict("invalid payout transition")); }
    if payout.status == target.value { return Ok(id); }
    var refusal := ReviewGuard(store.State(), payout, transition, site);
    if refusal.Some? { return Err(refusal.value); }
    var audit := PayoutReviewed(actor.userId, id, payout.status, target.value);
    reply := store.TransitionWithAudit(id, target.value, actor.userId, notes, reference, audit);
  }
}
