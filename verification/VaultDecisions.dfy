/** Which vault calls are accepted, from whom, and what exactly they store. Everything here is said on
    roles, statuses and numbers themselves, and not through the rules that the calls are made of. */
module VaultDecisions {
  import opened Wrappers
  import opened Int64
  import opened Money
  import opened Roles
  import opened VaultModel
  import opened Effects
  import Contributions
  import Payouts

  /** A given value, or what the column held before. */
  function Given(value: Option<string>, before: Option<string>): Option<string> {
    match value
    case Some(text) => Some(text)
    case None => before
  }

  // ---------------------------------------------------------------- settlements

  /** From which status a settlement leads to which. */
  predicate Settles(transition: Contributions.Transition, from: Contributions.Status, to: Contributions.Status) {
    match transition
    case Confirm => from == Contributions.Pending && to == Contributions.Confirmed
    case Fail => from == Contributions.Pending && to == Contributions.Failed
    case Reverse => from == Contributions.Confirmed && to == Contributions.Reversed
  }

  predicate IsSettled(transition: Contributions.Transition, status: Contributions.Status) {
    match transition
    case Confirm => status == Contributions.Confirmed
    case Fail => status == Contributions.Failed
    case Reverse => status == Contributions.Reversed
  }

  /** Only a platform administrator settles, from exactly these statuses; at the target the row is the
      answer, and everything else is refused. */
  lemma SettlementsBeginIff(db: Db, actor: Actor, id: Id, reference: Option<string>,
    transition: Contributions.Transition)
    ensures var begun := Begin(db, Settle(actor, id, reference, transition));
      var mayAct := actor.role == PlatformAdmin && id in db.contributions;
      && (begun.Ready? <==> mayAct && exists to :: Settles(transition, db.contributions[id].status, to))
      && (begun.Answered? <==> mayAct && IsSettled(transition, db.contributions[id].status))
      && (begun.Answered? ==> begun.id == id)
      && (begun.Refused? ==>
            begun.error == if actor.role != PlatformAdmin then Forbidden
                           else if id !in db.contributions then NotFound
                           else Conflict("invalid contribution transition"))
  {
    assert Settles(Contributions.Confirm, Contributions.Pending, Contributions.Confirmed);
    assert Settles(Contributions.Fail, Contributions.Pending, Contributions.Failed);
    assert Settles(Contributions.Reverse, Contributions.Confirmed, Contributions.Reversed);
  }

  /** Nobody else can settle anything. */
  lemma OthersSettleNothing(db: Db, actor: Actor, id: Id, reference: Option<string>,
    transition: Contributions.Transition)
    requires actor.role != PlatformAdmin
    ensures Call(db, Settle(actor, id, reference, transition)) == Outcome(db, Err(Forbidden))
  {
    SettlementsBeginIff(db, actor, id, reference, transition);
  }

  /** A confirmation in full: the row with the reference it was given or had, the vault with the
      amount added, one posting with that reference and the new balance, and one audit row. */
  lemma ConfirmStores(db: Db, actor: Actor, id: Id, reference: Option<string>)
    requires Checked(db) && actor.role == PlatformAdmin
    requires id in db.contributions && db.contributions[id].status == Contributions.Pending
    ensures var out := Call(db, Settle(actor, id, reference, Contributions.Confirm));
      var row := db.contributions[id];
      var vault := db.vaults[row.vaultId];
      var settled := row.(status := Contributions.Confirmed,
        externalReference := Given(reference, row.externalReference));
      if vault.contributed + row.amount <= 0x7FFF_FFFF_FFFF_FFFF && vault.version < 0x7FFF_FFFF_FFFF_FFFF then
        var total: i64 := vault.contributed + row.amount;
        out == Outcome(
          db.(contributions := db.contributions[id := settled],
            vaults := db.vaults[row.vaultId := vault.(contributed := total, version := vault.version + 1)],
            ledger := db.ledger + [LedgerEntry(row.vaultId, id, actor.userId, ContributionConfirmed, row.amount, total,
              settled.externalReference)],
            audits := db.audits
              + [ContributionSettled(actor.userId, id, Contributions.Pending, Contributions.Confirmed)]),
          Ok(id))
      else out == Outcome(db, Err(Repository))
  {
  }

  /** A reversal in full. */
  lemma ReverseStores(db: Db, actor: Actor, id: Id, reference: Option<string>)
    requires Checked(db) && actor.role == PlatformAdmin
    requires id in db.contributions && db.contributions[id].status == Contributions.Confirmed
    ensures var out := Call(db, Settle(actor, id, reference, Contributions.Reverse));
      var row := db.contributions[id];
      var vault := db.vaults[row.vaultId];
      var settled := row.(status := Contributions.Reversed,
        externalReference := Given(reference, row.externalReference));
      if vault.contributed < row.amount then
        out == Outcome(db, Err(Conflict("vault balance would become negative")))
      else if vault.version < 0x7FFF_FFFF_FFFF_FFFF then
        var total: i64 := vault.contributed - row.amount;
        out == Outcome(
          db.(contributions := db.contributions[id := settled],
            vaults := db.vaults[row.vaultId := vault.(contributed := total, version := vault.version + 1)],
            ledger := db.ledger + [LedgerEntry(row.vaultId, id, actor.userId, ContributionReversed, row.amount, total,
              settled.externalReference)],
            audits := db.audits
              + [ContributionSettled(actor.userId, id, Contributions.Confirmed, Contributions.Reversed)]),
          Ok(id))
      else out == Outcome(db, Err(Repository))
  {
  }

  /** A failure in full: no vault and no ledger entry. */
  lemma FailStores(db: Db, actor: Actor, id: Id, reference: Option<string>)
    requires Checked(db) && actor.role == PlatformAdmin
    requires id in db.contributions && db.contributions[id].status == Contributions.Pending
    ensures var row := db.contributions[id];
      var failed := row.(status := Contributions.Failed, externalReference := Given(reference, row.externalReference));
      Call(db, Settle(actor, id, reference, Contributions.Fail))
        == Outcome(
             db.(contributions := db.contributions[id := failed],
               audits := db.audits
                 + [ContributionSettled(actor.userId, id, Contributions.Pending, Contributions.Failed)]),
             Ok(id))
  {
  }

  // ---------------------------------------------------------------- payout reviews

  /** From which status a review leads to which. */
  predicate Reviews(transition: Payouts.Transition, from: Payouts.Status, to: Payouts.Status) {
    match transition
    case MoveToReview => from == Payouts.Pending && to == Payouts.UnderReview
    case Approve => from == Payouts.UnderReview && to == Payouts.Approved
    case Reject => (from == Payouts.Pending || from == Payouts.UnderReview) && to == Payouts.Rejected
    case MarkProcessing => from == Payouts.Approved && to == Payouts.Processing
    case Complete => from == Payouts.Processing && to == Payouts.Completed
    case Fail => from == Payouts.Processing && to == Payouts.Failed
  }

  function Goal(transition: Payouts.Transition): Payouts.Status {
    match transition
    case MoveToReview => Payouts.UnderReview
    case Approve => Payouts.Approved
    case Reject => Payouts.Rejected
    case MarkProcessing => Payouts.Processing
    case Complete => Payouts.Completed
    case Fail => Payouts.Failed
  }

  /** The milestone is of that vault and still to be paid. */
  predicate Fits(site: Site, vaultId: Id) {
    && site.milestone.Some? && site.milestone.value.vaultId == vaultId
    && (site.milestone.value.status == Payouts.Planned || site.milestone.value.status == Payouts.Funded
        || site.milestone.value.status == Payouts.PartiallyPaid)
  }

  predicate Verified(site: Site) {
    site.school == Some(Payouts.SchoolVerified)
  }

  /** The vault's funds in machine arithmetic, and in exact arithmetic unless it leaves i64. */
  predicate Affords(vault: Vault, amount: i64) {
    var exact := vault.contributed - vault.locked - vault.disbursed;
    if -0x8000_0000_0000_0000 <= exact then amount <= exact else amount <= exact + 0x1_0000_0000_0000_0000
  }

  /** The first thing that is wrong with a review of a row that it would move. */
  function ReviewFault(db: Db, row: Payout, transition: Payouts.Transition, site: Site): Option<Error> {
    if site.school == None || site.milestone == None || row.vaultId !in db.vaults then Some(NotFound)
    else if !Fits(site, row.vaultId) then Some(Validation)
    else if transition != Payouts.MoveToReview && transition != Payouts.Reject && !Verified(site) then
      Some(Conflict("school is not verified"))
    else if transition == Payouts.Approve && !Affords(db.vaults[row.vaultId], row.amount) then
      Some(Conflict("vault has insufficient available funds"))
    else None
  }

  lemma AffordsIsTheCheck(vault: Vault, amount: i64)
    requires 0 <= vault.contributed && 0 <= vault.locked && 0 <= vault.disbursed
    ensures Payouts.EnsureAvailableFunds(vault.contributed, vault.locked, vault.disbursed, amount)
      <==> Affords(vault, amount)
  {
  }

  lemma GuardFindsFault(db: Db, row: Payout, transition: Payouts.Transition, site: Site)
    requires Checked(db)
    ensures ReviewGuard(db, row, transition, site) == ReviewFault(db, row, transition, site)
  {
    if row.vaultId in db.vaults { AffordsIsTheCheck(db.vaults[row.vaultId], row.amount); }
  }

  lemma ValidReviews(status: Payouts.Status, transition: Payouts.Transition)
    ensures Payouts.ValidateTransition(status, transition)
      == if Reviews(transition, status, Goal(transition)) || status == Goal(transition) then Some(Goal(transition))
         else None
  {
  }

  /** Only a platform administrator reviews. A payout moves exactly along these pairs and only with an
      open site, and an approval only within the vault's funds. */
  lemma ReviewsBeginIff(db: Db, actor: Actor, id: Id, notes: Option<string>, reference: Option<string>,
    transition: Payouts.Transition, site: Site)
    requires Checked(db)
    ensures var begun := Begin(db, Review(actor, id, notes, reference, transition, site));
      var mayAct := actor.role == PlatformAdmin && id in db.payouts;
      && (begun.Ready? <==>
            && mayAct && Reviews(transition, db.payouts[id].status, Goal(transition))
            && ReviewFault(db, db.payouts[id], transition, site) == None)
      && (begun.Answered? <==> mayAct && db.payouts[id].status == Goal(transition))
      && (begun.Answered? ==> begun.id == id)
      && (begun.Refused? ==>
            begun.error == if actor.role != PlatformAdmin then Forbidden
                           else if id !in db.payouts then NotFound
                           else if !Reviews(transition, db.payouts[id].status, Goal(transition)) then
                             Conflict("invalid payout transition")
                           else ReviewFault(db, db.payouts[id], transition, site).value)
  {
    if id in db.payouts {
      GuardFindsFault(db, db.payouts[id], transition, site);
      ValidReviews(db.payouts[id].status, transition);
    }
  }

  lemma OthersReviewNothing(db: Db, actor: Actor, id: Id, notes: Option<string>, reference: Option<string>,
    transition: Payouts.Transition, site: Site)
    requires Checked(db) && actor.role != PlatformAdmin
    ensures Call(db, Review(actor, id, notes, reference, transition, site)) == Outcome(db, Err(Forbidden))
  {
    ReviewsBeginIff(db, actor, id, notes, reference, transition, site);
  }

  /** The vault as a review leaves it, where it goes through. */
  function MovedVault(vault: Vault, transition: Payouts.Transition, amount: i64): Result<Vault, Error> {
    var room := vault.version < 0x7FFF_FFFF_FFFF_FFFF;
    match transition
    case Approve =>
      if room && vault.locked + amount <= 0x7FFF_FFFF_FFFF_FFFF && 0 <= vault.locked + amount
      then Ok(vault.(locked := vault.locked + amount, version := vault.version + 1))
      else Err(Repository)
    case Complete =>
      if vault.locked < amount then Err(Conflict("vault locked balance underflow"))
      else if room && 0 <= vault.disbursed + amount <= 0x7FFF_FFFF_FFFF_FFFF && 0 <= amount
      then Ok(vault.(locked := vault.locked - amount, disbursed := vault.disbursed + amount,
        version := vault.version + 1))
      else Err(Repository)
    case Fail =>
      if vault.locked < amount then Ok(vault)
      else if room && 0 <= amount then Ok(vault.(locked := vault.locked - amount, version := vault.version + 1))
      else Err(Repository)
    case _ => Ok(vault)
  }

  lemma ReviewMovesVault(vault: Vault, transition: Payouts.Transition, amount: i64)
    requires 0 <= vault.contributed && 0 <= vault.locked && 0 <= vault.disbursed && 0 < amount
    ensures AfterReview(vault, Goal(transition), amount) == MovedVault(vault, transition, amount)
  {
  }

  /** A review in full: the row with the notes and reference it was given or had and who moved it, the
      balances of each transition, and one audit row that names the pair. */
  lemma ReviewStores(db: Db, actor: Actor, id: Id, notes: Option<string>, reference: Option<string>,
    transition: Payouts.Transition, site: Site)
    requires Checked(db) && Begin(db, Review(actor, id, notes, reference, transition, site)).Ready?
    ensures id in db.payouts && db.payouts[id].vaultId in db.vaults
    ensures var row := db.payouts[id];
      var moved := MovedVault(db.vaults[row.vaultId], transition, row.amount);
      var reviewed := row.(status := Goal(transition), reviewNotes := Given(notes, row.reviewNotes),
        externalReference := Given(reference, row.externalReference), reviewedBy := Some(actor.userId));
      Call(db, Review(actor, id, notes, reference, transition, site))
        == if moved.Err? then Outcome(db, Err(moved.error))
           else Outcome(
             db.(
               payouts := db.payouts[id := reviewed],
               vaults := db.vaults[row.vaultId := moved.value],
               audits := db.audits + [PayoutReviewed(actor.userId, id, row.status, Goal(transition))]),
             Ok(id))
  {
    ReviewsBeginIff(db, actor, id, notes, reference, transition, site);
    var row := db.payouts[id];
    ReviewMovesVault(db.vaults[row.vaultId], transition, row.amount);
    ReviewTxWrites(db, id, Goal(transition), actor.userId, notes, reference,
      PayoutReviewed(actor.userId, id, row.status, Goal(transition)));
  }

  // ---------------------------------------------------------------- new contributions

  predicate MayFund(db: Db, actor: Actor, vaultId: Id)
    requires vaultId in db.vaults
  {
    || (actor.role == Parent && actor.userId == db.vaults[vaultId].owner)
    || ((actor.role == Parent || actor.role == Contributor) && (vaultId, actor.userId) in db.contributors)
  }

  /** What is wrong with an intent before its key is looked up. */
  function IntentFault(db: Db, actor: Actor, intent: Intent): Option<Error> {
    if actor.role != Parent && actor.role != Contributor then Some(Forbidden)
    else if intent.amount < 1 then Some(Validation)
    else if intent.vaultId !in db.vaults then Some(NotFound)
    else if !MayFund(db, actor, intent.vaultId) then Some(Forbidden)
    else if db.vaults[intent.vaultId].currency != intent.currency.AsStr() then Some(Validation)
    else None
  }

  lemma IntentsAreRefused(db: Db, actor: Actor, intent: Intent, newId: Id)
    requires IntentFault(db, actor, intent).Some?
    ensures Call(db, Record(actor, intent, newId)) == Outcome(db, Err(IntentFault(db, actor, intent).value))
  {
  }

  ghost predicate KeyIsNew(db: Db, key: string) {
    forall id | id in db.contributions :: db.contributions[id].key != key
  }

  /** A new intent in full: one Pending row by the actor, with what the intent says, under a new id. */
  lemma IntentStores(db: Db, actor: Actor, intent: Intent, newId: Id)
    requires IntentFault(db, actor, intent) == None && KeyIsNew(db, intent.key)
    ensures var out := Call(db, Record(actor, intent, newId));
      var stored := Parse(intent.currency.AsStr());
      if newId in db.contributions then out == Outcome(db, Err(Conflict("duplicate key")))
      else if stored == None then out == Outcome(db, Err(Repository))
      else out == Outcome(
             db.(
               contributions := db.contributions[newId := Contribution(intent.vaultId, actor.userId, intent.amount,
                 stored.value, intent.source, intent.externalReference, intent.key, Contributions.Pending)],
               audits := db.audits + [ContributionRecorded(actor.userId, newId, intent.key)]),
             Ok(newId))
  {
  }

  /** A used key: the row that has it is the answer exactly when vault, user, amount, currency and
      source are the same. */
  lemma UsedKeyAnswersIff(db: Db, actor: Actor, intent: Intent, newId: Id, id: Id)
    requires IntentFault(db, actor, intent) == None && id in db.contributions && db.contributions[id].key == intent.key
    requires forall other | other in db.contributions && db.contributions[other].key == intent.key :: other == id
    ensures var row := db.contributions[id];
      var same := row.vaultId == intent.vaultId && row.contributor == actor.userId && row.amount == intent.amount
        && row.currency == intent.currency && row.source == intent.source;
      Call(db, Record(actor, intent, newId))
        == Outcome(db, if same then Ok(id)
                       else Err(Conflict("idempotency key already used for a different contribution intent")))
  {
    assert ContributionByKey(db, intent.key) == Some(id);
  }

  // ---------------------------------------------------------------- new payout requests

  /** What is wrong with a request under a new key. */
  function RequestFault(db: Db, actor: Actor, input: PayoutInput, site: Site): Option<Error> {
    if actor.role != Parent then Some(Forbidden)
    else if input.amount < 1 then Some(Validation)
    else if input.vaultId !in db.vaults then Some(NotFound)
    else if db.vaults[input.vaultId].owner != actor.userId then Some(Forbidden)
    else if site.milestone == None || site.school == None then Some(NotFound)
    else if !Fits(site, input.vaultId) || db.vaults[input.vaultId].currency != input.currency.AsStr() then
      Some(Validation)
    else if !Verified(site) then Some(Conflict("school is not verified"))
    else if !Affords(db.vaults[input.vaultId], input.amount) then
      Some(Conflict("vault has insufficient available funds"))
    else None
  }

  ghost predicate PayoutKeyIsNew(db: Db, key: string) {
    forall id | id in db.payouts :: db.payouts[id].key != key
  }

  /** A request under a new key goes ahead if and only if nothing is wrong with it: above the available
      funds, without a verified school or an open milestone of the vault, it is refused. */
  lemma RequestsBeginIff(db: Db, actor: Actor, input: PayoutInput, site: Site, newId: Id)
    requires Checked(db) && PayoutKeyIsNew(db, input.key)
    ensures var begun := Begin(db, RequestPayout(actor, input, site, newId));
      && (begun.Ready? <==> RequestFault(db, actor, input, site) == None)
      && (!begun.Ready? ==> begun == Refused(RequestFault(db, actor, input, site).value))
  {
    if input.vaultId in db.vaults { AffordsIsTheCheck(db.vaults[input.vaultId], input.amount); }
  }

  /** A new request in full. */
  lemma RequestStores(db: Db, actor: Actor, input: PayoutInput, site: Site, newId: Id)
    requires Checked(db) && PayoutKeyIsNew(db, input.key) && RequestFault(db, actor, input, site) == None
    ensures var out := Call(db, RequestPayout(actor, input, site, newId));
      var stored := Parse(input.currency.AsStr());
      if newId in db.payouts then out == Outcome(db, Err(Conflict("duplicate key")))
      else if stored == None then out == Outcome(db, Err(Repository))
      else out == Outcome(
             db.(
               payouts := db.payouts[newId := Payout(input.vaultId, input.milestoneId, input.schoolId, actor.userId,
                 input.amount, stored.value, input.key, Payouts.Pending, None, None, None)],
               audits := db.audits + [PayoutRequested(actor.userId, newId)]),
             Ok(newId))
  {
    RequestsBeginIff(db, actor, input, site, newId);
  }

  /** A used key, which only role and amount are checked before. */
  lemma UsedPayoutKeyAnswersIff(db: Db, actor: Actor, input: PayoutInput, site: Site, newId: Id, id: Id)
    requires id in db.payouts && db.payouts[id].key == input.key
    requires forall other | other in db.payouts && db.payouts[other].key == input.key :: other == id
    ensures var row := db.payouts[id];
      var same := row.vaultId == input.vaultId && row.milestoneId == input.milestoneId
        && row.schoolId == input.schoolId && row.requestedBy == actor.userId && row.amount == input.amount
        && row.currency == input.currency;
      Call(db, RequestPayout(actor, input, site, newId))
        == Outcome(db, if actor.role != Parent then Err(Forbidden)
                       else if input.amount < 1 then Err(Validation)
                       else if same then Ok(id)
                       else Err(Conflict("idempotency key already used for a different payout request")))
  {
    assert PayoutByKey(db, input.key) == Some(id);
  }
}
