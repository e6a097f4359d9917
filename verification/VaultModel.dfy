/** The tables behind contributions and payouts, the service calls that read them, the
    transactions that change them, and runs that interleave the two. Each transaction holds the
    row locks of the row it changes and of its vault, so it is one atomic step. */
module VaultModel {
  import opened Wrappers
  import opened Int64
  import opened Money
  import opened Roles
  import Contributions
  import Payouts

  // ---------------------------------------------------------------- rows

  datatype Vault = Vault(owner: Id, currency: string, contributed: i64, locked: i64, disbursed: i64, version: i64)

  datatype Contribution = Contribution(
    vaultId: Id, contributor: Id, amount: i64, currency: Currency, source: Contributions.Source,
    externalReference: Option<string>, key: string, status: Contributions.Status)

  datatype Payout = Payout(
    vaultId: Id, milestoneId: Id, schoolId: Id, requestedBy: Id, amount: i64, currency: Currency, key: string,
    status: Payouts.Status, reviewNotes: Option<string>, externalReference: Option<string>, reviewedBy: Option<Id>)

  datatype EntryKind = ContributionConfirmed | ContributionReversed

  datatype LedgerEntry = LedgerEntry(
    vaultId: Id, contributionId: Id, actor: Id, kind: EntryKind, amount: i64, balanceAfter: i64,
    externalReference: Option<string>)

  /** An audit row; the status rows carry the two statuses their metadata names. */
  datatype AuditRow =
    | ContributionRecorded(actor: Id, contributionId: Id, key: string)
    | ContributionSettled(actor: Id, contributionId: Id, from: Contributions.Status, to: Contributions.Status)
    | PayoutRequested(actor: Id, payoutId: Id)
    | PayoutReviewed(actor: Id, payoutId: Id, before: Payouts.Status, after: Payouts.Status)

  datatype Db = Db(
    vaults: map<Id, Vault>, contributors: set<(Id, Id)>,
    contributions: map<Id, Contribution>, payouts: map<Id, Payout>,
    ledger: seq<LedgerEntry>, audits: seq<AuditRow>)

  // ---------------------------------------------------------------- transactions

  /** What a call leaves behind and answers: the id of the row it returns, or an error. */
  datatype Outcome = Outcome(db: Db, reply: Result<Id, Error>)

  /** The CHECKs on a vault row, and the BIGINT range its `version + 1` has to stay in. */
  function UpdateVault(vault: Vault, contributed: i64, locked: i64, disbursed: i64): Option<Vault> {
    if 0 <= contributed && 0 <= locked && 0 <= disbursed && vault.version < MAX
    then Some(vault.(contributed := contributed, locked := locked, disbursed := disbursed,
      version := vault.version + 1))
    else None
  }

  function SettleTx(db: Db, id: Id, target: Contributions.Status, actor: Id, reference: Option<string>,
    audit: AuditRow): Outcome
  {
    if id !in db.contributions || db.contributions[id].vaultId !in db.vaults then Outcome(db, Err(NotFound))
    else
      var current := db.contributions[id];
      if current.status == target then Outcome(db, Ok(id))
      else
        var vault := db.vaults[current.vaultId];
        var row := current.(status := target, externalReference := Coalesce(reference, current.externalReference));
        var settled := db.(contributions := db.contributions[id := row], audits := db.audits + [audit]);
        match target
        case Confirmed =>
          PostToLedger(db, settled, id, vault, Wrap(vault.contributed + row.amount), actor, ContributionConfirmed)
        case Reversed =>
          if vault.contributed < row.amount then Outcome(db, Err(Conflict("vault balance would become negative")))
          else PostToLedger(db, settled, id, vault, Wrap(vault.contributed - row.amount), actor, ContributionReversed)
        case Failed => Outcome(settled, Ok(id))
        case Pending => Outcome(settled, Ok(id))
  }

  /** The balance update and the ledger insert of a settlement; a failed CHECK rolls back to `before`. */
  function PostToLedger(before: Db, settled: Db, id: Id, vault: Vault, contributed: i64, actor: Id,
    kind: EntryKind): Outcome
    requires id in settled.contributions
  {
    match UpdateVault(vault, contributed, vault.locked, vault.disbursed)
    case None => Outcome(before, Err(Repository))
    case Some(updated) =>
      var row := settled.contributions[id];
      var entry := LedgerEntry(row.vaultId, id, actor, kind, row.amount, updated.contributed, row.externalReference);
      Outcome(settled.(vaults := settled.vaults[row.vaultId := updated], ledger := settled.ledger + [entry]), Ok(id))
  }

  function ReviewTx(db: Db, id: Id, target: Payouts.Status, actor: Id, notes: Option<string>,
    reference: Option<string>, audit: AuditRow): Outcome
  {
    if id !in db.payouts || db.payouts[id].vaultId !in db.vaults then Outcome(db, Err(NotFound))
    else
      var current := db.payouts[id];
      if current.status == target then Outcome(db, Ok(id))
      else
        var vault := db.vaults[current.vaultId];
        var row := current.(
          status := target, reviewNotes := Coalesce(notes, current.reviewNotes),
          externalReference := Coalesce(reference, current.externalReference), reviewedBy := Some(actor));
        var reviewed := db.(payouts := db.payouts[id := row], audits := db.audits + [audit]);
        match target
        case Approved =>
          MoveBalances(db, reviewed, id, vault, Wrap(vault.locked + row.amount), vault.disbursed)
        case Completed =>
          if vault.locked < row.amount then Outcome(db, Err(Conflict("vault locked balance underflow")))
          else MoveBalances(db, reviewed, id, vault, Wrap(vault.locked - row.amount),
            Wrap(vault.disbursed + row.amount))
        case Failed =>
          if vault.locked >= row.amount
          then MoveBalances(db, reviewed, id, vault, Wrap(vault.locked - row.amount), vault.disbursed)
          else Outcome(reviewed, Ok(id))
        case Rejected => Outcome(reviewed, Ok(id))
        case Pending => Outcome(reviewed, Ok(id))
        case UnderReview => Outcome(reviewed, Ok(id))
        case Processing => Outcome(reviewed, Ok(id))
  }

  function MoveBalances(before: Db, reviewed: Db, id: Id, vault: Vault, locked: i64, disbursed: i64): Outcome
    requires id in reviewed.payouts
  {
    match UpdateVault(vault, vault.contributed, locked, disbursed)
    case None => Outcome(before, Err(Repository))
    case Some(updated) => Outcome(reviewed.(vaults := reviewed.vaults[reviewed.payouts[id].vaultId := updated]), Ok(id))
  }

  /** INSERT of a contribution: primary key, UNIQUE key, CHECK, foreign key, and the currency
      text read back by RETURNING. */
  function InsertContributionTx(db: Db, id: Id, row: Contribution, audit: AuditRow): Outcome {
    if id in db.contributions || exists other | other in db.contributions :: db.contributions[other].key == row.key then
      Outcome(db, Err(Conflict("duplicate key")))
    else if row.amount <= 0 || row.vaultId !in db.vaults then Outcome(db, Err(Repository))
    else match Parse(row.currency.AsStr())
      case None => Outcome(db, Err(Repository))
      case Some(stored) =>
        Outcome(db.(contributions := db.contributions[id := row.(currency := stored)],
          audits := db.audits + [audit]), Ok(id))
  }

  function InsertPayoutTx(db: Db, id: Id, row: Payout, audit: AuditRow): Outcome {
    if id in db.payouts || exists other | other in db.payouts :: db.payouts[other].key == row.key then
      Outcome(db, Err(Conflict("duplicate key")))
    else if row.amount <= 0 || row.vaultId !in db.vaults then Outcome(db, Err(Repository))
    else match Parse(row.currency.AsStr())
      case None => Outcome(db, Err(Repository))
      case Some(stored) =>
        Outcome(db.(payouts := db.payouts[id := row.(currency := stored)], audits := db.audits + [audit]), Ok(id))
  }

  // ---------------------------------------------------------------- service calls

  datatype Intent = Intent(
    vaultId: Id, amount: i64, currency: Currency, source: Contributions.Source,
    externalReference: Option<string>, key: string)

  datatype PayoutInput = PayoutInput(
    vaultId: Id, milestoneId: Id, schoolId: Id, amount: i64, currency: Currency, key: string)

  datatype Milestone = Milestone(vaultId: Id, status: Payouts.MilestoneStatus)

  /** What the milestone and school tables answer during the call; other services own them. */
  datatype Site = Site(milestone: Option<Milestone>, school: Option<Payouts.SchoolStatus>)

  datatype Request =
    | Record(actor: Actor, intent: Intent, newId: Id)
    | Settle(actor: Actor, contributionId: Id, reference: Option<string>, settlement: Contributions.Transition)
    | RequestPayout(actor: Actor, input: PayoutInput, site: Site, newId: Id)
    | Review(actor: Actor, payoutId: Id, notes: Option<string>, reference: Option<string>,
      review: Payouts.Transition, site: Site)

  /** A validated call on its way to its transaction, with the values it carries there. */
  datatype Ticket =
    | InsertContribution(newId: Id, contribution: Contribution, audit: AuditRow)
    | InsertPayout(newId: Id, payout: Payout, audit: AuditRow)
    | SettleRow(id: Id, target: Contributions.Status, actor: Id, reference: Option<string>, audit: AuditRow)
    | ReviewRow(id: Id, goal: Payouts.Status, actor: Id, notes: Option<string>, reference: Option<string>,
      audit: AuditRow)

  datatype Begun = Refused(error: Error) | Answered(id: Id) | Ready(ticket: Ticket)

  predicate SameIntent(row: Contribution, userId: Id, intent: Intent) {
    && row.vaultId == intent.vaultId && row.contributor == userId && row.amount == intent.amount
    && row.currency == intent.currency && row.source == intent.source
  }

  predicate SamePayout(row: Payout, userId: Id, input: PayoutInput) {
    && row.vaultId == input.vaultId && row.milestoneId == input.milestoneId && row.schoolId == input.schoolId
    && row.requestedBy == userId && row.amount == input.amount && row.currency == input.currency
  }

  /** SELECT by the idempotency key column. */
  ghost function ContributionByKey(db: Db, key: string): (found: Option<Id>)
    ensures found.Some? ==> found.value in db.contributions && db.contributions[found.value].key == key
    ensures found.None? ==> forall id | id in db.contributions :: db.contributions[id].key != key
  {
    if id :| id in db.contributions && db.contributions[id].key == key then Some(id) else None
  }

  ghost function PayoutByKey(db: Db, key: string): (found: Option<Id>)
    ensures found.Some? ==> found.value in db.payouts && db.payouts[found.value].key == key
    ensures found.None? ==> forall id | id in db.payouts :: db.payouts[id].key != key
  {
    if id :| id in db.payouts && db.payouts[id].key == key then Some(id) else None
  }

  /** Everything that is checked before the key is looked up. */
  function RecordGuard(db: Db, actor: Actor, intent: Intent): Option<Error> {
    if actor.role != Parent && actor.role != Contributor then Some(Forbidden)
    else if intent.amount <= 0 then Some(Validation)
    else if intent.vaultId !in db.vaults then Some(NotFound)
    else
      var vault := db.vaults[intent.vaultId];
      if !Contributions.CanFundVault(actor.role, actor.userId, vault.owner,
        (intent.vaultId, actor.userId) in db.contributors) then Some(Forbidden)
      else if intent.currency.AsStr() != vault.currency then Some(Validation)
      else None
  }

  function PendingContribution(actor: Actor, intent: Intent): Contribution {
    Contribution(intent.vaultId, actor.userId, intent.amount, intent.currency, intent.source, intent.externalReference,
      intent.key, Contributions.Pending)
  }

  ghost function BeginRecord(db: Db, actor: Actor, intent: Intent, newId: Id): Begun {
    var refusal := RecordGuard(db, actor, intent);
    if refusal.Some? then Refused(refusal.value)
    else match ContributionByKey(db, intent.key)
      case Some(id) =>
        if SameIntent(db.contributions[id], actor.userId, intent) then Answered(id)
        else Refused(Conflict("idempotency key already used for a different contribution intent"))
      case None =>
        Ready(InsertContribution(newId, PendingContribution(actor, intent),
          ContributionRecorded(actor.userId, newId, intent.key)))
  }

  function BeginSettle(db: Db, actor: Actor, id: Id, reference: Option<string>,
    transition: Contributions.Transition): Begun
  {
    if !Contributions.CanSettle(actor.role) then Refused(Forbidden)
    else if id !in db.contributions then Refused(NotFound)
    else
      var current := db.contributions[id].status;
      match Contributions.ValidateTransition(current, transition)
      case None => Refused(Conflict("invalid contribution transition"))
      case Some(target) =>
        if current == target then Answered(id)
        else Ready(SettleRow(id, target, actor.userId, reference,
          ContributionSettled(actor.userId, id, current, target)))
  }

  /** The guards of a new payout request, run only when its key is unused. */
  function RequestGuard(db: Db, actor: Actor, input: PayoutInput, site: Site): Option<Error> {
    if input.vaultId !in db.vaults then Some(NotFound)
    else
      var vault := db.vaults[input.vaultId];
      if vault.owner != actor.userId then Some(Forbidden)
      else if site.milestone.None? || site.school.None? then Some(NotFound)
      else if site.milestone.value.vaultId != input.vaultId || !Payouts.Payable(site.milestone.value.status) then
        Some(Validation)
      else if input.currency.AsStr() != vault.currency then Some(Validation)
      else if site.school.value != Payouts.SchoolVerified then Some(Conflict("school is not verified"))
      else if !Payouts.EnsureAvailableFunds(vault.contributed, vault.locked, vault.disbursed, input.amount) then
        Some(Conflict("vault has insufficient available funds"))
      else None
  }

  function PendingPayout(actor: Actor, input: PayoutInput): Payout {
    Payout(input.vaultId, input.milestoneId, input.schoolId, actor.userId, input.amount, input.currency, input.key,
      Payouts.Pending, None, None, None)
  }

  ghost function BeginRequest(db: Db, actor: Actor, input: PayoutInput, site: Site, newId: Id): Begun {
    if actor.role != Parent then Refused(Forbidden)
    else if input.amount <= 0 then Refused(Validation)
    else match PayoutByKey(db, input.key)
      case Some(id) =>
        if SamePayout(db.payouts[id], actor.userId, input) then Answered(id)
        else Refused(Conflict("idempotency key already used for a different payout request"))
      case None =>
        var refusal := RequestGuard(db, actor, input, site);
        if refusal.Some? then Refused(refusal.value)
        else Ready(InsertPayout(newId, PendingPayout(actor, input), PayoutRequested(actor.userId, newId)))
  }

  /** The guards of a review that would change the status of `row`. */
  function ReviewGuard(db: Db, row: Payout, transition: Payouts.Transition, site: Site): Option<Error> {
    if site.school.None? || site.milestone.None? || row.vaultId !in db.vaults then Some(NotFound)
    else if site.milestone.value.vaultId != row.vaultId || !Payouts.Payable(site.milestone.value.status) then
      Some(Validation)
    else
      var vault := db.vaults[row.vaultId];
      var needsSchool := transition == Payouts.Approve || transition == Payouts.MarkProcessing
                      || transition == Payouts.Complete || transition == Payouts.Fail;
      if needsSchool && site.school.value != Payouts.SchoolVerified then Some(Conflict("school is not verified"))
      else if transition == Payouts.Approve
        && !Payouts.EnsureAvailableFunds(vault.contributed, vault.locked, vault.disbursed, row.amount) then
        Some(Conflict("vault has insufficient available funds"))
      else None
  }

  function BeginReview(db: Db, actor: Actor, id: Id, notes: Option<string>, reference: Option<string>,
    transition: Payouts.Transition, site: Site): Begun
  {
    if actor.role != PlatformAdmin then Refused(Forbidden)
    else if id !in db.payouts then Refused(NotFound)
    else
      var row := db.payouts[id];
      match Payouts.ValidateTransition(row.status, transition)
      case None => Refused(Conflict("invalid payout transition"))
      case Some(target) =>
        if row.status == target then Answered(id)
        else
          var refusal := ReviewGuard(db, row, transition, site);
          if refusal.Some? then Refused(refusal.value)
          else Ready(ReviewRow(id, target, actor.userId, notes, reference,
            PayoutReviewed(actor.userId, id, row.status, target)))
  }

  // ---------------------------------------------------------------- both halves of a call

  /** The first half: read, validate, and prepare the transaction. Nothing is written. */
  ghost function Begin(db: Db, request: Request): Begun {
    match request
    case Record(actor, intent, newId) => BeginRecord(db, actor, intent, newId)
    case Settle(actor, id, reference, transition) => BeginSettle(db, actor, id, reference, transition)
    case RequestPayout(actor, input, site, newId) => BeginRequest(db, actor, input, site, newId)
    case Review(actor, id, notes, reference, transition, site) =>
      BeginReview(db, actor, id, notes, reference, transition, site)
  }

  /** The second half: the transaction, run against whatever the tables hold by then. */
  function Commit(db: Db, ticket: Ticket): Outcome {
    match ticket
    case InsertContribution(id, row, audit) => InsertContributionTx(db, id, row, audit)
    case InsertPayout(id, row, audit) => InsertPayoutTx(db, id, row, audit)
    case SettleRow(id, target, actor, reference, audit) => SettleTx(db, id, target, actor, reference, audit)
    case ReviewRow(id, target, actor, notes, reference, audit) =>
      ReviewTx(db, id, target, actor, notes, reference, audit)
  }

  /** A call that nothing interleaves with. */
  ghost function Call(db: Db, request: Request): Outcome {
    match Begin(db, request)
    case Refused(error) => Outcome(db, Err(error))
    case Answered(id) => Outcome(db, Ok(id))
    case Ready(ticket) => Commit(db, ticket)
  }

  // ---------------------------------------------------------------- runs

  datatype Sys = Sys(db: Db, inflight: map<nat, Ticket>)

  datatype Event =
    | Started(call: nat, request: Request)
    | Committed(call: nat)
    | Abandoned(call: nat)
    | ContributorAdded(vaultId: Id, userId: Id)

  ghost function Step(s: Sys, event: Event): Sys {
    match event
    case Started(call, request) =>
      if call in s.inflight then s
      else (match Begin(s.db, request)
            case Ready(ticket) => s.(inflight := s.inflight[call := ticket])
            case _ => s)
    case Committed(call) =>
      if call in s.inflight then Sys(Commit(s.db, s.inflight[call]).db, s.inflight - {call}) else s
    case Abandoned(call) => s.(inflight := s.inflight - {call})
    case ContributorAdded(vaultId, userId) =>
      if vaultId in s.db.vaults then s.(db := s.db.(contributors := s.db.contributors + {(vaultId, userId)})) else s
  }

  /** The state after a whole run. */
  ghost function Run(s: Sys, events: seq<Event>): Sys {
    if events == [] then s else Step(Run(s, events[..|events| - 1]), events[|events| - 1])
  }

  /** Sequential runs: every call is finished before the next one starts. */
  datatype Action = Called(request: Request) | Joined(vaultId: Id, userId: Id)

  ghost function Act(db: Db, action: Action): Db {
    match action
    case Called(request) => Call(db, request).db
    case Joined(vaultId, userId) =>
      if vaultId in db.vaults then db.(contributors := db.contributors + {(vaultId, userId)}) else db
  }

  ghost function Play(db: Db, actions: seq<Action>): Db {
    if actions == [] then db else Act(Play(db, actions[..|actions| - 1]), actions[|actions| - 1])
  }

  /** Tables before any contribution or payout exists; the vaults may hold any legal totals. */
  predicate Initial(db: Db) {
    && db.contributions == map[] && db.payouts == map[] && db.ledger == [] && db.audits == []
    && forall v | v in db.vaults ::
      0 <= db.vaults[v].contributed && 0 <= db.vaults[v].locked && 0 <= db.vaults[v].disbursed
  }

  // ---------------------------------------------------------------- rows under update

  datatype RowRef = ContributionRow(id: Id) | PayoutRow(id: Id)

  /** The existing row that a ticket will update. */
  function Target(ticket: Ticket): Option<RowRef> {
    match ticket
    case SettleRow(id, _, _, _, _) => Some(ContributionRow(id))
    case ReviewRow(id, _, _, _, _, _) => Some(PayoutRow(id))
    case _ => None
  }

  /** No two calls in flight update the same row. Different rows of one vault are free. */
  predicate Exclusive(s: Sys) {
    forall i, j | i in s.inflight && j in s.inflight && i != j && Target(s.inflight[i]).Some? ::
      Target(s.inflight[i]) != Target(s.inflight[j])
  }

  ghost predicate ExclusiveRun(s: Sys, events: seq<Event>) {
    forall n | 0 <= n <= |events| :: Exclusive(Run(s, events[..n]))
  }
}
