/** What each committed scholarship transaction changes, in exact arithmetic. */
module ScholarshipEffects {
  import opened Wrappers
  import opened Int64
  import opened Money
  import opened Roles
  import opened Scholarships

  /** Rows name rows that exist, and hold the amounts their CHECKs allow. */
  ghost predicate Legal(db: Db) {
    && (forall p | p in db.pools :: 0 <= db.pools[p].available)
    && (forall id | id in db.applications :: db.applications[id].poolId in db.pools)
    && (forall id | id in db.awards :: 0 <= db.awards[id].amount && db.awards[id].applicationId in db.applications)
    && (forall id | id in db.donations :: 0 < db.donations[id].amount && db.donations[id].poolId in db.pools)
  }

  /** The restrictions have been through `Stored`. */
  ghost predicate Normal(wanted: Restrictions) {
    exists given :: wanted == Stored(given)
  }

  /** The stored answers come from raw ones that passed the check. */
  ghost predicate Checked(wanted: Restrictions, answers: Restrictions) {
    exists given :: answers == Stored(given) && SatisfiesPool(wanted, given)
  }

  // ---------------------------------------------------------------- effects

  /** Only the balance of pool `p` moves, by exactly `delta`. */
  ghost predicate Paid(pools: map<Id, Pool>, out: map<Id, Pool>, p: Id, delta: int) {
    && p in pools && p in out
    && out == pools[p := out[p]]
    && out[p] == pools[p].(available := out[p].available)
    && 0 <= out[p].available == pools[p].available + delta
  }

  ghost predicate PoolMade(db: Db, out: Db, newId: Id) {
    && newId !in db.pools && newId in out.pools
    && out.pools[newId].available == 0 && Normal(out.pools[newId].restrictions)
    && out == db.(pools := db.pools[newId := out.pools[newId]], audits := db.audits + [PoolCreated(newId)])
  }

  ghost predicate Funded(db: Db, out: Db, p: Id, newId: Id) {
    && newId !in db.donations && newId in out.donations
    && (forall other | other in db.donations :: db.donations[other].key != out.donations[newId].key)
    && var row := out.donations[newId];
    && row.poolId == p && 0 < row.amount && p in db.pools && row.currency.AsStr() == db.pools[p].currency.AsStr()
    && Paid(db.pools, out.pools, p, row.amount)
    && out == db.(
         pools := out.pools,
         donations := db.donations[newId := row],
         audits := db.audits + [PoolFunded(p)])
  }

  ghost predicate ApplicationMade(db: Db, out: Db, newId: Id) {
    && newId !in db.applications && newId in out.applications
    && var row := out.applications[newId];
    && row.poolId in db.pools && row.status == Submitted && Checked(db.pools[row.poolId].restrictions, row.answers)
    && out == db.(applications := db.applications[newId := row], audits := db.audits + [ApplicationSubmitted(newId)])
  }

  /** What an award takes out of its pool when it is made. */
  function Granted(award: Award): int {
    if award.status == Approved then award.amount else 0
  }

  ghost predicate Decided(db: Db, out: Db, id: Id, newId: Id) {
    && id in db.applications && Reviewable(db.applications[id].status)
    && newId !in db.awards && newId in out.awards
    && var award := out.awards[newId];
    && award.applicationId == id && 0 <= award.amount
    && award.linkedPayout.None? && award.linkedVault.None?
    && ((award.status == Approved && 0 < award.amount) || award.status == Rejected)
    && Paid(db.pools, out.pools, db.applications[id].poolId, 0 - Granted(award))
    && (award.status == Approved ==>
          award.currency.AsStr() == db.pools[db.applications[id].poolId].currency.AsStr())
    && var verdict := if award.status == Approved then Accepted else Declined;
    && out == db.(
         pools := out.pools,
         applications := db.applications[id := db.applications[id].(status := verdict)],
         awards := db.awards[newId := award],
         audits := db.audits + [ApplicationDecided(id, newId)])
  }

  /** What an award move puts back into the pool. */
  function PutBack(target: AwardStatus, amount: int): int {
    if target == Revoked then amount else 0
  }

  function MoveAudit(id: Id, p: Id, target: AwardStatus, amount: int): AuditRow {
    if target == Revoked then AwardRevoked(id, p, amount) else AwardDisbursed(id)
  }

  ghost predicate AwardMoved(db: Db, out: Db, id: Id) {
    && id in db.awards && id in out.awards && db.awards[id].applicationId in db.applications
    && var before := db.awards[id];
    && var award := out.awards[id];
    && var p := db.applications[before.applicationId].poolId;
    && award == before.(status := award.status, linkedPayout := award.linkedPayout, linkedVault := award.linkedVault)
    && (before.linkedPayout.Some? ==> award.linkedPayout.Some?)
    && (before.linkedVault.Some? ==> award.linkedVault.Some?)
    && (award.status == Disbursed || award.status == Revoked)
    && (before.status == Approved || before.status == award.status)
    && (before.status == Approved && award.status == Disbursed ==> award.linkedPayout.Some? || award.linkedVault.Some?)
    && Paid(db.pools, out.pools, p, PutBack(award.status, award.amount))
    && out == db.(
         pools := out.pools,
         awards := db.awards[id := award],
         audits := db.audits + [MoveAudit(id, p, award.status, award.amount)])
  }

  /** The effect of each kind of transaction. */
  ghost predicate Effect(db: Db, out: Db, ticket: Ticket) {
    match ticket
    case InsertPool(newId, _, _) => PoolMade(db, out, newId)
    case AddDonation(newId, row) => Funded(db, out, row.poolId, newId)
    case InsertApplication(newId, _, _) => ApplicationMade(db, out, newId)
    case DecideRow(id, _, newId, _, _) => Decided(db, out, id, newId)
    case MoveAward(id, target, _, _, _, _, _) => AwardMoved(db, out, id) && out.awards[id].status == target
  }

  // ---------------------------------------------------------------- current tickets

  /** What a decision ticket says of its award, whatever the tables hold by now. */
  predicate FairDecision(id: Id, verdict: ApplicationStatus, award: Award) {
    && award.applicationId == id && 0 <= award.amount && award.linkedPayout.None? && award.linkedVault.None?
    && ((award.status == Approved && 0 < award.amount && verdict == Accepted)
        || (award.status == Rejected && verdict == Declined))
  }

  predicate CurrentDecision(db: Db, id: Id, award: Award, balance: i64) {
    && id in db.applications && Reviewable(db.applications[id].status) && db.applications[id].poolId in db.pools
    && var pool := db.pools[db.applications[id].poolId];
    && balance == pool.available - Granted(award)
    && (award.status == Approved ==> award.currency.AsStr() == pool.currency.AsStr())
  }

  predicate CurrentMove(db: Db, id: Id, target: AwardStatus, payout: Option<Id>, vault: Option<Id>, balance: i64,
    audit: AuditRow)
  {
    && id in db.awards && db.awards[id].applicationId in db.applications
    && db.applications[db.awards[id].applicationId].poolId in db.pools
    && var award := db.awards[id];
    && var p := db.applications[award.applicationId].poolId;
    && (target == Disbursed || target == Revoked) && (award.status == Approved || award.status == target)
    && (award.status == Approved && target == Disbursed ==> payout.Some? || vault.Some?)
    && balance == Wrap(db.pools[p].available + PutBack(target, award.amount))
    && audit == MoveAudit(id, p, target, award.amount)
  }

  /** The rows a ticket was prepared from have not moved since. */
  ghost predicate Current(db: Db, ticket: Ticket) {
    match ticket
    case InsertPool(_, pool, _) => pool.available == 0 && Normal(pool.restrictions)
    case AddDonation(_, row) =>
      row.poolId in db.pools && 0 < row.amount && row.currency.AsStr() == db.pools[row.poolId].currency.AsStr()
    case InsertApplication(_, row, _) =>
      row.poolId in db.pools && row.status == Submitted && Checked(db.pools[row.poolId].restrictions, row.answers)
    case DecideRow(id, verdict, _, award, balance) =>
      FairDecision(id, verdict, award) && CurrentDecision(db, id, award, balance)
    case MoveAward(id, target, payout, vault, _, balance, audit) =>
      CurrentMove(db, id, target, payout, vault, balance, audit)
  }

  lemma BegunApplicationIsChecked(db: Db, actor: Actor, p: Id, child: Option<Child>, input: Restrictions,
    found: bool, newId: Id)
    requires BeginApply(db, actor, p, child, input, found, newId).Ready?
    ensures Current(db, BeginApply(db, actor, p, child, input, found, newId).ticket)
  {
    var answers := Answers(child.value, input);
    assert SatisfiesPool(db.pools[p].restrictions, answers);
  }

  lemma BegunDecisionIsCurrent(db: Db, actor: Actor, id: Id, approve: bool, amount: i64, currency: Currency, newId: Id)
    requires Legal(db) && BeginDecide(db, actor, id, approve, amount, currency, newId).Ready?
    ensures Current(db, BeginDecide(db, actor, id, approve, amount, currency, newId).ticket)
  {
  }

  lemma BegunDisbursementIsCurrent(db: Db, actor: Actor, id: Id, payout: Option<Id>, vault: Option<Id>,
    linksExist: bool)
    requires BeginDisburse(db, actor, id, payout, vault, linksExist).Ready?
    ensures Current(db, BeginDisburse(db, actor, id, payout, vault, linksExist).ticket)
  {
  }

  lemma BegunRevocationIsCurrent(db: Db, actor: Actor, id: Id)
    requires BeginRevoke(db, actor, id).Ready?
    ensures Current(db, BeginRevoke(db, actor, id).ticket)
  {
  }

  /** A ticket is current when it is made. */
  lemma BegunIsCurrent(db: Db, request: Request)
    requires Legal(db) && Begin(db, request).Ready?
    ensures Current(db, Begin(db, request).ticket)
  {
    match request
    case Decide(actor, id, approve, amount, currency, newId) =>
      BegunDecisionIsCurrent(db, actor, id, approve, amount, currency, newId);
    case Disburse(actor, id, payout, vault, linksExist) =>
      BegunDisbursementIsCurrent(db, actor, id, payout, vault, linksExist);
    case Revoke(actor, id) => BegunRevocationIsCurrent(db, actor, id);
    case CreatePool(_, _, _, wanted, _, _) => assert Normal(Stored(wanted));
    case Apply(actor, p, child, input, found, newId) =>
      BegunApplicationIsChecked(db, actor, p, child, input, found, newId);
    case FundPool(_, _, _, _, _, _) =>
  }

  // ---------------------------------------------------------------- exactness

  lemma FundIsExact(db: Db, newId: Id, row: Donation)
    requires Legal(db) && Current(db, AddDonation(newId, row))
    ensures var out := FundTx(db, newId, row);
      if out.reply.Err? then out.db == db else out.reply == Ok(newId) && Funded(db, out.db, row.poolId, newId)
  {
    if Parse(row.currency.AsStr()).Some? { ParsedIsCanonical(row.currency.AsStr()); }
  }

  lemma DecideIsExact(db: Db, id: Id, verdict: ApplicationStatus, newId: Id, award: Award, balance: i64)
    requires Legal(db) && FairDecision(id, verdict, award) && CurrentDecision(db, id, award, balance)
    ensures var out := DecideTx(db, id, verdict, newId, award, balance);
      if out.reply.Err? then out.db == db else out.reply == Ok(newId) && Decided(db, out.db, id, newId)
  {
    if Parse(award.currency.AsStr()).Some? { ParsedIsCanonical(award.currency.AsStr()); }
  }

  lemma MoveIsExact(db: Db, id: Id, target: AwardStatus, payout: Option<Id>, vault: Option<Id>, linksExist: bool,
    balance: i64, audit: AuditRow)
    requires Legal(db) && CurrentMove(db, id, target, payout, vault, balance, audit)
    ensures var out := AwardTx(db, id, target, payout, vault, linksExist, balance, audit);
      if out.reply.Err? then out.db == db
      else out.reply == Ok(id) && AwardMoved(db, out.db, id) && out.db.awards[id].status == target
  {
  }

  /** A current ticket's transaction is all or nothing, and moves the balance by the exact amount. */
  lemma CommitIsExact(db: Db, ticket: Ticket)
    requires Legal(db) && Current(db, ticket)
    ensures var out := Commit(db, ticket); if out.reply.Err? then out.db == db else Effect(db, out.db, ticket)
  {
    match ticket
    case AddDonation(newId, row) => FundIsExact(db, newId, row);
    case DecideRow(id, verdict, newId, award, balance) => DecideIsExact(db, id, verdict, newId, award, balance);
    case MoveAward(id, target, payout, vault, linksExist, balance, audit) =>
      MoveIsExact(db, id, target, payout, vault, linksExist, balance, audit);
    case InsertPool(_, _, _) =>
    case InsertApplication(_, _, _) =>
  }

  lemma EffectKeepsLegal(db: Db, out: Db, ticket: Ticket)
    requires Legal(db) && Effect(db, out, ticket)
    ensures Legal(out)
  {
    match ticket
    case DecideRow(_, _, _, _, _) =>
    case MoveAward(_, _, _, _, _, _, _) =>
    case _ =>
  }
}
