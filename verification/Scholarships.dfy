/** Scholarship pools, donations, applications and awards: the transactions and the services. */
module Scholarships {
  import opened Wrappers
  import opened Int64
  import opened Money
  import opened Roles
  import opened Text

  datatype PoolStatus = Open | Closed

  datatype ApplicationStatus = Submitted | UnderReview | Accepted | Declined

  datatype AwardStatus = Approved | Rejected | Disbursed | Revoked

  datatype Restrictions = Restrictions(geography: Option<string>, level: Option<string>, school: Option<Id>,
    category: Option<string>)

  datatype Pool = Pool(owner: Id, status: PoolStatus, available: i64, currency: Currency, restrictions: Restrictions)

  /** `answers` are the stored fields that the pool's restrictions are about, in the same places. */
  datatype Application = Application(poolId: Id, applicant: Id, answers: Restrictions, status: ApplicationStatus)

  datatype Award = Award(
    applicationId: Id, decidedBy: Id, amount: i64, currency: Currency, status: AwardStatus,
    linkedPayout: Option<Id>, linkedVault: Option<Id>)

  datatype Donation = Donation(poolId: Id, donor: Id, amount: i64, currency: Currency, key: string)

  /** The audit rows; a revocation row is given its pool and the amount it put back. */
  datatype AuditRow =
    | PoolCreated(poolId: Id)
    | PoolFunded(poolId: Id)
    | ApplicationSubmitted(applicationId: Id)
    | ApplicationDecided(applicationId: Id, awardId: Id)
    | AwardDisbursed(awardId: Id)
    | AwardRevoked(awardId: Id, poolId: Id, amount: int)

  datatype Db = Db(
    pools: map<Id, Pool>, applications: map<Id, Application>, awards: map<Id, Award>, donations: map<Id, Donation>,
    audits: seq<AuditRow>)

  datatype Outcome = Outcome(db: Db, reply: Result<Id, Error>)

  /** A service call; `schoolExists` and `linksExist` are what the foreign keys of its statements find. */
  datatype Request =
    | CreatePool(actor: Actor, name: string, currency: Currency, wanted: Restrictions, schoolExists: bool, newId: Id)
    | FundPool(actor: Actor, poolId: Id, amount: i64, currency: Currency, key: string, newId: Id)
    | Apply(actor: Actor, poolId: Id, child: Option<Child>, input: Restrictions, schoolExists: bool, newId: Id)
    | Decide(actor: Actor, applicationId: Id, approve: bool, amount: i64, currency: Currency, newId: Id)
    | Disburse(actor: Actor, awardId: Id, payout: Option<Id>, vault: Option<Id>, linksExist: bool)
    | Revoke(actor: Actor, awardId: Id)

  /** A validated call on its way to its transaction, with the values it carries there: the balance of
      a decision or an award move was computed from the pool as it was read. */
  datatype Ticket =
    | InsertPool(newId: Id, pool: Pool, schoolExists: bool)
    | AddDonation(newId: Id, donation: Donation)
    | InsertApplication(newId: Id, application: Application, schoolExists: bool)
    | DecideRow(id: Id, verdict: ApplicationStatus, newId: Id, award: Award, balance: i64)
    | MoveAward(id: Id, target: AwardStatus, payout: Option<Id>, vault: Option<Id>, linksExist: bool, balance: i64,
        audit: AuditRow)

  datatype Begun = Refused(error: Error) | Ready(ticket: Ticket)

  /** What the child profile table answers during an application. */
  datatype Child = Child(owner: Id, level: Option<string>)

  // ---------------------------------------------------------------- rules

  predicate CanReview(role: Role) {
    role == PlatformAdmin
  }

  predicate Reviewable(status: ApplicationStatus) {
    status == Submitted || status == UnderReview
  }

  /** The raw answer, trimmed, against the stored restriction. */
  predicate Satisfies(expected: Option<string>, given: Option<string>) {
    expected.Some? ==> given.Some? && Trim(given.value) == expected.value
  }

  predicate SatisfiesPool(pool: Restrictions, given: Restrictions) {
    && Satisfies(pool.geography, given.geography) && Satisfies(pool.level, given.level)
    && (pool.school.Some? ==> given.school == pool.school) && Satisfies(pool.category, given.category)
  }

  /** How both a pool's restrictions and an application's answers are stored. */
  function Stored(given: Restrictions): Restrictions {
    Restrictions(SanitizeOptional(given.geography), SanitizeOptional(given.level), given.school,
      SanitizeOptional(given.category))
  }

  /** The child's own level stands in for a missing answer. */
  function Answers(child: Child, input: Restrictions): Restrictions {
    input.(level := Coalesce(input.level, child.level))
  }

  datatype Transition = ToDisbursed | ToRevoked

  function Target(transition: Transition): AwardStatus {
    if transition == ToDisbursed then Disbursed else Revoked
  }

  /** Repeating a transition is accepted, and a repeated Disburse needs no link. */
  function ValidateAward(current: AwardStatus, transition: Transition, linked: bool): Result<AwardStatus, Error> {
    var target := Target(transition);
    if current == Approved && target == Disbursed then
      if linked then Ok(target) else Err(Conflict("disbursed award must link to a payout request or vault earmark"))
    else if current == Approved && target == Revoked then Ok(target)
    else if current == target then Ok(target)
    else Err(Conflict("invalid scholarship award transition"))
  }

  // ---------------------------------------------------------------- transactions

  predicate SchoolFound(school: Option<Id>, schoolExists: bool) {
    school.Some? ==> schoolExists
  }

  function InsertPoolTx(db: Db, newId: Id, pool: Pool, schoolExists: bool): Outcome {
    if newId in db.pools then Outcome(db, Err(Conflict("duplicate key")))
    else if !SchoolFound(pool.restrictions.school, schoolExists) then Outcome(db, Err(Repository))
    else match Parse(pool.currency.AsStr())
      case None => Outcome(db, Err(Repository))
      case Some(stored) =>
        Outcome(db.(
          pools := db.pools[newId := pool.(currency := stored)],
          audits := db.audits + [PoolCreated(newId)]), Ok(newId))
  }

  function InsertApplicationTx(db: Db, newId: Id, row: Application, schoolExists: bool): Outcome {
    if newId in db.applications then Outcome(db, Err(Conflict("duplicate key")))
    else if row.poolId !in db.pools || !SchoolFound(row.answers.school, schoolExists) then Outcome(db, Err(Repository))
    else
      Outcome(db.(
        applications := db.applications[newId := row],
        audits := db.audits + [ApplicationSubmitted(newId)]), Ok(newId))
  }

  /** UPDATE scholarship_pools SET available_funds_minor = …, under its CHECK. */
  function WritePool(db: Db, poolId: Id, available: i64): Option<Db>
    requires poolId in db.pools
  {
    if 0 <= available
    then Some(db.(pools := db.pools[poolId := db.pools[poolId].(available := available)]))
    else None
  }

  /** The one transaction that locks the pool and adds to the balance it finds. */
  function FundTx(db: Db, newId: Id, row: Donation): Outcome {
    if row.poolId !in db.pools then Outcome(db, Err(NotFound))
    else match WritePool(db, row.poolId, Wrap(db.pools[row.poolId].available + row.amount))
      case None => Outcome(db, Err(Repository))
      case Some(funded) =>
        if newId in db.donations || exists other | other in db.donations :: db.donations[other].key == row.key then
          Outcome(db, Err(Conflict("duplicate key")))
        else match Parse(row.currency.AsStr())
          case None => Outcome(db, Err(Repository))
          case Some(stored) =>
            if row.amount <= 0 then Outcome(db, Err(Repository))
            else
              Outcome(funded.(
                donations := db.donations[newId := row.(currency := stored)],
                audits := db.audits + [PoolFunded(row.poolId)]), Ok(newId))
  }

  /** The application's new status, the pool balance the caller computed, and the award. Neither the
      status nor the balance that the caller read is looked at again. */
  function DecideTx(db: Db, id: Id, verdict: ApplicationStatus, newId: Id, award: Award, balance: i64): Outcome {
    if id !in db.applications || db.applications[id].poolId !in db.pools then Outcome(db, Err(Repository))
    else match WritePool(db, db.applications[id].poolId, balance)
      case None => Outcome(db, Err(Repository))
      case Some(paid) =>
        if newId in db.awards then Outcome(db, Err(Conflict("duplicate key")))
        else match Parse(award.currency.AsStr())
          case None => Outcome(db, Err(Repository))
          case Some(stored) =>
            if award.amount < 0 then Outcome(db, Err(Repository))
            else Outcome(paid.(
              applications := db.applications[id := db.applications[id].(status := verdict)],
              awards := db.awards[newId := award.(currency := stored)],
              audits := db.audits + [ApplicationDecided(id, newId)]), Ok(newId))
  }

  /** The award's new status and links, and the pool balance the caller computed. */
  function AwardTx(db: Db, id: Id, target: AwardStatus, payout: Option<Id>, vault: Option<Id>, linksExist: bool,
    balance: i64, audit: AuditRow): Outcome
  {
    if id !in db.awards || db.awards[id].applicationId !in db.applications
      || db.applications[db.awards[id].applicationId].poolId !in db.pools
      || ((payout.Some? || vault.Some?) && !linksExist)
    then Outcome(db, Err(Repository))
    else
      var award := db.awards[id];
      var moved := award.(
        status := target,
        linkedPayout := Coalesce(payout, award.linkedPayout),
        linkedVault := Coalesce(vault, award.linkedVault));
      match WritePool(db, db.applications[award.applicationId].poolId, balance)
      case None => Outcome(db, Err(Repository))
      case Some(paid) => Outcome(paid.(awards := db.awards[id := moved], audits := db.audits + [audit]), Ok(id))
  }

  // ---------------------------------------------------------------- services: read and validate

  function BeginCreate(actor: Actor, name: string, currency: Currency, wanted: Restrictions, schoolExists: bool,
    newId: Id): Begun
  {
    if actor.role != Donor && actor.role != PlatformAdmin then Refused(Forbidden)
    else if Trim(name) == "" then Refused(Validation)
    else Ready(InsertPool(newId, Pool(actor.userId, Open, 0, currency, Stored(wanted)), schoolExists))
  }

  function BeginFund(db: Db, actor: Actor, poolId: Id, amount: i64, currency: Currency, key: string, newId: Id): Begun {
    if actor.role != Donor && actor.role != PlatformAdmin then Refused(Forbidden)
    else if amount <= 0 then Refused(Validation)
    else if poolId !in db.pools then Refused(NotFound)
    else if db.pools[poolId].status != Open then Refused(Conflict("scholarship pool is not open"))
    else if db.pools[poolId].currency.AsStr() != currency.AsStr() then Refused(Validation)
    else Ready(AddDonation(newId, Donation(poolId, actor.userId, amount, currency, key)))
  }

  function BeginApply(db: Db, actor: Actor, poolId: Id, child: Option<Child>, input: Restrictions,
    schoolExists: bool, newId: Id): Begun
  {
    if actor.role != Parent && actor.role != Student then Refused(Forbidden)
    else if poolId !in db.pools then Refused(NotFound)
    else if db.pools[poolId].status != Open then Refused(Conflict("scholarship pool is not open"))
    else if child.None? then Refused(NotFound)
    else if actor.role != Student && child.value.owner != actor.userId then Refused(Forbidden)
    else
      var answers := Answers(child.value, input);
      if !SatisfiesPool(db.pools[poolId].restrictions, answers) then Refused(Validation)
      else Ready(InsertApplication(newId, Application(poolId, actor.userId, Stored(answers), Submitted), schoolExists))
  }

  function BeginDecide(db: Db, actor: Actor, id: Id, approve: bool, amount: i64, currency: Currency, newId: Id): Begun {
    if !CanReview(actor.role) then Refused(Forbidden)
    else if approve && amount <= 0 then Refused(Validation)
    else if id !in db.applications then Refused(NotFound)
    else if !Reviewable(db.applications[id].status) then Refused(Conflict("invalid scholarship award transition"))
    else if db.applications[id].poolId !in db.pools then Refused(NotFound)
    else
      var pool := db.pools[db.applications[id].poolId];
      if approve && pool.currency.AsStr() != currency.AsStr() then Refused(Validation)
      else if approve && pool.available < amount then
        Refused(Conflict("award amount exceeds available scholarship pool balance"))
      else if amount < 0 then Refused(Validation)
      else
        var award := Award(id, actor.userId, amount, currency, if approve then Approved else Rejected, None, None);
        if approve then Ready(DecideRow(id, Accepted, newId, award, Wrap(pool.available - amount)))
        else Ready(DecideRow(id, Declined, newId, award, pool.available))
  }

  function BeginDisburse(db: Db, actor: Actor, id: Id, payout: Option<Id>, vault: Option<Id>, linksExist: bool): Begun {
    if !CanReview(actor.role) then Refused(Forbidden)
    else if id !in db.awards then Refused(NotFound)
    else match ValidateAward(db.awards[id].status, ToDisbursed, payout.Some? || vault.Some?)
      case Err(error) => Refused(error)
      case Ok(target) =>
        if db.awards[id].applicationId !in db.applications then Refused(NotFound)
        else
          var poolId := db.applications[db.awards[id].applicationId].poolId;
          if poolId !in db.pools then Refused(NotFound)
          else Ready(MoveAward(id, target, payout, vault, linksExist, db.pools[poolId].available, AwardDisbursed(id)))
  }

  /** The links it writes are those the award already has. */
  function BeginRevoke(db: Db, actor: Actor, id: Id): Begun {
    if !CanReview(actor.role) then Refused(Forbidden)
    else if id !in db.awards then Refused(NotFound)
    else
      var award := db.awards[id];
      match ValidateAward(award.status, ToRevoked, false)
      case Err(error) => Refused(error)
      case Ok(target) =>
        if award.applicationId !in db.applications then Refused(NotFound)
        else
          var poolId := db.applications[award.applicationId].poolId;
          if poolId !in db.pools then Refused(NotFound)
          else
            Ready(MoveAward(id, target, award.linkedPayout, award.linkedVault, true,
              Wrap(db.pools[poolId].available + award.amount), AwardRevoked(id, poolId, award.amount)))
  }

  // ---------------------------------------------------------------- both halves of a call

  /** The first half: read, validate, and prepare the transaction. Nothing is written. */
  function Begin(db: Db, request: Request): Begun {
    match request
    case CreatePool(actor, name, currency, wanted, schoolExists, newId) =>
      BeginCreate(actor, name, currency, wanted, schoolExists, newId)
    case FundPool(actor, poolId, amount, currency, key, newId) =>
      BeginFund(db, actor, poolId, amount, currency, key, newId)
    case Apply(actor, poolId, child, input, schoolExists, newId) =>
      BeginApply(db, actor, poolId, child, input, schoolExists, newId)
    case Decide(actor, id, approve, amount, currency, newId) =>
      BeginDecide(db, actor, id, approve, amount, currency, newId)
    case Disburse(actor, id, payout, vault, linksExist) => BeginDisburse(db, actor, id, payout, vault, linksExist)
    case Revoke(actor, id) => BeginRevoke(db, actor, id)
  }

  /** The second half: the transaction, run against whatever the tables hold by then. */
  function Commit(db: Db, ticket: Ticket): Outcome {
    match ticket
    case InsertPool(newId, pool, schoolExists) => InsertPoolTx(db, newId, pool, schoolExists)
    case AddDonation(newId, row) => FundTx(db, newId, row)
    case InsertApplication(newId, row, schoolExists) => InsertApplicationTx(db, newId, row, schoolExists)
    case DecideRow(id, verdict, newId, award, balance) => DecideTx(db, id, verdict, newId, award, balance)
    case MoveAward(id, target, payout, vault, linksExist, balance, audit) =>
      AwardTx(db, id, target, payout, vault, linksExist, balance, audit)
  }

  /** A call that nothing interleaves with. */
  function Call(db: Db, request: Request): Outcome {
    match Begin(db, request)
    case Refused(error) => Outcome(db, Err(error))
    case Ready(ticket) => Commit(db, ticket)
  }

  // ---------------------------------------------------------------- runs

  /** No service closes a pool; something outside may. */
  function ClosePool(db: Db, poolId: Id): Db {
    if poolId in db.pools then db.(pools := db.pools[poolId := db.pools[poolId].(status := Closed)]) else db
  }

  datatype Sys = Sys(db: Db, inflight: map<nat, Ticket>)

  datatype Event = Started(call: nat, request: Request) | Committed(call: nat) | Abandoned(call: nat)
    | PoolClosed(poolId: Id)

  function Step(s: Sys, event: Event): Sys {
    match event
    case Started(call, request) =>
      if call in s.inflight then s
      else (match Begin(s.db, request)
            case Ready(ticket) => s.(inflight := s.inflight[call := ticket])
            case _ => s)
    case Committed(call) =>
      if call in s.inflight then Sys(Commit(s.db, s.inflight[call]).db, s.inflight - {call}) else s
    case Abandoned(call) => s.(inflight := s.inflight - {call})
    case PoolClosed(poolId) => s.(db := ClosePool(s.db, poolId))
  }

  /** The state after a whole run. */
  function Run(s: Sys, events: seq<Event>): Sys {
    if events == [] then s else Step(Run(s, events[..|events| - 1]), events[|events| - 1])
  }

  /** Sequential runs: every call is finished before the next one starts. */
  datatype Action = Called(request: Request) | Shut(poolId: Id)

  function Act(db: Db, action: Action): Db {
    match action
    case Called(request) => Call(db, request).db
    case Shut(poolId) => ClosePool(db, poolId)
  }

  function Play(db: Db, actions: seq<Action>): Db {
    if actions == [] then db else Act(Play(db, actions[..|actions| - 1]), actions[|actions| - 1])
  }

  const EMPTY: Db := Db(map[], map[], map[], map[], [])

  // ---------------------------------------------------------------- which pool a call is about

  function PoolOfApplication(applications: map<Id, Application>, id: Id): Option<Id> {
    if id in applications then Some(applications[id].poolId) else None
  }

  /** The pool whose balance a ticket moves. */
  function Moves(db: Db, ticket: Ticket): Option<Id> {
    match ticket
    case AddDonation(_, row) => Some(row.poolId)
    case DecideRow(id, _, _, _, _) => PoolOfApplication(db.applications, id)
    case MoveAward(id, _, _, _, _, _, _) =>
      if id in db.awards then PoolOfApplication(db.applications, db.awards[id].applicationId) else None
    case _ => None
  }

  /** A decision or an award move overwrites the balance; a donation adds to it. */
  predicate Overwrites(ticket: Ticket) {
    ticket.DecideRow? || ticket.MoveAward?
  }

  /** A rejection and a Disburse write the balance that they read. */
  predicate LeavesBalance(ticket: Ticket) {
    (ticket.DecideRow? && ticket.award.status != Approved) || (ticket.MoveAward? && ticket.target != Revoked)
  }

  /** The two decide one application, or move one award. */
  predicate SameRow(ticket: Ticket, other: Ticket) {
    || (ticket.DecideRow? && other.DecideRow? && ticket.id == other.id)
    || (ticket.MoveAward? && other.MoveAward? && ticket.id == other.id)
  }

  /** The ticket changes what `other` was prepared from: the balance that it will overwrite, its
      application, or its award. */
  predicate Disturbs(db: Db, ticket: Ticket, other: Ticket) {
    Overwrites(other) && (SameRow(ticket, other) || (Moves(db, ticket) == Moves(db, other) && !LeavesBalance(ticket)))
  }

  /** While a call that will overwrite a balance is in flight, no other call in flight changes that
      balance, that application or that award. Rejections and disbursements may share a pool. */
  predicate Exclusive(s: Sys) {
    forall i, j | i in s.inflight && j in s.inflight && i != j :: !Disturbs(s.db, s.inflight[j], s.inflight[i])
  }

  ghost predicate ExclusiveRun(s: Sys, events: seq<Event>) {
    forall n | 0 <= n <= |events| :: Exclusive(Run(s, events[..n]))
  }
}
