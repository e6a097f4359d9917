/** Which scholarship calls are accepted, from whom, and what exactly they store: said on roles,
    statuses, amounts and links themselves. */
module ScholarshipDecisions {
  import opened Wrappers
  import opened Int64
  import opened Money
  import opened Roles
  import opened Text
  import opened Scholarships
  import opened ScholarshipEffects

  function Given(value: Option<Id>, before: Option<Id>): Option<Id> {
    match value
    case Some(id) => Some(id)
    case None => before
  }

  /** Trimmed text, or nothing for a missing or blank one. */
  function Cleaned(value: Option<string>): Option<string> {
    match value
    case Some(text) => if Trim(text) == "" then None else Some(Trim(text))
    case None => None
  }

  function CleanedAll(given: Restrictions): Restrictions {
    Restrictions(Cleaned(given.geography), Cleaned(given.level), given.school, Cleaned(given.category))
  }

  // ---------------------------------------------------------------- pools

  /** A new pool in full: only donors and administrators, with a name; it is open and empty. */
  lemma PoolStores(db: Db, actor: Actor, name: string, currency: Currency, wanted: Restrictions, schoolExists: bool,
    newId: Id)
    ensures var out := Call(db, CreatePool(actor, name, currency, wanted, schoolExists, newId));
      var stored := Parse(currency.AsStr());
      out == if actor.role != Donor && actor.role != PlatformAdmin then Outcome(db, Err(Forbidden))
             else if Trim(name) == "" then Outcome(db, Err(Validation))
             else if newId in db.pools then Outcome(db, Err(Conflict("duplicate key")))
             else if (wanted.school != None && !schoolExists) || stored == None then Outcome(db, Err(Repository))
             else Outcome(
               db.(
                 pools := db.pools[newId := Pool(actor.userId, Open, 0, stored.value, CleanedAll(wanted))],
                 audits := db.audits + [PoolCreated(newId)]),
               Ok(newId))
  {
  }

  // ---------------------------------------------------------------- donations

  /** What is wrong with a donation before its transaction. */
  function DonationFault(db: Db, actor: Actor, poolId: Id, amount: i64, currency: Currency): Option<Error> {
    if actor.role != Donor && actor.role != PlatformAdmin then Some(Forbidden)
    else if amount < 1 then Some(Validation)
    else if poolId !in db.pools then Some(NotFound)
    else if db.pools[poolId].status == Closed then Some(Conflict("scholarship pool is not open"))
    else if db.pools[poolId].currency.AsStr() != currency.AsStr() then Some(Validation)
    else None
  }

  ghost predicate DonationIsNew(db: Db, newId: Id, key: string) {
    newId !in db.donations && forall id | id in db.donations :: db.donations[id].key != key
  }

  /** A donation in full: the balance grows by the amount, unless it would leave i64; a key is used
      once. */
  lemma DonationStores(db: Db, actor: Actor, poolId: Id, amount: i64, currency: Currency, key: string, newId: Id)
    requires Legal(db)
    ensures var out := Call(db, FundPool(actor, poolId, amount, currency, key, newId));
      var fault := DonationFault(db, actor, poolId, amount, currency);
      var stored := Parse(currency.AsStr());
      if fault.Some? then out == Outcome(db, Err(fault.value))
      else if db.pools[poolId].available + amount > 0x7FFF_FFFF_FFFF_FFFF then out == Outcome(db, Err(Repository))
      else if !DonationIsNew(db, newId, key) then out == Outcome(db, Err(Conflict("duplicate key")))
      else if stored == None then out == Outcome(db, Err(Repository))
      else
        var pool := db.pools[poolId];
        out == Outcome(
          db.(
            pools := db.pools[poolId := pool.(available := pool.available + amount)],
            donations := db.donations[newId := Donation(poolId, actor.userId, amount, stored.value, key)],
            audits := db.audits + [PoolFunded(poolId)]),
          Ok(newId))
  {
  }

  // ---------------------------------------------------------------- applications

  predicate Meets(wanted: Option<string>, given: Option<string>) {
    match wanted
    case Some(text) => given.Some? && Trim(given.value) == text
    case None => true
  }

  predicate MeetsAll(wanted: Restrictions, given: Restrictions) {
    && Meets(wanted.geography, given.geography) && Meets(wanted.level, given.level)
    && (wanted.school == None || given.school == wanted.school) && Meets(wanted.category, given.category)
  }

  /** The answers, with the child's own level where none was given. */
  function Filled(child: Child, input: Restrictions): Restrictions {
    if input.level == None then Restrictions(input.geography, child.level, input.school, input.category) else input
  }

  /** What is wrong with an application: a student may apply for any child, a parent for its own. */
  function ApplicationFault(db: Db, actor: Actor, poolId: Id, child: Option<Child>, input: Restrictions)
    : Option<Error>
  {
    if actor.role != Parent && actor.role != Student then Some(Forbidden)
    else if poolId !in db.pools then Some(NotFound)
    else if db.pools[poolId].status == Closed then Some(Conflict("scholarship pool is not open"))
    else if child == None then Some(NotFound)
    else if actor.role == Parent && child.value.owner != actor.userId then Some(Forbidden)
    else if !MeetsAll(db.pools[poolId].restrictions, Filled(child.value, input)) then Some(Validation)
    else None
  }

  /** An application in full. */
  lemma ApplicationStores(db: Db, actor: Actor, poolId: Id, child: Option<Child>, input: Restrictions,
    schoolExists: bool, newId: Id)
    ensures var out := Call(db, Apply(actor, poolId, child, input, schoolExists, newId));
      var fault := ApplicationFault(db, actor, poolId, child, input);
      if fault.Some? then out == Outcome(db, Err(fault.value))
      else if newId in db.applications then out == Outcome(db, Err(Conflict("duplicate key")))
      else if input.school != None && !schoolExists then out == Outcome(db, Err(Repository))
      else out == Outcome(
             db.(
               applications := db.applications[newId :=
                 Application(poolId, actor.userId, CleanedAll(Filled(child.value, input)), Submitted)],
               audits := db.audits + [ApplicationSubmitted(newId)]),
             Ok(newId))
  {
  }

  // ---------------------------------------------------------------- decisions

  /** What is wrong with a decision: only an administrator decides, and only an open application; an
      approval within the pool's balance and in its currency. */
  function DecisionFault(db: Db, actor: Actor, id: Id, approve: bool, amount: i64, currency: Currency): Option<Error> {
    if actor.role != PlatformAdmin then Some(Forbidden)
    else if approve && amount < 1 then Some(Validation)
    else if id !in db.applications then Some(NotFound)
    else if db.applications[id].status == Accepted || db.applications[id].status == Declined then
      Some(Conflict("invalid scholarship award transition"))
    else if db.applications[id].poolId !in db.pools then Some(NotFound)
    else
      var pool := db.pools[db.applications[id].poolId];
      if approve && pool.currency.AsStr() != currency.AsStr() then Some(Validation)
      else if approve && pool.available < amount then
        Some(Conflict("award amount exceeds available scholarship pool balance"))
      else if amount < 0 then Some(Validation)
      else None
  }

  lemma DecisionBegins(db: Db, actor: Actor, id: Id, approve: bool, amount: i64, currency: Currency, newId: Id)
    requires Legal(db)
    ensures var fault := DecisionFault(db, actor, id, approve, amount, currency);
      var begun := Begin(db, Decide(actor, id, approve, amount, currency, newId));
      if fault.Some? then begun == Refused(fault.value)
      else
        var pool := db.pools[db.applications[id].poolId];
        begun == Ready(DecideRow(id, if approve then Accepted else Declined, newId,
          Award(id, actor.userId, amount, currency, if approve then Approved else Rejected, None, None),
          if approve then pool.available - amount else pool.available))
  {
  }

  /** A decision in full: an approval takes its amount out of the pool, a rejection takes nothing. */
  lemma DecisionStores(db: Db, actor: Actor, id: Id, approve: bool, amount: i64, currency: Currency, newId: Id)
    requires Legal(db)
    ensures var out := Call(db, Decide(actor, id, approve, amount, currency, newId));
      var fault := DecisionFault(db, actor, id, approve, amount, currency);
      var stored := Parse(currency.AsStr());
      if fault.Some? then out == Outcome(db, Err(fault.value))
      else if newId in db.awards then out == Outcome(db, Err(Conflict("duplicate key")))
      else if stored == None then out == Outcome(db, Err(Repository))
      else
        var row := db.applications[id];
        var pool := db.pools[row.poolId];
        var award := Award(id, actor.userId, amount, stored.value, if approve then Approved else Rejected, None, None);
        out == Outcome(
          db.(
            pools := db.pools[row.poolId :=
              pool.(available := if approve then pool.available - amount else pool.available)],
            applications := db.applications[id := row.(status := if approve then Accepted else Declined)],
            awards := db.awards[newId := award],
            audits := db.audits + [ApplicationDecided(id, newId)]),
          Ok(newId))
  {
    DecisionBegins(db, actor, id, approve, amount, currency, newId);
  }

  // ---------------------------------------------------------------- award moves

  /** What is wrong with a Disburse: only an Approved award with a link, or a Disbursed one again. */
  function DisburseFault(db: Db, actor: Actor, id: Id, payout: Option<Id>, vault: Option<Id>): Option<Error> {
    if actor.role != PlatformAdmin then Some(Forbidden)
    else if id !in db.awards then Some(NotFound)
    else match db.awards[id].status
      case Approved =>
        if payout == None && vault == None then
          Some(Conflict("disbursed award must link to a payout request or vault earmark"))
        else None
      case Disbursed => None
      case _ => Some(Conflict("invalid scholarship award transition"))
  }

  lemma ValidDisbursals(status: AwardStatus, linked: bool)
    ensures ValidateAward(status, ToDisbursed, linked)
      == match status
         case Approved =>
           if linked then Ok(Disbursed)
           else Err(Conflict("disbursed award must link to a payout request or vault earmark"))
         case Disbursed => Ok(Disbursed)
         case _ => Err(Conflict("invalid scholarship award transition"))
  {
  }

  lemma DisburseBegins(db: Db, actor: Actor, id: Id, payout: Option<Id>, vault: Option<Id>, linksExist: bool)
    requires id in db.awards ==> db.awards[id].applicationId in db.applications
    requires id in db.awards ==> db.applications[db.awards[id].applicationId].poolId in db.pools
    ensures var fault := DisburseFault(db, actor, id, payout, vault);
      if fault.Some? then BeginDisburse(db, actor, id, payout, vault, linksExist) == Refused(fault.value)
      else
        var p := db.applications[db.awards[id].applicationId].poolId;
        BeginDisburse(db, actor, id, payout, vault, linksExist)
          == Ready(MoveAward(id, Disbursed, payout, vault, linksExist, db.pools[p].available, AwardDisbursed(id)))
  {
    if id in db.awards { ValidDisbursals(db.awards[id].status, payout.Some? || vault.Some?); }
  }

  lemma SameBalanceSamePools(pools: map<Id, Pool>, p: Id)
    requires p in pools
    ensures pools[p := pools[p].(available := pools[p].available)] == pools
  {
  }

  /** A Disburse in full: each link it was given replaces the one in its own place, a missing one leaves
      it, and the balance stays. */
  lemma DisburseStores(db: Db, actor: Actor, id: Id, payout: Option<Id>, vault: Option<Id>, linksExist: bool)
    requires Legal(db)
    ensures var out := Call(db, Disburse(actor, id, payout, vault, linksExist));
      var fault := DisburseFault(db, actor, id, payout, vault);
      if fault.Some? then out == Outcome(db, Err(fault.value))
      else if (payout != None || vault != None) && !linksExist then out == Outcome(db, Err(Repository))
      else
        var award := db.awards[id];
        out == Outcome(
          db.(
            awards := db.awards[id := Award(award.applicationId, award.decidedBy, award.amount, award.currency,
              Disbursed, Given(payout, award.linkedPayout), Given(vault, award.linkedVault))],
            audits := db.audits + [AwardDisbursed(id)]),
          Ok(id))
  {
    DisburseBegins(db, actor, id, payout, vault, linksExist);
    if DisburseFault(db, actor, id, payout, vault) == None {
      SameBalanceSamePools(db.pools, db.applications[db.awards[id].applicationId].poolId);
    }
  }

  function RevokeFault(db: Db, actor: Actor, id: Id): Option<Error> {
    if actor.role != PlatformAdmin then Some(Forbidden)
    else if id !in db.awards then Some(NotFound)
    else if db.awards[id].status == Approved || db.awards[id].status == Revoked then None
    else Some(Conflict("invalid scholarship award transition"))
  }

  /** A Revoke in full: both links stay, and the amount goes back to the pool, unless that would leave
      i64. */
  lemma RevokeStores(db: Db, actor: Actor, id: Id)
    requires Legal(db)
    ensures var out := Call(db, Revoke(actor, id));
      var fault := RevokeFault(db, actor, id);
      if fault.Some? then out == Outcome(db, Err(fault.value))
      else
        var award := db.awards[id];
        var p := db.applications[award.applicationId].poolId;
        var pool := db.pools[p];
        if pool.available + award.amount > 0x7FFF_FFFF_FFFF_FFFF then out == Outcome(db, Err(Repository))
        else out == Outcome(
               db.(
                 pools := db.pools[p := pool.(available := pool.available + award.amount)],
                 awards := db.awards[id := Award(award.applicationId, award.decidedBy, award.amount, award.currency,
                   Revoked, award.linkedPayout, award.linkedVault)],
                 audits := db.audits + [AwardRevoked(id, p, award.amount)]),
               Ok(id))
  {
  }
}
