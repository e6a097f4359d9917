/** The scholarship tables as mutable state: the workflow repository's transactions, statement by
    statement, and the services that call them. Each method does exactly what the model says. */
module ScholarshipStore {
  import opened Wrappers
  import opened Int64
  import opened Money
  import opened Roles
  import opened Text
  import opened Scholarships
  import opened ScholarshipRuns

  class Store {
    var pools: map<Id, Pool>
    var applications: map<Id, Application>
    var awards: map<Id, Award>
    var donations: map<Id, Donation>
    var audits: seq<AuditRow>
    ghost var history: seq<Action>

    function State(): Db
      reads this
    {
      Db(pools, applications, awards, donations, audits)
    }

    /** The tables are where their history of calls leads from empty tables. */
    ghost predicate Valid()
      reads this
    {
      State() == Play(EMPTY, history)
    }

    constructor ()
      ensures Valid() && history == []
    {
      pools, applications, awards, donations, audits := map[], map[], map[], map[], [];
      history := [];
    }

    /** So all the books agree: balances, pairs, restrictions, currencies and keys. */
    lemma ValidKeepsBooks()
      requires Valid()
      ensures Books(State())
    {
      PlayKeepsBooks(history);
    }

    /** A call goes on record as it starts. */
    ghost method Note(request: Request)
      requires Valid()
      modifies this`history
      ensures history == old(history) + [Called(request)]
      ensures Play(EMPTY, history) == Call(State(), request).db
    {
      history := history + [Called(request)];
      assert history[..|history| - 1] == old(history);
    }

    /** ROLLBACK: the transaction's writes are undone. */
    method Rollback(saved: Db)
      modifies this
      ensures history == old(history)
      ensures State() == saved
    {
      pools, applications, awards := saved.pools, saved.applications, saved.awards;
      donations, audits := saved.donations, saved.audits;
    }

    /** UPDATE scholarship_pools; a violated CHECK changes nothing and reports failure. */
    method UpdatePool(poolId: Id, available: i64) returns (ok: bool)
      requires poolId in pools
      modifies this`pools
      ensures ok == (0 <= available)
      ensures pools == if ok then old(pools)[poolId := old(pools)[poolId].(available := available)] else old(pools)
    {
      ok := 0 <= available;
      if ok { pools := pools[poolId := pools[poolId].(available := available)]; }
    }

    method CreatePoolWithAudit(newId: Id, pool: Pool, schoolExists: bool) returns (reply: Result<Id, Error>)
      modifies this
      ensures history == old(history)
      ensures Outcome(State(), reply) == InsertPoolTx(old(State()), newId, pool, schoolExists)
    {
      if newId in pools { return Err(Conflict("duplicate key")); }
      if pool.restrictions.school != None && !schoolExists { return Err(Repository); }
      var stored := Parse(pool.currency.AsStr());
      if stored == None { return Err(Repository); }
      pools := pools[newId := pool.(currency := stored.value)];
      audits := audits + [PoolCreated(newId)];
      return Ok(newId);
    }

    method CreateApplicationWithAudit(newId: Id, row: Application, schoolExists: bool)
      returns (reply: Result<Id, Error>)
      modifies this
      ensures history == old(history)
      ensures Outcome(State(), reply) == InsertApplicationTx(old(State()), newId, row, schoolExists)
    {
      if newId in applications { return Err(Conflict("duplicate key")); }
      if row.poolId !in pools || (row.answers.school != None && !schoolExists) { return Err(Repository); }
      applications := applications[newId := row];
      audits := audits + [ApplicationSubmitted(newId)];
      return Ok(newId);
    }

    method FundPoolWithAudit(newId: Id, row: Donation) returns (reply: Result<Id, Error>)
      modifies this
      ensures history == old(history)
      ensures Outcome(State(), reply) == FundTx(old(State()), newId, row)
    {
      var saved := State();
      if row.poolId !in pools { return Err(NotFound); }
      var ok := UpdatePool(row.poolId, Wrap(pools[row.poolId].available + row.amount));
      if !ok { return Err(Repository); }
      if newId in donations || exists other | other in donations :: donations[other].key == row.key {
        Rollback(saved);
        return Err(Conflict("duplicate key"));
      }
      var stored := Parse(row.currency.AsStr());
      if stored == None || row.amount <= 0 {
        Rollback(saved);
        return Err(Repository);
      }
      donations := donations[newId := row.(currency := stored.value)];
      audits := audits + [PoolFunded(row.poolId)];
      return Ok(newId);
    }

    method DecideApplicationWithAudit(id: Id, verdict: ApplicationStatus, newId: Id, award: Award, balance: i64)
      returns (reply: Result<Id, Error>)
      modifies this
      ensures history == old(history)
      ensures Outcome(State(), reply) == DecideTx(old(State()), id, verdict, newId, award, balance)
    {
      var saved := State();
      if id !in applications { return Err(Repository); }
      applications := applications[id := applications[id].(status := verdict)];
      var poolId := applications[id].poolId;
      if poolId !in pools {
        Rollback(saved);
        return Err(Repository);
      }
      var ok := UpdatePool(poolId, balance);
      if !ok {
        Rollback(saved);
        return Err(Repository);
      }
      if newId in awards {
        Rollback(saved);
        return Err(Conflict("duplicate key"));
      }
      var stored := Parse(award.currency.AsStr());
      if stored == None || award.amount < 0 {
        Rollback(saved);
        return Err(Repository);
      }
      awards := awards[newId := award.(currency := stored.value)];
      audits := audits + [ApplicationDecided(id, newId)];
      return Ok(newId);
    }

    method TransitionAwardWithAudit(id: Id, target: AwardStatus, payout: Option<Id>, vault: Option<Id>,
      linksExist: bool, balance: i64, audit: AuditRow) returns (reply: Result<Id, Error>)
      modifies this
      ensures history == old(history)
      ensures Outcome(State(), reply) == AwardTx(old(State()), id, target, payout, vault, linksExist, balance, audit)
    {
      var saved := State();
      if id !in awards || ((payout != None || vault != None) && !linksExist) { return Err(Repository); }
      var award := awards[id];
      award := award.(
        status := target,
        linkedPayout := Coalesce(payout, award.linkedPayout),
        linkedVault := Coalesce(vault, award.linkedVault));
      awards := awards[id := award];
      if award.applicationId !in applications || applications[award.applicationId].poolId !in pools {
        Rollback(saved);
        return Err(Repository);
      }
      var ok := UpdatePool(applications[award.applicationId].poolId, balance);
      if !ok {
        Rollback(saved);
        return Err(Repository);
      }
      audits := audits + [audit];
      return Ok(id);
    }
  }

  // ---------------------------------------------------------------- services: each keeps the books

  method CreateScholarshipPool(store: Store, actor: Actor, name: string, currency: Currency, wanted: Restrictions,
    schoolExists: bool, newId: Id) returns (reply: Result<Id, Error>)
    requires store.Valid()
    modifies store
    ensures store.Valid()
      && store.history == old(store.history) + [Called(CreatePool(actor, name, currency, wanted, schoolExists, newId))]
    ensures Outcome(store.State(), reply)
      == Call(old(store.State()), CreatePool(actor, name, currency, wanted, schoolExists, newId))
  {
    store.Note(CreatePool(actor, name, currency, wanted, schoolExists, newId));
    if actor.role != Donor && actor.role != PlatformAdmin { return Err(Forbidden); }
    if Trim(name) == "" { return Err(Validation); }
    var pool := Pool(actor.userId, Open, 0, currency, Stored(wanted));
    reply := store.CreatePoolWithAudit(newId, pool, schoolExists);
  }

  method FundScholarshipPool(store: Store, actor: Actor, poolId: Id, amount: i64, currency: Currency, key: string,
    newId: Id)
    returns (reply: Result<Id, Error>)
    requires store.Valid()
    modifies store
    ensures store.Valid()
      && store.history == old(store.history) + [Called(FundPool(actor, poolId, amount, currency, key, newId))]
    ensures Outcome(store.State(), reply)
      == Call(old(store.State()), FundPool(actor, poolId, amount, currency, key, newId))
  {
    store.Note(FundPool(actor, poolId, amount, currency, key, newId));
    if actor.role != Donor && actor.role != PlatformAdmin { return Err(Forbidden); }
    if amount <= 0 { return Err(Validation); }
    if poolId !in store.pools { return Err(NotFound); }
    var pool := store.pools[poolId];
    if pool.status != Open { return Err(Conflict("scholarship pool is not open")); }
    if pool.currency.AsStr() != currency.AsStr() { return Err(Validation); }
    reply := store.FundPoolWithAudit(newId, Donation(poolId, actor.userId, amount, currency, key));
  }

  method CreateScholarshipApplication(store: Store, actor: Actor, poolId: Id, child: Option<Child>,
    input: Restrictions, schoolExists: bool, newId: Id) returns (reply: Result<Id, Error>)
    requires store.Valid()
    modifies store
    ensures store.Valid()
      && store.history == old(store.history) + [Called(Apply(actor, poolId, child, input, schoolExists, newId))]
    ensures Outcome(store.State(), reply)
      == Call(old(store.State()), Apply(actor, poolId, child, input, schoolExists, newId))
  {
    store.Note(Apply(actor, poolId, child, input, schoolExists, newId));
    if actor.role != Parent && actor.role != Student { return Err(Forbidden); }
    if poolId !in store.pools { return Err(NotFound); }
    var pool := store.pools[poolId];
    if pool.status != Open { return Err(Conflict("scholarship pool is not open")); }
    if child == None { return Err(NotFound); }
    if actor.role != Student && child.value.owner != actor.userId { return Err(Forbidden); }
    var answers := input.(level := Coalesce(input.level, child.value.level));
    if !SatisfiesPool(pool.restrictions, answers) { return Err(Validation); }
    var row := Application(poolId, actor.userId, Stored(answers), Submitted);
    reply := store.CreateApplicationWithAudit(newId, row, schoolExists);
  }

  lemma ApprovalBegins(db: Db, actor: Actor, id: Id, amount: i64, currency: Currency, newId: Id)
    requires actor.role == PlatformAdmin && 0 < amount
    requires id in db.applications && Reviewable(db.applications[id].status) && db.applications[id].poolId in db.pools
    requires var pool := db.pools[db.applications[id].poolId];
      pool.currency.AsStr() == currency.AsStr() && amount <= pool.available
    ensures var pool := db.pools[db.applications[id].poolId];
      var award := Award(id, actor.userId, amount, currency, Approved, None, None);
      Call(db, Decide(actor, id, true, amount, currency, newId))
        == DecideTx(db, id, Accepted, newId, award, Wrap(pool.available - amount))
  {
  }

  method ApproveApplication(store: Store, actor: Actor, id: Id, amount: i64, currency: Currency, newId: Id)
    returns (reply: Result<Id, Error>)
    requires store.Valid()
    modifies store
    ensures store.Valid()
      && store.history == old(store.history) + [Called(Decide(actor, id, true, amount, currency, newId))]
    ensures Outcome(store.State(), reply) == Call(old(store.State()), Decide(actor, id, true, amount, currency, newId))
  {
    store.Note(Decide(actor, id, true, amount, currency, newId));
    if actor.role != PlatformAdmin { return Err(Forbidden); }
    if amount <= 0 { return Err(Validation); }
    if id !in store.applications { return Err(NotFound); }
    var application := store.applications[id];
    if !Reviewable(application.status) { return Err(Conflict("invalid scholarship award transition")); }
    if application.poolId !in store.pools { return Err(NotFound); }
    var pool := store.pools[application.poolId];
    if pool.currency.AsStr() != currency.AsStr() { return Err(Validation); }
    if pool.available < amount { return Err(Conflict("award amount exceeds available scholarship pool balance")); }
    ApprovalBegins(store.State(), actor, id, amount, currency, newId);
    var award := Award(id, actor.userId, amount, currency, Approved, None, None);
    reply := store.DecideApplicationWithAudit(id, Accepted, newId, award, Wrap(pool.available - amount));
  }

  method RejectApplication(store: Store, actor: Actor, id: Id, amount: i64, currency: Currency, newId: Id)
    returns (reply: Result<Id, Error>)
    requires store.Valid()
    modifies store
    ensures store.Valid()
      && store.history == old(store.history) + [Called(Decide(actor, id, false, amount, currency, newId))]
    ensures Outcome(store.State(), reply) == Call(old(store.State()), Decide(actor, id, false, amount, currency, newId))
  {
    store.Note(Decide(actor, id, false, amount, currency, newId));
    if actor.role != PlatformAdmin { return Err(Forbidden); }
    if id !in store.applications { return Err(NotFound); }
    var application := store.applications[id];
    if !Reviewable(application.status) { return Err(Conflict("invalid scholarship award transition")); }
    if application.poolId !in store.pools { return Err(NotFound); }
    var pool := store.pools[application.poolId];
    if amount < 0 { return Err(Validation); }
    var award := Award(id, actor.userId, amount, currency, Rejected, None, None);
    reply := store.DecideApplicationWithAudit(id, Declined, newId, award, pool.available);
  }

  method DisburseAward(store: Store, actor: Actor, id: Id, payout: Option<Id>, vault: Option<Id>, linksExist: bool)
    returns (reply: Result<Id, Error>)
    requires store.Valid()
    modifies store
    ensures store.Valid()
      && store.history == old(store.history) + [Called(Disburse(actor, id, payout, vault, linksExist))]
    ensures Outcome(store.State(), reply) == Call(old(store.State()), Disburse(actor, id, payout, vault, linksExist))
  {
    store.Note(Disburse(actor, id, payout, vault, linksExist));
    if actor.role != PlatformAdmin { return Err(Forbidden); }
    if id !in store.awards { return Err(NotFound); }
    var award := store.awards[id];
    var target := ValidateAward(award.status, ToDisbursed, payout.Some? || vault.Some?);
    if target.Err? { return Err(target.error); }
    if award.applicationId !in store.applications { return Err(NotFound); }
    var poolId := store.applications[award.applicationId].poolId;
    if poolId !in store.pools { return Err(NotFound); }
    var balance := store.pools[poolId].available;
    reply := store.TransitionAwardWithAudit(id, target.value, payout, vault, linksExist, balance, AwardDisbursed(id));
  }

  method RevokeAward(store: Store, actor: Actor, id: Id) returns (reply: Result<Id, Error>)
    requires store.Valid()
    modifies store
    ensures store.Valid() && store.history == old(store.history) + [Called(Revoke(actor, id))]
    ensures Outcome(store.State(), reply) == Call(old(store.State()), Revoke(actor, id))
  {
    store.Note(Revoke(actor, id));
    if actor.role != PlatformAdmin { return Err(Forbidden); }
    if id !in store.awards { return Err(NotFound); }
    var award := store.awards[id];
    var target := ValidateAward(award.status, ToRevoked, false);
    if target.Err? { return Err(target.error); }
    if award.applicationId !in store.applications { return Err(NotFound); }
    var poolId := store.applications[award.applicationId].poolId;
    if poolId !in store.pools { return Err(NotFound); }
    var restored := Wrap(store.pools[poolId].available + award.amount);
    reply := store.TransitionAwardWithAudit(id, target.value, award.linkedPayout, award.linkedVault, true, restored,
      AwardRevoked(id, poolId, award.amount));
  }
}
