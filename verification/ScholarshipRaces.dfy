/** Scholarship calls that overlap on one pool, one application or one award: when the books survive,
    exactly. */
module ScholarshipRaces {
  import opened Wrappers
  import opened Int64
  import opened Money
  import opened Roles
  import opened MapSums
  import opened Scholarships
  import opened ScholarshipEffects
  import opened ScholarshipBalances
  import opened ScholarshipAwards
  import opened ScholarshipOverlaps
  import opened ScholarshipRuns

  // ---------------------------------------------------------------- one commit, whatever came before

  /** A decision keeps its pool's balance explained if and only if the balance it was computed from is
      the balance it overwrites. */
  lemma DecisionKeepsBalanceIff(db: Db, out: Db, id: Id, verdict: ApplicationStatus, newId: Id, award: Award,
    balance: i64)
    requires Legal(db) && FairDecision(id, verdict, award)
      && DecisionWritten(db, out, id, verdict, newId, award, balance)
    requires Balanced(db, db.applications[id].poolId)
    ensures var p := db.applications[id].poolId;
      p in out.pools && (Balanced(out, p) <==> balance + Granted(award) == db.pools[p].available)
  {
    var p := db.applications[id].poolId;
    GrantsFollow(db.awards, db.applications, out.applications, p);
    SumUpdate(db.awards, GrantedIn(out.applications, p), newId, out.awards[newId]);
    RepeatsAppend(db.audits, ApplicationDecided(id, newId), p);
  }

  /** What a Disburse takes out again when it lands on an award that was revoked in between. */
  function Undone(award: Award, target: AwardStatus): int {
    if target == Disbursed && award.status == Revoked then award.amount else 0
  }

  /** The same for an award move; a Disburse that overtakes a revocation also owes what that put back. */
  lemma MoveKeepsBalanceIff(db: Db, out: Db, id: Id, target: AwardStatus, payout: Option<Id>, vault: Option<Id>,
    balance: i64, audit: AuditRow)
    requires Legal(db) && LastingMove(db, id, target, payout, vault)
    requires MoveWritten(db, out, id, target, payout, vault, balance, audit)
    requires RevokedBefore(db.audits, id) <==> IsRevoked(db.awards, id)
    requires var p := db.applications[db.awards[id].applicationId].poolId;
      Balanced(db, p) && audit == MoveAudit(id, p, target, db.awards[id].amount)
    ensures var p := db.applications[db.awards[id].applicationId].poolId;
      var award := db.awards[id];
      && p in out.pools
      && (Balanced(out, p)
          <==> balance - PutBack(target, award.amount) == db.pools[p].available - Undone(award, target))
  {
    var p := db.applications[db.awards[id].applicationId].poolId;
    SumUpdate(db.awards, GrantedIn(db.applications, p), id, out.awards[id]);
    RepeatsAppend(db.audits, audit, p);
  }

  /** Other pools do not notice. */
  lemma DecisionKeepsOtherBalances(db: Db, out: Db, id: Id, verdict: ApplicationStatus, newId: Id, award: Award,
    balance: i64, q: Id)
    requires Legal(db) && FairDecision(id, verdict, award)
    requires DecisionWritten(db, out, id, verdict, newId, award, balance)
    requires q in db.pools && q != db.applications[id].poolId && Balanced(db, q)
    ensures q in out.pools && Balanced(out, q)
  {
    GrantsFollow(db.awards, db.applications, out.applications, q);
    SumUpdate(db.awards, GrantedIn(out.applications, q), newId, out.awards[newId]);
    RepeatsAppend(db.audits, ApplicationDecided(id, newId), q);
  }

  lemma DecisionKeepsRevocations(db: Db, out: Db, id: Id, verdict: ApplicationStatus, newId: Id, award: Award,
    balance: i64)
    requires RevocationsAgree(db.awards, db.audits) && RevocationsPlaced(db.pools, db.audits)
    requires FairDecision(id, verdict, award) && DecisionWritten(db, out, id, verdict, newId, award, balance)
    ensures RevocationsAgree(out.awards, out.audits) && RevocationsPlaced(out.pools, out.audits)
  {
    AppendKeepsRevocations(db.awards, out.awards, db.audits, ApplicationDecided(id, newId));
  }

  /** So all balances stay explained exactly when the decision's own pool does. */
  lemma DecisionKeepsPoolsIff(db: Db, out: Db, id: Id, verdict: ApplicationStatus, newId: Id, award: Award,
    balance: i64)
    requires PoolsBalance(db) && FairDecision(id, verdict, award) && LastingDecision(db, id, award)
    requires DecisionWritten(db, out, id, verdict, newId, award, balance)
    ensures var p := db.applications[id].poolId;
      p in out.pools && (PoolsBalance(out) <==> balance + Granted(award) == db.pools[p].available)
  {
    var p := db.applications[id].poolId;
    assert Balanced(db, p);
    DecisionKeepsLegal(db, out, id, verdict, newId, award, balance);
    DecisionKeepsRevocations(db, out, id, verdict, newId, award, balance);
    DecisionKeepsBalanceIff(db, out, id, verdict, newId, award, balance);
    forall q | q in out.pools && q != p
      ensures Balanced(out, q)
    {
      DecisionKeepsOtherBalances(db, out, id, verdict, newId, award, balance, q);
    }
  }

  lemma MoveKeepsOtherBalances(db: Db, out: Db, id: Id, target: AwardStatus, payout: Option<Id>, vault: Option<Id>,
    balance: i64, audit: AuditRow, q: Id)
    requires Legal(db) && MoveWritten(db, out, id, target, payout, vault, balance, audit)
    requires var p := db.applications[db.awards[id].applicationId].poolId;
      q in db.pools && q != p && Balanced(db, q) && audit == MoveAudit(id, p, target, db.awards[id].amount)
    ensures q in out.pools && Balanced(out, q)
  {
    SumUpdate(db.awards, GrantedIn(db.applications, q), id, out.awards[id]);
    RepeatsAppend(db.audits, audit, q);
  }

  /** A Disburse that lands on an award revoked in between. */
  predicate Overtakes(award: Award, target: AwardStatus) {
    target == Disbursed && award.status == Revoked
  }

  /** The log and the awards agree on what is revoked unless such a Disburse undoes a revocation. */
  lemma MoveKeepsRevocationsIff(db: Db, out: Db, id: Id, target: AwardStatus, payout: Option<Id>, vault: Option<Id>,
    balance: i64, audit: AuditRow)
    requires RevocationsAgree(db.awards, db.audits) && LastingMove(db, id, target, payout, vault)
    requires MoveWritten(db, out, id, target, payout, vault, balance, audit)
    requires audit == MoveAudit(id, db.applications[db.awards[id].applicationId].poolId, target, db.awards[id].amount)
    ensures RevocationsAgree(out.awards, out.audits) <==> !Overtakes(db.awards[id], target)
  {
    if Overtakes(db.awards[id], target) {
      RevokedBeforeAppend(db.audits, audit, id);
      assert RevokedBefore(out.audits, id) && !IsRevoked(out.awards, id);
    } else {
      AppendKeepsRevocations(db.awards, out.awards, db.audits, audit);
    }
  }

  lemma MoveKeepsAllOthers(db: Db, out: Db, id: Id, target: AwardStatus, payout: Option<Id>, vault: Option<Id>,
    balance: i64, audit: AuditRow)
    requires PoolsBalance(db) && MoveWritten(db, out, id, target, payout, vault, balance, audit)
    requires audit == MoveAudit(id, db.applications[db.awards[id].applicationId].poolId, target, db.awards[id].amount)
    ensures var p := db.applications[db.awards[id].applicationId].poolId;
      && out.pools.Keys == db.pools.Keys && RevocationsPlaced(out.pools, out.audits)
      && forall q | q in out.pools && q != p :: Balanced(out, q)
  {
    var p := db.applications[db.awards[id].applicationId].poolId;
    forall q | q in out.pools && q != p
      ensures Balanced(out, q)
    {
      MoveKeepsOtherBalances(db, out, id, target, payout, vault, balance, audit, q);
    }
  }

  /** All balances stay explained if and only if the balance that was read is the one overwritten and
      no revocation was overtaken. */
  lemma MoveKeepsPoolsIff(db: Db, out: Db, id: Id, target: AwardStatus, payout: Option<Id>, vault: Option<Id>,
    balance: i64, audit: AuditRow)
    requires PoolsBalance(db) && DisbursedAreLinked(db.awards) && LastingMove(db, id, target, payout, vault)
    requires MoveWritten(db, out, id, target, payout, vault, balance, audit)
    requires audit == MoveAudit(id, db.applications[db.awards[id].applicationId].poolId, target, db.awards[id].amount)
    ensures var p := db.applications[db.awards[id].applicationId].poolId;
      var award := db.awards[id];
      && p in out.pools
      && (PoolsBalance(out)
          <==> balance - PutBack(target, award.amount) == db.pools[p].available && !Overtakes(award, target))
  {
    var p := db.applications[db.awards[id].applicationId].poolId;
    assert Balanced(db, p);
    MoveKeepsLegal(db, out, id, target, payout, vault, balance, audit);
    MoveKeepsRevocationsIff(db, out, id, target, payout, vault, balance, audit);
    MoveKeepsBalanceIff(db, out, id, target, payout, vault, balance, audit);
    MoveKeepsAllOthers(db, out, id, target, payout, vault, balance, audit);
    PoolsBalanceIff(out, p);
  }

  /** When everything else agrees, it is for the one pool and the record of revocations to decide. */
  lemma PoolsBalanceIff(db: Db, p: Id)
    requires p in db.pools && Legal(db) && RevocationsPlaced(db.pools, db.audits)
    requires forall q | q in db.pools && q != p :: Balanced(db, q)
    ensures PoolsBalance(db) <==> Balanced(db, p) && RevocationsAgree(db.awards, db.audits)
  {
  }

  /** However late it comes, an award move cannot part awards from applications. */
  lemma MoveKeepsPairs(db: Db, out: Db, id: Id, target: AwardStatus, payout: Option<Id>, vault: Option<Id>,
    balance: i64, audit: AuditRow)
    requires Paired(db.applications, db.awards) && LastingMove(db, id, target, payout, vault)
    requires MoveWritten(db, out, id, target, payout, vault, balance, audit)
    ensures Paired(out.applications, out.awards)
  {
    assert forall a, b :: AwardFor(out.awards, a, b) <==> AwardFor(db.awards, a, b);
    assert AwardFor(db.awards, id, db.awards[id].applicationId);
  }

  // ---------------------------------------------------------------- a call and everything between its halves

  lemma BegunDecision(db: Db, request: Request)
    requires Legal(db) && request.Decide? && Begin(db, request).Ready?
    ensures request.applicationId in db.applications && db.applications[request.applicationId].poolId in db.pools
    ensures var ticket := Begin(db, request).ticket;
      && ticket.DecideRow? && ticket.id == request.applicationId && ticket.newId == request.newId
      && FairDecision(ticket.id, ticket.verdict, ticket.award)
      && ticket.balance == db.pools[db.applications[ticket.id].poolId].available - Granted(ticket.award)
      && (ticket.award.status == Approved <==> request.approve) && ticket.award.currency == request.currency
      && ticket.verdict == Verdict(ticket.award)
  {
  }

  /** A decision that read its pool and its application at some point of a run, and commits at any
      later point: the balances stay explained if and only if the pool's balance has not moved in
      between, awards stay paired if and only if the application is still open, and all the books
      agree if and only if both hold. */
  lemma RacedDecisionIff(s: Sys, request: Request, events: seq<Event>)
    requires SoundSys(s) && request.Decide? && Begin(s.db, request).Ready?
    requires var db := Run(s, events).db;
      PoolsBalance(db) && Paired(db.applications, db.awards) && Commit(db, Begin(s.db, request).ticket).reply.Ok?
    ensures request.applicationId in s.db.applications
    ensures var db := Run(s, events).db;
      var out := Commit(db, Begin(s.db, request).ticket).db;
      var id := request.applicationId;
      var p := s.db.applications[id].poolId;
      && p in s.db.pools && p in db.pools && id in db.applications
      && (PoolsBalance(out) <==> s.db.pools[p].available == db.pools[p].available)
      && (OneAwardEach(out.awards) <==> Reviewable(db.applications[id].status))
      && (Paired(out.applications, out.awards) <==> Reviewable(db.applications[id].status))
      && (Books(out) <==> s.db.pools[p].available == db.pools[p].available && Reviewable(db.applications[id].status))
  {
    RunsAreSound(s, events);
    BegunDecision(s.db, request);
    BegunIsLasting(s.db, request);
    OvertakenDecisionIff(s.db, Run(s, events).db, Begin(s.db, request).ticket);
  }

  lemma OvertakenDecisionIff(before: Db, db: Db, ticket: Ticket)
    requires Kept(before, db) && Sound(db) && PoolsBalance(db) && Paired(db.applications, db.awards)
    requires ticket.DecideRow? && Lasting(before, ticket) && ticket.verdict == Verdict(ticket.award)
    requires Commit(db, ticket).reply.Ok?
    requires var p := before.applications[ticket.id].poolId;
      ticket.balance == before.pools[p].available - Granted(ticket.award)
    ensures var out := Commit(db, ticket).db;
      var p := before.applications[ticket.id].poolId;
      && p in db.pools && ticket.id in db.applications
      && (PoolsBalance(out) <==> before.pools[p].available == db.pools[p].available)
      && (OneAwardEach(out.awards) <==> Reviewable(db.applications[ticket.id].status))
      && (Paired(out.applications, out.awards) <==> Reviewable(db.applications[ticket.id].status))
      && Sound(out)
  {
    LastingLasts(before, db, ticket);
    CommitKeepsSound(db, ticket);
    CommittedDecisionIff(db, ticket);
  }

  lemma CommittedDecisionIff(db: Db, ticket: Ticket)
    requires PoolsBalance(db) && Paired(db.applications, db.awards) && ticket.DecideRow? && Commit(db, ticket).reply.Ok?
    requires Lasting(db, ticket) && ticket.verdict == Verdict(ticket.award)
    ensures var out := Commit(db, ticket).db;
      var p := db.applications[ticket.id].poolId;
      && p in out.pools
      && (Balanced(out, p) <==> ticket.balance + Granted(ticket.award) == db.pools[p].available)
      && (PoolsBalance(out) <==> ticket.balance + Granted(ticket.award) == db.pools[p].available)
      && (OneAwardEach(out.awards) <==> Reviewable(db.applications[ticket.id].status))
      && (Paired(out.applications, out.awards) <==> Reviewable(db.applications[ticket.id].status))
  {
    var out := Commit(db, ticket).db;
    DecisionIsWritten(db, ticket.id, ticket.verdict, ticket.newId, ticket.award, ticket.balance);
    assert Balanced(db, db.applications[ticket.id].poolId);
    DecisionKeepsBalanceIff(db, out, ticket.id, ticket.verdict, ticket.newId, ticket.award, ticket.balance);
    DecisionKeepsPoolsIff(db, out, ticket.id, ticket.verdict, ticket.newId, ticket.award, ticket.balance);
    DecisionKeepsPairsIff(db.applications, db.awards, ticket.id, ticket.newId, out.awards[ticket.newId]);
  }

  lemma BegunMove(db: Db, request: Request)
    requires Legal(db) && (request.Disburse? || request.Revoke?) && Begin(db, request).Ready?
    ensures request.awardId in db.awards && db.awards[request.awardId].applicationId in db.applications
    ensures var ticket := Begin(db, request).ticket;
      && ticket.MoveAward? && ticket.id == request.awardId
      && ticket.target == (if request.Disburse? then Disbursed else Revoked)
      && var award := db.awards[ticket.id];
      && var p := db.applications[award.applicationId].poolId;
      && p in db.pools
      && (0 <= ticket.balance ==> ticket.balance == db.pools[p].available + PutBack(ticket.target, award.amount))
      && ticket.audit == MoveAudit(ticket.id, p, ticket.target, award.amount)
  {
    BegunIsCurrent(db, request);
  }

  /** A Disburse or a Revoke that commits at any later point: the awards stay paired, and all the books
      agree if and only if the balance has not moved in between and it is not a Disburse that overtakes
      a revocation. In that last case the pool's own balance is explained all the same exactly when it
      has moved by what the revocation put back; it is the log that no longer agrees with the award. */
  lemma RacedMoveIff(s: Sys, request: Request, events: seq<Event>)
    requires SoundSys(s) && (request.Disburse? || request.Revoke?) && Begin(s.db, request).Ready?
    requires var db := Run(s, events).db;
      PoolsBalance(db) && Paired(db.applications, db.awards) && Commit(db, Begin(s.db, request).ticket).reply.Ok?
    ensures request.awardId in s.db.awards && s.db.awards[request.awardId].applicationId in s.db.applications
    ensures var db := Run(s, events).db;
      var out := Commit(db, Begin(s.db, request).ticket).db;
      var id := request.awardId;
      var p := s.db.applications[s.db.awards[id].applicationId].poolId;
      && p in s.db.pools && p in db.pools && p in out.pools && id in db.awards
      && Paired(out.applications, out.awards)
      && (Balanced(out, p) <==> s.db.pools[p].available == db.pools[p].available - Undone(db.awards[id], Goal(request)))
      && (PoolsBalance(out)
          <==> s.db.pools[p].available == db.pools[p].available && !Overtakes(db.awards[id], Goal(request)))
      && (Books(out) <==> s.db.pools[p].available == db.pools[p].available && !Overtakes(db.awards[id], Goal(request)))
  {
    RunsAreSound(s, events);
    OvertakenMoveIff(s.db, Run(s, events).db, request);
  }

  function Goal(request: Request): AwardStatus {
    if request.Disburse? then Disbursed else Revoked
  }

  lemma OvertakenMoveIff(before: Db, db: Db, request: Request)
    requires Sound(before) && (request.Disburse? || request.Revoke?) && Begin(before, request).Ready?
    requires Kept(before, db) && Sound(db) && PoolsBalance(db) && Paired(db.applications, db.awards)
    requires Commit(db, Begin(before, request).ticket).reply.Ok?
    ensures request.awardId in before.awards && before.awards[request.awardId].applicationId in before.applications
    ensures var out := Commit(db, Begin(before, request).ticket).db;
      var id := request.awardId;
      var p := before.applications[before.awards[id].applicationId].poolId;
      && p in before.pools && p in db.pools && p in out.pools && id in db.awards
      && Paired(out.applications, out.awards) && Sound(out)
      && (Balanced(out, p)
          <==> before.pools[p].available == db.pools[p].available - Undone(db.awards[id], Goal(request)))
      && (PoolsBalance(out)
          <==> before.pools[p].available == db.pools[p].available && !Overtakes(db.awards[id], Goal(request)))
  {
    BegunMove(before, request);
    BegunIsLasting(before, request);
    OvertakenTicketIff(before, db, Begin(before, request).ticket);
  }

  lemma OvertakenTicketIff(before: Db, db: Db, ticket: Ticket)
    requires Legal(before) && Kept(before, db) && Sound(db) && PoolsBalance(db) && Paired(db.applications, db.awards)
    requires ticket.MoveAward? && Lasting(before, ticket) && Commit(db, ticket).reply.Ok?
    requires var award := before.awards[ticket.id];
      var p := before.applications[award.applicationId].poolId;
      && (0 <= ticket.balance ==> ticket.balance == before.pools[p].available + PutBack(ticket.target, award.amount))
      && ticket.audit == MoveAudit(ticket.id, p, ticket.target, award.amount)
    ensures ticket.id in db.awards
    ensures var out := Commit(db, ticket).db;
      var p := before.applications[before.awards[ticket.id].applicationId].poolId;
      var award := db.awards[ticket.id];
      && p in db.pools && p in out.pools && Paired(out.applications, out.awards) && Sound(out)
      && (Balanced(out, p) <==> before.pools[p].available == db.pools[p].available - Undone(award, ticket.target))
      && (PoolsBalance(out)
          <==> before.pools[p].available == db.pools[p].available && !Overtakes(award, ticket.target))
  {
    LastingLasts(before, db, ticket);
    MoveStaysPlaced(before, db, ticket.id);
    CommitKeepsSound(db, ticket);
    CommittedMoveIff(db, ticket);
  }

  lemma MoveStaysPlaced(before: Db, db: Db, id: Id)
    requires Legal(before) && Kept(before, db) && id in before.awards
    ensures id in db.awards && db.awards[id].applicationId == before.awards[id].applicationId
    ensures db.awards[id].amount == before.awards[id].amount
    ensures before.awards[id].applicationId in db.applications
    ensures db.applications[before.awards[id].applicationId].poolId
      == before.applications[before.awards[id].applicationId].poolId
  {
  }

  lemma CommittedMoveIff(db: Db, ticket: Ticket)
    requires PoolsBalance(db) && Paired(db.applications, db.awards)
    requires ticket.MoveAward? && Lasting(db, ticket) && Commit(db, ticket).reply.Ok?
    requires var p := db.applications[db.awards[ticket.id].applicationId].poolId;
      ticket.audit == MoveAudit(ticket.id, p, ticket.target, db.awards[ticket.id].amount)
    ensures var out := Commit(db, ticket).db;
      var award := db.awards[ticket.id];
      var p := db.applications[award.applicationId].poolId;
      && p in db.pools && p in out.pools && 0 <= ticket.balance && Paired(out.applications, out.awards)
      && var read := ticket.balance - PutBack(ticket.target, award.amount);
      && (Balanced(out, p) <==> read == db.pools[p].available - Undone(award, ticket.target))
      && (PoolsBalance(out) <==> read == db.pools[p].available && !Overtakes(award, ticket.target))
  {
    MoveIsWritten(db, ticket.id, ticket.target, ticket.payout, ticket.vault, ticket.linksExist, ticket.balance,
      ticket.audit);
    WrittenMoveIff(db, Commit(db, ticket).db, ticket);
  }

  lemma WrittenMoveIff(db: Db, out: Db, ticket: Ticket)
    requires PoolsBalance(db) && Paired(db.applications, db.awards)
    requires ticket.MoveAward? && Lasting(db, ticket) && Written(db, out, ticket)
    requires var p := db.applications[db.awards[ticket.id].applicationId].poolId;
      ticket.audit == MoveAudit(ticket.id, p, ticket.target, db.awards[ticket.id].amount)
    ensures var award := db.awards[ticket.id];
      var p := db.applications[award.applicationId].poolId;
      && p in db.pools && p in out.pools && 0 <= ticket.balance && Paired(out.applications, out.awards)
      && var read := ticket.balance - PutBack(ticket.target, award.amount);
      && (Balanced(out, p) <==> read == db.pools[p].available - Undone(award, ticket.target))
      && (PoolsBalance(out) <==> read == db.pools[p].available && !Overtakes(award, ticket.target))
  {
    var payout, vault, balance, audit := ticket.payout, ticket.vault, ticket.balance, ticket.audit;
    assert Balanced(db, db.applications[db.awards[ticket.id].applicationId].poolId);
    MoveKeepsBalanceIff(db, out, ticket.id, ticket.target, payout, vault, balance, audit);
    MoveKeepsPoolsIff(db, out, ticket.id, ticket.target, payout, vault, balance, audit);
    MoveKeepsPairs(db, out, ticket.id, ticket.target, payout, vault, balance, audit);
  }

  // ---------------------------------------------------------------- three races

  lemma DecidedKeeps(db: Db, out: Db, ticket: Ticket)
    requires ticket.DecideRow? && Effect(db, out, ticket)
    ensures Kept(db, out) && AwardFor(out.awards, ticket.newId, ticket.id)
    ensures ticket.id in db.applications && out.awards == db.awards[ticket.newId := out.awards[ticket.newId]]
    ensures var p := db.applications[ticket.id].poolId;
      p in db.pools && p in out.pools
      && out.pools[p].available == db.pools[p].available - Granted(out.awards[ticket.newId])
  {
  }

  lemma BegunDecisionLasts(db: Db, request: Request)
    requires Legal(db) && request.Decide? && Begin(db, request).Ready?
    ensures Lasting(db, Begin(db, request).ticket)
  {
    BegunDecision(db, request);
    BegunIsCurrent(db, request);
  }

  /** A decision that nothing overtook keeps the books. */
  lemma FirstDecision(db: Db, ticket: Ticket)
    requires PoolsBalance(db) && Paired(db.applications, db.awards) && ticket.DecideRow? && Current(db, ticket)
    requires Commit(db, ticket).reply.Ok?
    ensures var out := Commit(db, ticket).db;
      && Effect(db, out, ticket) && PoolsBalance(out) && Paired(out.applications, out.awards)
      && ticket.newId in out.awards && out.awards[ticket.newId].status == ticket.award.status
      && out.awards[ticket.newId].amount == ticket.award.amount
  {
    CommitIsExact(db, ticket);
    EffectKeepsBalances(db, Commit(db, ticket).db, ticket);
    EffectKeepsPairs(db, Commit(db, ticket).db, ticket);
    DecisionIsWritten(db, ticket.id, ticket.verdict, ticket.newId, ticket.award, ticket.balance);
  }

  /** Decisions of two applications of one pool, both begun before either commits: the first deduction
      is lost, so the balance stays explained if and only if the first was a rejection. */
  lemma OverlappingDecisionsLoseTheFirst(db: Db, d: Request, e: Request)
    requires PoolsBalance(db) && Paired(db.applications, db.awards)
    requires d.Decide? && e.Decide? && Begin(db, d).Ready? && Begin(db, e).Ready?
    requires d.applicationId != e.applicationId
    requires PoolOfApplication(db.applications, d.applicationId) == PoolOfApplication(db.applications, e.applicationId)
    requires var first := Commit(db, Begin(db, d).ticket);
      first.reply.Ok? && Commit(first.db, Begin(db, e).ticket).reply.Ok?
    ensures var out := Commit(Commit(db, Begin(db, d).ticket).db, Begin(db, e).ticket).db;
      && d.applicationId in db.applications
      && var p := db.applications[d.applicationId].poolId;
      && p in out.pools && (Balanced(out, p) <==> !d.approve)
  {
    BegunDecision(db, d);
    BegunDecision(db, e);
    BegunIsCurrent(db, d);
    var middle := Commit(db, Begin(db, d).ticket).db;
    FirstDecision(db, Begin(db, d).ticket);
    DecidedKeeps(db, middle, Begin(db, d).ticket);
    BegunDecisionLasts(db, e);
    LastingLasts(db, middle, Begin(db, e).ticket);
    CommittedDecisionIff(middle, Begin(db, e).ticket);
  }

  /** One application decided twice, both calls begun before either commits: both are accepted, and it
      is left with two awards. */
  lemma SameApplicationDecidedTwice(db: Db, d: Request, e: Request)
    requires PoolsBalance(db) && Paired(db.applications, db.awards)
    requires d.Decide? && e.Decide? && Begin(db, d).Ready? && Begin(db, e).Ready?
    requires d.applicationId == e.applicationId && d.newId != e.newId && e.newId !in db.awards
    requires Parse(e.currency.AsStr()).Some? && Commit(db, Begin(db, d).ticket).reply.Ok?
    ensures var second := Commit(Commit(db, Begin(db, d).ticket).db, Begin(db, e).ticket);
      && second.reply == Ok(e.newId)
      && AwardFor(second.db.awards, d.newId, d.applicationId) && AwardFor(second.db.awards, e.newId, d.applicationId)
      && !OneAwardEach(second.db.awards)
  {
    BegunDecision(db, d);
    BegunDecision(db, e);
    BegunIsCurrent(db, d);
    TwoAwards(db, Begin(db, d).ticket, Begin(db, e).ticket);
  }

  lemma TwoAwards(db: Db, first: Ticket, second: Ticket)
    requires PoolsBalance(db) && Paired(db.applications, db.awards)
    requires first.DecideRow? && second.DecideRow? && first.id == second.id && first.newId != second.newId
    requires Current(db, first) && FairDecision(second.id, second.verdict, second.award)
    requires second.newId !in db.awards && 0 <= second.balance && Parse(second.award.currency.AsStr()).Some?
    requires Commit(db, first).reply.Ok?
    ensures var out := Commit(Commit(db, first).db, second);
      && out.reply == Ok(second.newId)
      && AwardFor(out.db.awards, first.newId, first.id) && AwardFor(out.db.awards, second.newId, first.id)
      && !OneAwardEach(out.db.awards)
  {
    FirstDecision(db, first);
    DecidedKeeps(db, Commit(db, first).db, first);
    SecondAward(Commit(db, first).db, first.newId, second);
  }

  lemma SecondAward(db: Db, a: Id, ticket: Ticket)
    requires Legal(db) && ticket.DecideRow? && FairDecision(ticket.id, ticket.verdict, ticket.award)
    requires AwardFor(db.awards, a, ticket.id) && ticket.newId !in db.awards && ticket.newId != a
    requires 0 <= ticket.balance && Parse(ticket.award.currency.AsStr()).Some?
    ensures var second := Commit(db, ticket);
      && second.reply == Ok(ticket.newId)
      && AwardFor(second.db.awards, a, ticket.id) && AwardFor(second.db.awards, ticket.newId, ticket.id)
      && !OneAwardEach(second.db.awards)
  {
    DecidesAnyway(db, ticket);
    DecisionIsWritten(db, ticket.id, ticket.verdict, ticket.newId, ticket.award, ticket.balance);
    var awards := Commit(db, ticket).db.awards;
    assert AwardFor(awards, a, ticket.id) && AwardFor(awards, ticket.newId, ticket.id);
  }

  /** The transaction looks neither at the application's status nor at the balance that was read. */
  lemma DecidesAnyway(db: Db, ticket: Ticket)
    requires ticket.DecideRow? && ticket.id in db.applications && db.applications[ticket.id].poolId in db.pools
    requires ticket.newId !in db.awards && 0 <= ticket.balance && 0 <= ticket.award.amount
    requires Parse(ticket.award.currency.AsStr()).Some?
    ensures Commit(db, ticket).reply == Ok(ticket.newId)
  {
  }

  /** A donation that commits between the two halves of a decision is accepted and then wiped out: the
      pool ends short by exactly its amount. */
  lemma OverlappingDonationIsLost(db: Db, d: Request, f: Request)
    requires PoolsBalance(db) && Paired(db.applications, db.awards)
    requires d.Decide? && f.FundPool? && Begin(db, d).Ready?
    requires PoolOfApplication(db.applications, d.applicationId) == Some(f.poolId)
    requires Call(db, f).reply.Ok? && Commit(Call(db, f).db, Begin(db, d).ticket).reply.Ok?
    ensures var out := Commit(Call(db, f).db, Begin(db, d).ticket).db;
      && f.poolId in out.pools && !Balanced(out, f.poolId)
      && out.pools[f.poolId].available == Expected(out, f.poolId) + Repeats(out.audits, f.poolId) - f.amount
  {
    var middle := Call(db, f).db;
    var ticket := Begin(db, d).ticket;
    BegunDecision(db, d);
    DonationLands(db, f);
    BegunDecisionLasts(db, d);
    LastingLasts(db, middle, ticket);
    CommittedDecisionIff(middle, ticket);
    DecisionIsWritten(middle, ticket.id, ticket.verdict, ticket.newId, ticket.award, ticket.balance);
    ShortBy(middle, Commit(middle, ticket).db, ticket, f.poolId);
  }

  lemma DonationLands(db: Db, f: Request)
    requires PoolsBalance(db) && f.FundPool? && Call(db, f).reply.Ok?
    ensures var out := Call(db, f).db;
      && PoolsBalance(out) && out.applications == db.applications && out.awards == db.awards
      && f.poolId in db.pools && f.poolId in out.pools && 0 < f.amount && Kept(db, out)
      && out.pools[f.poolId].available == db.pools[f.poolId].available + f.amount
  {
    var ticket := Begin(db, f).ticket;
    assert ticket.AddDonation? && ticket.donation.poolId == f.poolId && ticket.donation.amount == f.amount;
    BegunIsCurrent(db, f);
    CommitIsExact(db, ticket);
    EffectKeepsBalances(db, Commit(db, ticket).db, ticket);
    DonationKeepsAmount(db, ticket.newId, ticket.donation);
    FundedKeeps(db, Commit(db, ticket).db, f.poolId, ticket.newId);
  }

  lemma FundedKeeps(db: Db, out: Db, p: Id, newId: Id)
    requires Funded(db, out, p, newId)
    ensures Kept(db, out) && out.applications == db.applications && out.awards == db.awards
    ensures p in db.pools && out.pools[p].available == db.pools[p].available + out.donations[newId].amount
  {
  }

  lemma DonationKeepsAmount(db: Db, newId: Id, row: Donation)
    requires FundTx(db, newId, row).reply.Ok?
    ensures newId in FundTx(db, newId, row).db.donations
      && FundTx(db, newId, row).db.donations[newId].amount == row.amount
  {
  }

  lemma ShortBy(db: Db, out: Db, ticket: Ticket, p: Id)
    requires Legal(db) && p in db.pools && Balanced(db, p) && ticket.DecideRow?
    requires FairDecision(ticket.id, ticket.verdict, ticket.award)
      && PoolOfApplication(db.applications, ticket.id) == Some(p)
    requires Written(db, out, ticket)
    ensures p in out.pools
    ensures out.pools[p].available - Expected(out, p) - Repeats(out.audits, p)
      == ticket.balance + Granted(ticket.award) - db.pools[p].available
  {
    GrantsFollow(db.awards, db.applications, out.applications, p);
    SumUpdate(db.awards, GrantedIn(out.applications, p), ticket.newId, out.awards[ticket.newId]);
    RepeatsAppend(db.audits, ApplicationDecided(ticket.id, ticket.newId), p);
  }

  /** A Disburse begun before a Revoke of its award and committed after it: the pool's balance is
      explained, the award is Disbursed, and the log still says that it was revoked. */
  lemma DisburseOvertakesRevocation(db: Db, d: Request, r: Request)
    requires Books(db) && d.Disburse? && r.Revoke? && d.awardId == r.awardId
    requires Begin(db, d).Ready? && Call(db, r).reply.Ok?
    requires Commit(Call(db, r).db, Begin(db, d).ticket).reply.Ok?
    ensures var out := Commit(Call(db, r).db, Begin(db, d).ticket).db;
      && d.awardId in db.awards && db.awards[d.awardId].applicationId in db.applications
      && var p := db.applications[db.awards[d.awardId].applicationId].poolId;
      && p in out.pools && Balanced(out, p) && !PoolsBalance(out)
  {
    var middle := Call(db, r).db;
    BegunMove(db, d);
    BegunMove(db, r);
    CallKeepsBooks(db, r);
    RevocationLands(db, r);
    BooksAreSound(db);
    BooksAreSound(middle);
    OvertakenMoveIff(db, middle, d);
  }

  lemma BooksAreSound(db: Db)
    requires Books(db)
    ensures Sound(db)
  {
  }

  lemma RevocationLands(db: Db, r: Request)
    requires Legal(db) && r.Revoke? && Call(db, r).reply.Ok?
    ensures var out := Call(db, r).db;
      && Kept(db, out) && r.awardId in db.awards && db.awards[r.awardId].applicationId in db.applications
      && var award := db.awards[r.awardId];
      && var p := db.applications[award.applicationId].poolId;
      && p in db.pools && p in out.pools && out.pools[p].available == db.pools[p].available + award.amount
      && r.awardId in out.awards && out.awards[r.awardId] == award.(status := Revoked)
  {
    BegunMove(db, r);
    BegunIsCurrent(db, r);
    CommitIsExact(db, Begin(db, r).ticket);
    MovedKeeps(db, Call(db, r).db, r.awardId);
    RevocationKeepsLinks(db, r);
  }

  lemma MovedKeeps(db: Db, out: Db, id: Id)
    requires AwardMoved(db, out, id)
    ensures Kept(db, out)
  {
  }

  lemma RevocationKeepsLinks(db: Db, r: Request)
    requires r.Revoke? && Call(db, r).reply.Ok?
    ensures r.awardId in db.awards && r.awardId in Call(db, r).db.awards
    ensures Call(db, r).db.awards[r.awardId] == db.awards[r.awardId].(status := Revoked)
  {
  }
}
