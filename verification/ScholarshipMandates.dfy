/** Who called for the scholarship rows and links on record, in every interleaving. */
module ScholarshipMandates {
  import opened Wrappers
  import opened Int64
  import opened Roles
  import opened Scholarships

  /** What somebody has to have called for. */
  datatype Mandate =
    | ToCreate(poolId: Id, owner: Id)
    | ToFund(donationId: Id, poolId: Id, donor: Id, amount: i64, key: string)
    | ToApply(applicationId: Id, poolId: Id, applicant: Id)
    | ToDecide(awardId: Id, applicationId: Id, decidedBy: Id, amount: i64, approve: bool)
    | ToDisburse(awardId: Id)
    | ToLinkPayout(awardId: Id, payout: Id)
    | ToLinkVault(awardId: Id, vault: Id)
    | ToRevoke(awardId: Id)

  /** A call by somebody entitled that asks for exactly this. */
  predicate Asks(request: Request, mandate: Mandate) {
    match mandate
    case ToCreate(p, owner) =>
      && request.CreatePool? && request.newId == p && request.actor.userId == owner
      && (request.actor.role == Donor || request.actor.role == PlatformAdmin)
    case ToFund(id, p, donor, amount, key) =>
      && request.FundPool? && request.newId == id && request.poolId == p && request.actor.userId == donor
      && request.amount == amount && request.key == key && 0 < amount
      && (request.actor.role == Donor || request.actor.role == PlatformAdmin)
    case ToApply(id, p, applicant) =>
      && request.Apply? && request.newId == id && request.poolId == p && request.actor.userId == applicant
      && (request.actor.role == Parent || request.actor.role == Student)
    case ToDecide(id, application, decidedBy, amount, approve) =>
      && request.Decide? && request.newId == id && request.applicationId == application && request.amount == amount
      && request.approve == approve && request.actor == Actor(decidedBy, PlatformAdmin)
    case ToDisburse(id) => request.Disburse? && request.awardId == id && request.actor.role == PlatformAdmin
    case ToLinkPayout(id, payout) =>
      && request.Disburse? && request.awardId == id && request.payout == Some(payout)
      && request.actor.role == PlatformAdmin
    case ToLinkVault(id, vault) =>
      && request.Disburse? && request.awardId == id && request.vault == Some(vault)
      && request.actor.role == PlatformAdmin
    case ToRevoke(id) => request.Revoke? && request.awardId == id && request.actor.role == PlatformAdmin
  }

  predicate IsCallFor(event: Event, mandate: Mandate) {
    event.Started? && Asks(event.request, mandate)
  }

  ghost predicate Mandated(events: seq<Event>, mandate: Mandate) {
    exists n | 0 <= n < |events| :: IsCallFor(events[n], mandate)
  }

  /** The later history keeps what the earlier one mandates. */
  ghost predicate Carries(earlier: seq<Event>, events: seq<Event>) {
    forall mandate | Mandated(earlier, mandate) :: Mandated(events, mandate)
  }

  lemma LongerCarries(earlier: seq<Event>, event: Event)
    ensures Carries(earlier, earlier + [event])
  {
    forall mandate | Mandated(earlier, mandate)
      ensures Mandated(earlier + [event], mandate)
    {
      var n :| 0 <= n < |earlier| && IsCallFor(earlier[n], mandate);
      assert IsCallFor((earlier + [event])[n], mandate);
    }
  }

  // ---------------------------------------------------------------- rows and tickets

  ghost predicate LinksMandated(events: seq<Event>, id: Id, payout: Option<Id>, vault: Option<Id>) {
    && (payout.Some? ==> Mandated(events, ToLinkPayout(id, payout.value)))
    && (vault.Some? ==> Mandated(events, ToLinkVault(id, vault.value)))
  }

  /** The award was decided, linked and moved by administrators who asked for just that. */
  ghost predicate AwardMandated(events: seq<Event>, id: Id, award: Award) {
    && (exists approve ::
          && Mandated(events, ToDecide(id, award.applicationId, award.decidedBy, award.amount, approve))
          && (award.status == Approved ==> approve) && (award.status == Rejected ==> !approve))
    && LinksMandated(events, id, award.linkedPayout, award.linkedVault)
    && (award.status == Disbursed ==> Mandated(events, ToDisburse(id)))
    && (award.status == Revoked ==> Mandated(events, ToRevoke(id)))
  }

  ghost predicate PoolMandated(events: seq<Event>, id: Id, pool: Pool) {
    Mandated(events, ToCreate(id, pool.owner))
  }

  ghost predicate DonationMandated(events: seq<Event>, id: Id, row: Donation) {
    Mandated(events, ToFund(id, row.poolId, row.donor, row.amount, row.key))
  }

  ghost predicate ApplicationMandated(events: seq<Event>, id: Id, row: Application) {
    Mandated(events, ToApply(id, row.poolId, row.applicant))
  }

  ghost predicate TicketMandated(events: seq<Event>, ticket: Ticket) {
    match ticket
    case InsertPool(newId, pool, _) => PoolMandated(events, newId, pool)
    case AddDonation(newId, row) => DonationMandated(events, newId, row)
    case InsertApplication(newId, row, _) => ApplicationMandated(events, newId, row)
    case DecideRow(_, _, newId, award, _) => AwardMandated(events, newId, award)
    case MoveAward(id, target, payout, vault, _, _, _) =>
      && LinksMandated(events, id, payout, vault)
      && ((target == Disbursed && Mandated(events, ToDisburse(id)))
          || (target == Revoked && Mandated(events, ToRevoke(id))))
  }

  ghost predicate PoolsMandated(events: seq<Event>, pools: map<Id, Pool>) {
    forall id | id in pools :: PoolMandated(events, id, pools[id])
  }

  ghost predicate DonationsMandated(events: seq<Event>, donations: map<Id, Donation>) {
    forall id | id in donations :: DonationMandated(events, id, donations[id])
  }

  ghost predicate ApplicationsMandated(events: seq<Event>, applications: map<Id, Application>) {
    forall id | id in applications :: ApplicationMandated(events, id, applications[id])
  }

  ghost predicate AwardsMandated(events: seq<Event>, awards: map<Id, Award>) {
    forall id | id in awards :: AwardMandated(events, id, awards[id])
  }

  ghost predicate RowsMandated(events: seq<Event>, db: Db) {
    && PoolsMandated(events, db.pools) && DonationsMandated(events, db.donations)
    && ApplicationsMandated(events, db.applications) && AwardsMandated(events, db.awards)
  }

  ghost predicate TicketsMandated(events: seq<Event>, inflight: map<nat, Ticket>) {
    forall call | call in inflight :: TicketMandated(events, inflight[call])
  }

  lemma RowsStayMandated(earlier: seq<Event>, events: seq<Event>, db: Db)
    requires RowsMandated(earlier, db) && Carries(earlier, events)
    ensures RowsMandated(events, db)
  {
    forall id | id in db.awards
      ensures AwardMandated(events, id, db.awards[id])
    {
      AwardStaysMandated(earlier, events, id, db.awards[id]);
    }
  }

  lemma AwardStaysMandated(earlier: seq<Event>, events: seq<Event>, id: Id, award: Award)
    requires AwardMandated(earlier, id, award) && Carries(earlier, events)
    ensures AwardMandated(events, id, award)
  {
    var approve :|
      && Mandated(earlier, ToDecide(id, award.applicationId, award.decidedBy, award.amount, approve))
      && (award.status == Approved ==> approve) && (award.status == Rejected ==> !approve);
    assert Mandated(events, ToDecide(id, award.applicationId, award.decidedBy, award.amount, approve));
  }

  lemma TicketStaysMandated(earlier: seq<Event>, events: seq<Event>, ticket: Ticket)
    requires TicketMandated(earlier, ticket) && Carries(earlier, events)
    ensures TicketMandated(events, ticket)
  {
    if ticket.DecideRow? { AwardStaysMandated(earlier, events, ticket.newId, ticket.award); }
  }

  lemma AskedIsMandated(earlier: seq<Event>, call: nat, request: Request, mandate: Mandate)
    requires Asks(request, mandate)
    ensures Mandated(earlier + [Started(call, request)], mandate)
  {
    assert IsCallFor((earlier + [Started(call, request)])[|earlier|], mandate);
  }

  lemma BegunInsertIsMandated(earlier: seq<Event>, db: Db, call: nat, request: Request)
    requires (request.CreatePool? || request.FundPool? || request.Apply?) && Begin(db, request).Ready?
    ensures TicketMandated(earlier + [Started(call, request)], Begin(db, request).ticket)
  {
    match request
    case CreatePool(actor, _, _, _, _, newId) =>
      AskedIsMandated(earlier, call, request, ToCreate(newId, actor.userId));
    case FundPool(actor, p, amount, _, key, newId) =>
      AskedIsMandated(earlier, call, request, ToFund(newId, p, actor.userId, amount, key));
    case Apply(actor, p, _, _, _, newId) =>
      AskedIsMandated(earlier, call, request, ToApply(newId, p, actor.userId));
  }

  lemma BegunDecisionIsMandated(earlier: seq<Event>, db: Db, call: nat, request: Request)
    requires request.Decide? && Begin(db, request).Ready?
    ensures TicketMandated(earlier + [Started(call, request)], Begin(db, request).ticket)
  {
    AskedIsMandated(earlier, call, request,
      ToDecide(request.newId, request.applicationId, request.actor.userId, request.amount, request.approve));
  }

  lemma BegunDisburseIsMandated(earlier: seq<Event>, db: Db, call: nat, request: Request)
    requires request.Disburse? && Begin(db, request).Ready?
    ensures TicketMandated(earlier + [Started(call, request)], Begin(db, request).ticket)
  {
    var id := request.awardId;
    AskedIsMandated(earlier, call, request, ToDisburse(id));
    if request.payout.Some? { AskedIsMandated(earlier, call, request, ToLinkPayout(id, request.payout.value)); }
    if request.vault.Some? { AskedIsMandated(earlier, call, request, ToLinkVault(id, request.vault.value)); }
  }

  /** A Revoke carries links that were given before. */
  lemma BegunRevokeIsMandated(earlier: seq<Event>, db: Db, call: nat, request: Request)
    requires RowsMandated(earlier, db) && request.Revoke? && Begin(db, request).Ready?
    ensures TicketMandated(earlier + [Started(call, request)], Begin(db, request).ticket)
  {
    var id := request.awardId;
    LongerCarries(earlier, Started(call, request));
    AwardStaysMandated(earlier, earlier + [Started(call, request)], id, db.awards[id]);
    AskedIsMandated(earlier, call, request, ToRevoke(id));
  }

  /** A ticket is mandated by the call that it comes from. */
  lemma BegunIsMandated(earlier: seq<Event>, db: Db, call: nat, request: Request)
    requires RowsMandated(earlier, db) && Begin(db, request).Ready?
    ensures TicketMandated(earlier + [Started(call, request)], Begin(db, request).ticket)
  {
    match request
    case Decide(_, _, _, _, _, _) => BegunDecisionIsMandated(earlier, db, call, request);
    case Disburse(_, _, _, _, _) => BegunDisburseIsMandated(earlier, db, call, request);
    case Revoke(_, _) => BegunRevokeIsMandated(earlier, db, call, request);
    case _ => BegunInsertIsMandated(earlier, db, call, request);
  }

  lemma MovedAwardIsMandated(events: seq<Event>, db: Db, ticket: Ticket)
    requires ticket.MoveAward? && RowsMandated(events, db) && TicketMandated(events, ticket)
    requires Commit(db, ticket).reply.Ok?
    ensures RowsMandated(events, Commit(db, ticket).db)
  {
    var out := Commit(db, ticket).db;
    AwardStaysDecided(events, ticket.id, db.awards[ticket.id], out.awards[ticket.id]);
  }

  lemma AwardStaysDecided(events: seq<Event>, id: Id, before: Award, after: Award)
    requires AwardMandated(events, id, before) && LinksMandated(events, id, after.linkedPayout, after.linkedVault)
    requires after == before.(status := after.status, linkedPayout := after.linkedPayout,
      linkedVault := after.linkedVault)
    requires (after.status == Disbursed && Mandated(events, ToDisburse(id)))
      || (after.status == Revoked && Mandated(events, ToRevoke(id)))
    ensures AwardMandated(events, id, after)
  {
  }

  lemma NewAwardIsMandated(events: seq<Event>, db: Db, ticket: Ticket)
    requires ticket.DecideRow? && RowsMandated(events, db) && TicketMandated(events, ticket)
    requires Commit(db, ticket).reply.Ok?
    ensures RowsMandated(events, Commit(db, ticket).db)
  {
    var made := Commit(db, ticket).db.awards[ticket.newId];
    assert made == ticket.award.(currency := made.currency);
    assert AwardMandated(events, ticket.newId, made);
  }

  lemma RefusedChangesNothing(db: Db, ticket: Ticket)
    ensures Commit(db, ticket).reply.Err? ==> Commit(db, ticket).db == db
  {
  }

  lemma NewRowIsMandated(events: seq<Event>, db: Db, ticket: Ticket)
    requires ticket.InsertPool? || ticket.AddDonation? || ticket.InsertApplication?
    requires RowsMandated(events, db) && TicketMandated(events, ticket) && Commit(db, ticket).reply.Ok?
    ensures RowsMandated(events, Commit(db, ticket).db)
  {
    assert Commit(db, ticket).db.awards == db.awards;
  }

  lemma CommitKeepsMandates(events: seq<Event>, db: Db, ticket: Ticket)
    requires RowsMandated(events, db) && TicketMandated(events, ticket)
    ensures RowsMandated(events, Commit(db, ticket).db)
  {
    if Commit(db, ticket).reply.Err? {
      RefusedChangesNothing(db, ticket);
    } else {
      match ticket
      case MoveAward(_, _, _, _, _, _, _) => MovedAwardIsMandated(events, db, ticket);
      case DecideRow(_, _, _, _, _) => NewAwardIsMandated(events, db, ticket);
      case _ => NewRowIsMandated(events, db, ticket);
    }
  }

  lemma StepKeepsMandates(s: Sys, earlier: seq<Event>, event: Event)
    requires RowsMandated(earlier, s.db) && TicketsMandated(earlier, s.inflight)
    ensures RowsMandated(earlier + [event], Step(s, event).db)
    ensures TicketsMandated(earlier + [event], Step(s, event).inflight)
  {
    var events := earlier + [event];
    LongerCarries(earlier, event);
    RowsStayMandated(earlier, events, s.db);
    forall call | call in s.inflight
      ensures TicketMandated(events, s.inflight[call])
    {
      TicketStaysMandated(earlier, events, s.inflight[call]);
    }
    match event
    case Started(call, request) =>
      if Begin(s.db, request).Ready? { BegunIsMandated(earlier, s.db, call, request); }
    case Committed(call) =>
      if call in s.inflight { CommitKeepsMandates(events, s.db, s.inflight[call]); }
    case Abandoned(_) =>
    case PoolClosed(_) =>
  }

  /** In every interleaving from empty tables: each pool, donation, application and award goes back to a
      call by somebody entitled who asked for just that row; each linked payout and each linked vault to
      an administrator's Disburse of that award that named it in that place; each Disbursed or Revoked
      award to an administrator's Disburse or Revoke. */
  lemma {:induction false} EveryRowWasMandated(events: seq<Event>)
    ensures var end := Run(Sys(EMPTY, map[]), events);
      RowsMandated(events, end.db) && TicketsMandated(events, end.inflight)
  {
    if events != [] {
      var earlier := events[..|events| - 1];
      EveryRowWasMandated(earlier);
      StepKeepsMandates(Run(Sys(EMPTY, map[]), earlier), earlier, events[|events| - 1]);
      assert earlier + [events[|events| - 1]] == events;
    }
  }
}
