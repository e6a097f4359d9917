/** Idempotency keys: one row and one creation record each, and the same answer for ever. */
module Idempotency {
  import opened Wrappers
  import opened Money
  import opened Roles
  import opened VaultModel
  import opened Effects

  // ---------------------------------------------------------------- what no step ever changes

  predicate SameContribution(before: Contribution, after: Contribution) {
    after == before.(status := after.status, externalReference := after.externalReference)
  }

  predicate SamePayoutRow(before: Payout, after: Payout) {
    after == before.(status := after.status, reviewNotes := after.reviewNotes,
      externalReference := after.externalReference,
      reviewedBy := after.reviewedBy)
  }

  /** Rows stay, with what they were created with; vaults keep owner and currency; contributors stay. */
  ghost predicate Extends(db: Db, later: Db) {
    && db.contributors <= later.contributors
    && (forall v | v in db.vaults :: v in later.vaults
          && later.vaults[v].owner == db.vaults[v].owner && later.vaults[v].currency == db.vaults[v].currency)
    && (forall id | id in db.contributions ::
      id in later.contributions && SameContribution(db.contributions[id], later.contributions[id]))
    && (forall id | id in db.payouts :: id in later.payouts && SamePayoutRow(db.payouts[id], later.payouts[id]))
  }

  lemma EffectExtends(db: Db, out: Db, ticket: Ticket)
    requires out == db || TicketEffect(db, out, ticket)
    ensures Extends(db, out)
  {
  }

  // ---------------------------------------------------------------- one row, one record

  ghost predicate UniqueKeys(contributions: map<Id, Contribution>, payouts: map<Id, Payout>) {
    && (forall a, b | a in contributions && b in contributions ::
      contributions[a].key == contributions[b].key ==> a == b)
    && (forall a, b | a in payouts && b in payouts :: payouts[a].key == payouts[b].key ==> a == b)
  }

  /** The creation records of one contribution key, and of one payout. */
  function Recordings(audits: seq<AuditRow>, key: string): nat {
    if audits == [] then 0
    else
      var last := audits[|audits| - 1];
      Recordings(audits[..|audits| - 1], key) + (if last.ContributionRecorded? && last.key == key then 1 else 0)
  }

  function PayoutRecordings(audits: seq<AuditRow>, id: Id): nat {
    if audits == [] then 0
    else
      var last := audits[|audits| - 1];
      PayoutRecordings(audits[..|audits| - 1], id) + (if last.PayoutRequested? && last.payoutId == id then 1 else 0)
  }

  ghost predicate KeyUsed(contributions: map<Id, Contribution>, key: string) {
    exists id :: id in contributions && contributions[id].key == key
  }

  ghost predicate RecordsAgree(contributions: map<Id, Contribution>, payouts: map<Id, Payout>, audits: seq<AuditRow>) {
    && (forall key :: Recordings(audits, key) == if KeyUsed(contributions, key) then 1 else 0)
    && (forall id :: PayoutRecordings(audits, id) == if id in payouts then 1 else 0)
  }

  /** At most one row per key; and exactly one creation record per row. */
  ghost predicate KeysAgree(db: Db) {
    UniqueKeys(db.contributions, db.payouts) && RecordsAgree(db.contributions, db.payouts, db.audits)
  }

  /** A ticket records a creation exactly when it makes one, under the key it inserts. */
  predicate WellAudited(ticket: Ticket) {
    match ticket
    case InsertContribution(id, row, audit) => audit == ContributionRecorded(row.contributor, id, row.key)
    case InsertPayout(id, row, audit) => audit == PayoutRequested(row.requestedBy, id)
    case SettleRow(_, _, _, _, audit) => audit.ContributionSettled?
    case ReviewRow(_, _, _, _, _, audit) => audit.PayoutReviewed?
  }

  lemma BegunIsWellAudited(db: Db, request: Request)
    requires Begin(db, request).Ready?
    ensures WellAudited(Begin(db, request).ticket)
  {
  }

  lemma EffectKeepsUnique(db: Db, out: Db, ticket: Ticket)
    requires UniqueKeys(db.contributions, db.payouts) && TicketEffect(db, out, ticket)
    ensures UniqueKeys(out.contributions, out.payouts)
  {
  }

  lemma EffectUsesKey(db: Db, out: Db, ticket: Ticket, key: string)
    requires TicketEffect(db, out, ticket)
    ensures KeyUsed(out.contributions, key)
      <==> KeyUsed(db.contributions, key) || (ticket.InsertContribution? && ticket.contribution.key == key)
    ensures ticket.InsertContribution? && ticket.contribution.key == key ==> !KeyUsed(db.contributions, key)
  {
    if id :| id in db.contributions && db.contributions[id].key == key {
      assert id in out.contributions && out.contributions[id].key == key;
    }
    if ticket.InsertContribution? && ticket.contribution.key == key {
      assert ticket.newId in out.contributions && out.contributions[ticket.newId].key == key;
    }
  }

  lemma EffectKeepsRecords(db: Db, out: Db, ticket: Ticket)
    requires RecordsAgree(db.contributions, db.payouts, db.audits) && WellAudited(ticket)
      && TicketEffect(db, out, ticket)
    ensures RecordsAgree(out.contributions, out.payouts, out.audits)
  {
    assert out.audits[..|db.audits|] == db.audits;
    forall key
      ensures Recordings(out.audits, key) == if KeyUsed(out.contributions, key) then 1 else 0
    {
      EffectUsesKey(db, out, ticket, key);
    }
  }

  lemma CommitKeepsKeys(db: Db, ticket: Ticket)
    requires Checked(db) && KeysAgree(db) && WellAudited(ticket)
    ensures Checked(Commit(db, ticket).db) && KeysAgree(Commit(db, ticket).db) && Extends(db, Commit(db, ticket).db)
  {
    var out := Commit(db, ticket).db;
    CommitIsAtomic(db, ticket);
    EffectExtends(db, out, ticket);
    if out != db {
      EffectKeepsUnique(db, out, ticket);
      EffectKeepsRecords(db, out, ticket);
    }
  }

  ghost predicate KeysInv(s: Sys) {
    Checked(s.db) && KeysAgree(s.db) && forall call | call in s.inflight :: WellAudited(s.inflight[call])
  }

  lemma StepKeepsKeys(s: Sys, event: Event)
    requires KeysInv(s)
    ensures KeysInv(Step(s, event))
  {
    match event
    case Started(_, request) =>
      if Begin(s.db, request).Ready? { BegunIsWellAudited(s.db, request); }
    case Committed(call) =>
      if call in s.inflight { CommitKeepsKeys(s.db, s.inflight[call]); }
    case Abandoned(_) =>
    case ContributorAdded(_, _) =>
  }

  lemma StepExtends(s: Sys, event: Event)
    requires KeysInv(s)
    ensures Extends(s.db, Step(s, event).db)
  {
    ExtendsReflexive(s.db);
    if event.Committed? && event.call in s.inflight { CommitKeepsKeys(s.db, s.inflight[event.call]); }
    if event.ContributorAdded? { ContributorsExtend(s.db, s.db.contributors + {(event.vaultId, event.userId)}); }
  }

  lemma ExtendsReflexive(db: Db)
    ensures Extends(db, db)
  {
  }

  lemma ContributorsExtend(db: Db, contributors: set<(Id, Id)>)
    requires db.contributors <= contributors
    ensures Extends(db, db.(contributors := contributors))
  {
  }

  lemma ExtendsTransitive(a: Db, b: Db, c: Db)
    requires Extends(a, b) && Extends(b, c)
    ensures Extends(a, c)
  {
  }

  /** In every interleaving, overlapping calls included: a key keeps its one row and its one
      creation record, and every row keeps what it was created with. */
  lemma {:induction false} RunsKeepKeys(s: Sys, events: seq<Event>)
    requires KeysInv(s)
    ensures KeysInv(Run(s, events)) && Extends(s.db, Run(s, events).db)
  {
    if events != [] {
      var before := Run(s, events[..|events| - 1]);
      RunsKeepKeys(s, events[..|events| - 1]);
      StepKeepsKeys(before, events[|events| - 1]);
      StepExtends(before, events[|events| - 1]);
      ExtendsTransitive(s.db, before.db, Run(s, events).db);
    }
  }

  lemma InitialKeys(db: Db)
    requires Initial(db)
    ensures KeysInv(Sys(db, map[]))
  {
  }

  // ---------------------------------------------------------------- replays

  lemma CreateContribution(s: Sys, actor: Actor, intent: Intent, newId: Id)
    requires KeysInv(s)
    requires BeginRecord(s.db, actor, intent, newId).Ready? && Call(s.db, Record(actor, intent, newId)).reply.Ok?
    ensures Call(s.db, Record(actor, intent, newId)).reply == Ok(newId)
    ensures var made := Call(s.db, Record(actor, intent, newId)).db;
      && KeysInv(Sys(made, s.inflight)) && Extends(s.db, made)
      && newId in made.contributions
      && var row := made.contributions[newId];
      && row == PendingContribution(actor, intent).(currency := row.currency)
      && Canonical(row.currency) && row.currency.AsStr() == intent.currency.AsStr()
  {
    var ticket := BeginRecord(s.db, actor, intent, newId).ticket;
    InsertContributionIsExact(s.db, newId, ticket.contribution, ticket.audit);
    CommitKeepsKeys(s.db, ticket);
  }

  lemma KeyFinds(db: Db, id: Id, key: string)
    requires UniqueKeys(db.contributions, db.payouts) && id in db.contributions && db.contributions[id].key == key
    ensures ContributionByKey(db, key) == Some(id)
  {
  }

  /** Once a key has a row, every request under it that gets past the checks before the lookup is
      answered from that row or refused, and changes nothing. */
  lemma KeyIsSpent(db: Db, id: Id, actor: Actor, intent: Intent, newId: Id)
    requires KeysAgree(db) && id in db.contributions && db.contributions[id].key == intent.key
    requires RecordGuard(db, actor, intent).None?
    ensures Call(db, Record(actor, intent, newId)).db == db
    ensures Call(db, Record(actor, intent, newId)).reply ==
      if SameIntent(db.contributions[id], actor.userId, intent) then Ok(id)
      else Err(Conflict("idempotency key already used for a different contribution intent"))
  {
    KeyFinds(db, id, intent.key);
    assert Begin(db, Record(actor, intent, newId)) == BeginRecord(db, actor, intent, newId);
  }

  /** The checks a request passed once it passes again after any run: owners, currencies and
      contributors are never taken back. */
  lemma GuardStaysPassed(db: Db, later: Db, actor: Actor, intent: Intent)
    requires Extends(db, later) && RecordGuard(db, actor, intent).None?
    ensures RecordGuard(later, actor, intent).None?
  {
  }

  /** What is left of a successful create after any later run. */
  lemma CreatedContributionStays(s: Sys, actor: Actor, intent: Intent, newId: Id, events: seq<Event>)
    requires KeysInv(s)
    requires BeginRecord(s.db, actor, intent, newId).Ready? && Call(s.db, Record(actor, intent, newId)).reply.Ok?
    ensures var end := Run(Sys(Call(s.db, Record(actor, intent, newId)).db, s.inflight), events).db;
      && KeysAgree(end) && Extends(s.db, end) && newId in end.contributions
      && var row := end.contributions[newId];
      && SameContribution(PendingContribution(actor, intent).(currency := row.currency), row)
      && Canonical(row.currency) && row.currency.AsStr() == intent.currency.AsStr()
  {
    CreateContribution(s, actor, intent, newId);
    var made := Call(s.db, Record(actor, intent, newId)).db;
    RunsKeepKeys(Sys(made, s.inflight), events);
    ExtendsTransitive(s.db, made, Run(Sys(made, s.inflight), events).db);
  }

  /** After a successful create and any later run, whatever was or comes in flight: the same actor
      repeating the same request gets the same row if and only if the currency is one that comes
      back from its column unchanged; either way nothing changes. */
  lemma ContributionReplayIff(s: Sys, actor: Actor, intent: Intent, newId: Id, events: seq<Event>, againId: Id)
    requires KeysInv(s)
    requires BeginRecord(s.db, actor, intent, newId).Ready? && Call(s.db, Record(actor, intent, newId)).reply.Ok?
    ensures var end := Run(Sys(Call(s.db, Record(actor, intent, newId)).db, s.inflight), events).db;
      && Call(end, Record(actor, intent, againId)).db == end
      && (Call(end, Record(actor, intent, againId)).reply == Ok(newId) <==> Canonical(intent.currency))
  {
    var end := Run(Sys(Call(s.db, Record(actor, intent, newId)).db, s.inflight), events).db;
    CreatedContributionStays(s, actor, intent, newId, events);
    GuardStaysPassed(s.db, end, actor, intent);
    KeyIsSpent(end, newId, actor, intent, againId);
    SameTextSameCurrencyIff(end.contributions[newId].currency, intent.currency);
  }

  lemma SameTextSameCurrencyIff(stored: Currency, given: Currency)
    requires Canonical(stored) && stored.AsStr() == given.AsStr()
    ensures stored == given <==> Canonical(given)
  {
    RoundTripIffCanonical(stored);
    RoundTripIffCanonical(given);
  }

  /** A currency that was itself parsed from text, as every route does it, always replays. */
  lemma ParsedContributionReplays(s: Sys, actor: Actor, intent: Intent, text: string, newId: Id, events: seq<Event>,
    againId: Id)
    requires KeysInv(s) && Parse(text) == Some(intent.currency)
    requires BeginRecord(s.db, actor, intent, newId).Ready? && Call(s.db, Record(actor, intent, newId)).reply.Ok?
    ensures var end := Run(Sys(Call(s.db, Record(actor, intent, newId)).db, s.inflight), events).db;
      Call(end, Record(actor, intent, againId)) == Outcome(end, Ok(newId))
  {
    ParsedIsCanonical(text);
    ContributionReplayIff(s, actor, intent, newId, events, againId);
  }

  /** And any other request under that key that passes the earlier checks is a Conflict, unless it
      names the same vault, user, amount, stored currency and source. */
  lemma ContributionKeyConflicts(s: Sys, actor: Actor, intent: Intent, newId: Id, events: seq<Event>, other: Actor,
    different: Intent, againId: Id)
    requires KeysInv(s)
    requires BeginRecord(s.db, actor, intent, newId).Ready? && Call(s.db, Record(actor, intent, newId)).reply.Ok?
    requires different.key == intent.key
    requires different.vaultId != intent.vaultId || other.userId != actor.userId || different.amount != intent.amount
      || different.currency.AsStr() != intent.currency.AsStr() || different.source != intent.source
    ensures var end := Run(Sys(Call(s.db, Record(actor, intent, newId)).db, s.inflight), events).db;
      var out := Call(end, Record(other, different, againId));
      && out.db == end
      && (RecordGuard(end, other, different).None? ==>
            out.reply == Err(Conflict("idempotency key already used for a different contribution intent")))
  {
    var end := Run(Sys(Call(s.db, Record(actor, intent, newId)).db, s.inflight), events).db;
    CreatedContributionStays(s, actor, intent, newId, events);
    if RecordGuard(end, other, different).None? { KeyIsSpent(end, newId, other, different, againId); }
  }

  lemma CreatePayout(s: Sys, actor: Actor, input: PayoutInput, site: Site, newId: Id)
    requires KeysInv(s)
    requires BeginRequest(s.db, actor, input, site, newId).Ready?
    requires Call(s.db, RequestPayout(actor, input, site, newId)).reply.Ok?
    ensures var made := Call(s.db, RequestPayout(actor, input, site, newId)).db;
      && KeysInv(Sys(made, s.inflight))
      && newId in made.payouts
      && var row := made.payouts[newId];
      && row == PendingPayout(actor, input).(currency := row.currency)
      && Canonical(row.currency) && row.currency.AsStr() == input.currency.AsStr()
  {
    var ticket := BeginRequest(s.db, actor, input, site, newId).ticket;
    InsertPayoutIsExact(s.db, newId, ticket.payout, ticket.audit);
    CommitKeepsKeys(s.db, ticket);
  }

  lemma CreatedPayoutStays(s: Sys, actor: Actor, input: PayoutInput, site: Site, newId: Id, events: seq<Event>)
    requires KeysInv(s)
    requires BeginRequest(s.db, actor, input, site, newId).Ready?
    requires Call(s.db, RequestPayout(actor, input, site, newId)).reply.Ok?
    ensures actor.role == Parent && 0 < input.amount
    ensures var end := Run(Sys(Call(s.db, RequestPayout(actor, input, site, newId)).db, s.inflight), events).db;
      && KeysAgree(end) && newId in end.payouts
      && var row := end.payouts[newId];
      && SamePayoutRow(PendingPayout(actor, input).(currency := row.currency), row)
      && Canonical(row.currency) && row.currency.AsStr() == input.currency.AsStr()
  {
    CreatePayout(s, actor, input, site, newId);
    RunsKeepKeys(Sys(Call(s.db, RequestPayout(actor, input, site, newId)).db, s.inflight), events);
  }

  /** For payouts the key is looked up before vault, milestone, school and funds, so a replay does
      not depend on them: it is answered whatever they have become. */
  lemma PayoutReplayIff(s: Sys, actor: Actor, input: PayoutInput, site: Site, newId: Id, events: seq<Event>,
    laterSite: Site, againId: Id)
    requires KeysInv(s)
    requires BeginRequest(s.db, actor, input, site, newId).Ready?
    requires Call(s.db, RequestPayout(actor, input, site, newId)).reply.Ok?
    ensures var end := Run(Sys(Call(s.db, RequestPayout(actor, input, site, newId)).db, s.inflight), events).db;
      && Call(end, RequestPayout(actor, input, laterSite, againId)).db == end
      && (Call(end, RequestPayout(actor, input, laterSite, againId)).reply == Ok(newId) <==> Canonical(input.currency))
  {
    var end := Run(Sys(Call(s.db, RequestPayout(actor, input, site, newId)).db, s.inflight), events).db;
    CreatedPayoutStays(s, actor, input, site, newId, events);
    PayoutKeyIsSpent(end, newId, actor, input, laterSite, againId);
    SameTextSameCurrencyIff(end.payouts[newId].currency, input.currency);
  }

  /** A currency parsed from text always replays here too. */
  lemma ParsedPayoutReplays(s: Sys, actor: Actor, input: PayoutInput, text: string, site: Site, newId: Id,
    events: seq<Event>, laterSite: Site, againId: Id)
    requires KeysInv(s) && Parse(text) == Some(input.currency)
    requires BeginRequest(s.db, actor, input, site, newId).Ready?
    requires Call(s.db, RequestPayout(actor, input, site, newId)).reply.Ok?
    ensures var end := Run(Sys(Call(s.db, RequestPayout(actor, input, site, newId)).db, s.inflight), events).db;
      Call(end, RequestPayout(actor, input, laterSite, againId)) == Outcome(end, Ok(newId))
  {
    ParsedIsCanonical(text);
    PayoutReplayIff(s, actor, input, site, newId, events, laterSite, againId);
  }

  lemma PayoutKeyFinds(db: Db, id: Id, key: string)
    requires UniqueKeys(db.contributions, db.payouts) && id in db.payouts && db.payouts[id].key == key
    ensures PayoutByKey(db, key) == Some(id)
  {
  }

  /** A used payout key answers from its row, or refuses. */
  lemma PayoutKeyIsSpent(db: Db, id: Id, actor: Actor, input: PayoutInput, site: Site, newId: Id)
    requires KeysAgree(db) && id in db.payouts && db.payouts[id].key == input.key
    requires actor.role == Parent && 0 < input.amount
    ensures Call(db, RequestPayout(actor, input, site, newId)).db == db
    ensures Call(db, RequestPayout(actor, input, site, newId)).reply ==
      if SamePayout(db.payouts[id], actor.userId, input) then Ok(id)
      else Err(Conflict("idempotency key already used for a different payout request"))
  {
    PayoutKeyFinds(db, id, input.key);
    assert Begin(db, RequestPayout(actor, input, site, newId)) == BeginRequest(db, actor, input, site, newId);
  }

  /** And any request under the key of a created payout that differs in vault, milestone, school,
      user, amount or stored currency is a Conflict and changes nothing. */
  lemma PayoutKeyConflicts(s: Sys, actor: Actor, input: PayoutInput, site: Site, newId: Id, events: seq<Event>,
    other: Actor, different: PayoutInput, laterSite: Site, againId: Id)
    requires KeysInv(s)
    requires BeginRequest(s.db, actor, input, site, newId).Ready?
    requires Call(s.db, RequestPayout(actor, input, site, newId)).reply.Ok?
    requires different.key == input.key && other.role == Parent && 0 < different.amount
    requires different.vaultId != input.vaultId || different.milestoneId != input.milestoneId
      || different.schoolId != input.schoolId || other.userId != actor.userId || different.amount != input.amount
      || different.currency.AsStr() != input.currency.AsStr()
    ensures var end := Run(Sys(Call(s.db, RequestPayout(actor, input, site, newId)).db, s.inflight), events).db;
      Call(end, RequestPayout(other, different, laterSite, againId))
        == Outcome(end, Err(Conflict("idempotency key already used for a different payout request")))
  {
    var end := Run(Sys(Call(s.db, RequestPayout(actor, input, site, newId)).db, s.inflight), events).db;
    CreatedPayoutStays(s, actor, input, site, newId, events);
    PayoutKeyIsSpent(end, newId, other, different, laterSite, againId);
  }
}
