/** What every interleaving of scholarship calls keeps, with no assumption on overlap. */
module ScholarshipOverlaps {
  import opened Wrappers
  import opened Int64
  import opened Money
  import opened Roles
  import opened Scholarships
  import opened ScholarshipEffects
  import opened ScholarshipAwards

  // ---------------------------------------------------------------- what never goes stale

  predicate LastingDecision(db: Db, id: Id, award: Award) {
    && id in db.applications && db.applications[id].poolId in db.pools
    && (award.status == Approved ==>
          award.currency.AsStr() == db.pools[db.applications[id].poolId].currency.AsStr())
  }

  predicate LastingMove(db: Db, id: Id, target: AwardStatus, payout: Option<Id>, vault: Option<Id>) {
    && id in db.awards && db.awards[id].status != Rejected && (target == Disbursed || target == Revoked)
    && (target == Disbursed ==>
          payout.Some? || vault.Some? || db.awards[id].linkedPayout.Some? || db.awards[id].linkedVault.Some?)
  }

  /** The part of a ticket's validation that no other transaction can undo. */
  ghost predicate Lasting(db: Db, ticket: Ticket) {
    match ticket
    case DecideRow(id, verdict, _, award, _) => FairDecision(id, verdict, award) && LastingDecision(db, id, award)
    case MoveAward(id, target, payout, vault, _, _, _) => LastingMove(db, id, target, payout, vault)
    case _ => Current(db, ticket)
  }

  lemma BegunIsLasting(db: Db, request: Request)
    requires Legal(db) && DisbursedAreLinked(db.awards) && Begin(db, request).Ready?
    ensures Lasting(db, Begin(db, request).ticket)
  {
    BegunIsCurrent(db, request);
  }

  // ---------------------------------------------------------------- what any commit writes

  /** The balance becomes `balance`, whatever it was. */
  ghost predicate Overwritten(pools: map<Id, Pool>, out: map<Id, Pool>, p: Id, balance: i64) {
    p in pools && 0 <= balance && out == pools[p := pools[p].(available := balance)]
  }

  ghost predicate DecisionWritten(db: Db, out: Db, id: Id, verdict: ApplicationStatus, newId: Id, award: Award,
    balance: i64)
  {
    && id in db.applications && newId !in db.awards && newId in out.awards
    && Overwritten(db.pools, out.pools, db.applications[id].poolId, balance)
    && out.awards[newId] == award.(currency := out.awards[newId].currency)
    && out.awards[newId].currency.AsStr() == award.currency.AsStr()
    && out == db.(
         pools := out.pools,
         applications := db.applications[id := db.applications[id].(status := verdict)],
         awards := db.awards[newId := out.awards[newId]],
         audits := db.audits + [ApplicationDecided(id, newId)])
  }

  ghost predicate MoveWritten(db: Db, out: Db, id: Id, target: AwardStatus, payout: Option<Id>, vault: Option<Id>,
    balance: i64, audit: AuditRow)
  {
    && id in db.awards && db.awards[id].applicationId in db.applications
    && Overwritten(db.pools, out.pools, db.applications[db.awards[id].applicationId].poolId, balance)
    && var moved := db.awards[id].(
         status := target,
         linkedPayout := Coalesce(payout, db.awards[id].linkedPayout),
         linkedVault := Coalesce(vault, db.awards[id].linkedVault));
    && out == db.(pools := out.pools, awards := db.awards[id := moved], audits := db.audits + [audit])
  }

  ghost predicate Written(db: Db, out: Db, ticket: Ticket) {
    match ticket
    case DecideRow(id, verdict, newId, award, balance) => DecisionWritten(db, out, id, verdict, newId, award, balance)
    case MoveAward(id, target, payout, vault, _, balance, audit) =>
      MoveWritten(db, out, id, target, payout, vault, balance, audit)
    case _ => Effect(db, out, ticket)
  }

  lemma DecisionIsWritten(db: Db, id: Id, verdict: ApplicationStatus, newId: Id, award: Award, balance: i64)
    ensures var out := DecideTx(db, id, verdict, newId, award, balance);
      if out.reply.Err? then out.db == db
      else out.reply == Ok(newId) && DecisionWritten(db, out.db, id, verdict, newId, award, balance)
  {
    if Parse(award.currency.AsStr()).Some? { ParsedIsCanonical(award.currency.AsStr()); }
  }

  lemma MoveIsWritten(db: Db, id: Id, target: AwardStatus, payout: Option<Id>, vault: Option<Id>, linksExist: bool,
    balance: i64, audit: AuditRow)
    ensures var out := AwardTx(db, id, target, payout, vault, linksExist, balance, audit);
      if out.reply.Err? then out.db == db
      else out.reply == Ok(id) && MoveWritten(db, out.db, id, target, payout, vault, balance, audit)
  {
  }

  /** Raced or not, a transaction is all or nothing. */
  lemma CommitIsWritten(db: Db, ticket: Ticket)
    requires Legal(db) && Lasting(db, ticket)
    ensures var out := Commit(db, ticket); if out.reply.Err? then out.db == db else Written(db, out.db, ticket)
  {
    match ticket
    case DecideRow(id, verdict, newId, award, balance) => DecisionIsWritten(db, id, verdict, newId, award, balance);
    case MoveAward(id, target, payout, vault, linksExist, balance, audit) =>
      MoveIsWritten(db, id, target, payout, vault, linksExist, balance, audit);
    case _ => CommitIsExact(db, ticket);
  }

  // ---------------------------------------------------------------- what any commit keeps

  /** What holds in every interleaving. */
  ghost predicate Sound(db: Db) {
    && Legal(db) && Matched(db.pools, db.applications) && OneCurrency(db)
    && OneDonationPerKey(db.donations) && DisbursedAreLinked(db.awards)
  }

  lemma DecisionKeepsLegal(db: Db, out: Db, id: Id, verdict: ApplicationStatus, newId: Id, award: Award, balance: i64)
    requires Legal(db)
    requires FairDecision(id, verdict, award) && LastingDecision(db, id, award)
    requires DecisionWritten(db, out, id, verdict, newId, award, balance)
    ensures Legal(out)
  {
  }

  lemma DecisionKeepsMatches(db: Db, out: Db, id: Id, verdict: ApplicationStatus, newId: Id, award: Award, balance: i64)
    requires Matched(db.pools, db.applications)
    requires FairDecision(id, verdict, award) && LastingDecision(db, id, award)
    requires DecisionWritten(db, out, id, verdict, newId, award, balance)
    ensures Matched(out.pools, out.applications)
  {
    PoolsMayChange(db.pools, out.pools, db.applications);
  }

  lemma DecisionKeepsCurrency(db: Db, out: Db, id: Id, verdict: ApplicationStatus, newId: Id, award: Award,
    balance: i64)
    requires Legal(db) && OneCurrency(db)
    requires FairDecision(id, verdict, award) && LastingDecision(db, id, award)
    requires DecisionWritten(db, out, id, verdict, newId, award, balance)
    ensures OneCurrency(out)
  {
    RowsKeepCurrency(db, out);
  }

  lemma DecisionKeepsLinks(db: Db, out: Db, id: Id, verdict: ApplicationStatus, newId: Id, award: Award, balance: i64)
    requires DisbursedAreLinked(db.awards)
    requires FairDecision(id, verdict, award) && LastingDecision(db, id, award)
    requires DecisionWritten(db, out, id, verdict, newId, award, balance)
    ensures DisbursedAreLinked(out.awards)
  {
  }

  lemma DecisionKeepsSound(db: Db, out: Db, id: Id, verdict: ApplicationStatus, newId: Id, award: Award, balance: i64)
    requires Sound(db)
    requires FairDecision(id, verdict, award) && LastingDecision(db, id, award)
    requires DecisionWritten(db, out, id, verdict, newId, award, balance)
    ensures Sound(out)
  {
    DecisionKeepsLegal(db, out, id, verdict, newId, award, balance);
    DecisionKeepsMatches(db, out, id, verdict, newId, award, balance);
    DecisionKeepsCurrency(db, out, id, verdict, newId, award, balance);
    DecisionKeepsLinks(db, out, id, verdict, newId, award, balance);
  }

  lemma MoveKeepsLegal(db: Db, out: Db, id: Id, target: AwardStatus, payout: Option<Id>, vault: Option<Id>,
    balance: i64, audit: AuditRow)
    requires Legal(db) && DisbursedAreLinked(db.awards)
    requires LastingMove(db, id, target, payout, vault)
    requires MoveWritten(db, out, id, target, payout, vault, balance, audit)
    ensures Legal(out) && DisbursedAreLinked(out.awards)
  {
  }

  lemma MoveKeepsCurrency(db: Db, out: Db, id: Id, target: AwardStatus, payout: Option<Id>, vault: Option<Id>,
    balance: i64, audit: AuditRow)
    requires Legal(db) && OneCurrency(db)
    requires LastingMove(db, id, target, payout, vault)
    requires MoveWritten(db, out, id, target, payout, vault, balance, audit)
    ensures OneCurrency(out)
  {
    RowsKeepCurrency(db, out);
    assert AwardInCurrency(db.pools, db.applications, db.awards[id]);
  }

  lemma MoveKeepsMatches(db: Db, out: Db, id: Id, target: AwardStatus, payout: Option<Id>, vault: Option<Id>,
    balance: i64, audit: AuditRow)
    requires Matched(db.pools, db.applications)
    requires LastingMove(db, id, target, payout, vault)
    requires MoveWritten(db, out, id, target, payout, vault, balance, audit)
    ensures Matched(out.pools, out.applications)
  {
    PoolsMayChange(db.pools, out.pools, db.applications);
  }

  lemma MoveKeepsSound(db: Db, out: Db, id: Id, target: AwardStatus, payout: Option<Id>, vault: Option<Id>,
    balance: i64, audit: AuditRow)
    requires Sound(db)
    requires LastingMove(db, id, target, payout, vault)
    requires MoveWritten(db, out, id, target, payout, vault, balance, audit)
    ensures Sound(out)
  {
    MoveKeepsLegal(db, out, id, target, payout, vault, balance, audit);
    MoveKeepsCurrency(db, out, id, target, payout, vault, balance, audit);
    MoveKeepsMatches(db, out, id, target, payout, vault, balance, audit);
  }

  lemma OtherKeepsSound(db: Db, out: Db, ticket: Ticket)
    requires Sound(db) && Effect(db, out, ticket) && !Overwrites(ticket)
    ensures Sound(out)
  {
    EffectKeepsLegal(db, out, ticket);
    EffectKeepsMatches(db, out, ticket);
    EffectKeepsCurrency(db, out, ticket);
    EffectKeepsDonationKeys(db, out, ticket);
  }

  lemma CommitKeepsSound(db: Db, ticket: Ticket)
    requires Sound(db) && Lasting(db, ticket)
    ensures Sound(Commit(db, ticket).db)
  {
    var out := Commit(db, ticket);
    CommitIsWritten(db, ticket);
    if out.reply.Ok? {
      match ticket
      case DecideRow(id, verdict, newId, award, balance) =>
        DecisionKeepsSound(db, out.db, id, verdict, newId, award, balance);
      case MoveAward(id, target, payout, vault, _, balance, audit) =>
        MoveKeepsSound(db, out.db, id, target, payout, vault, balance, audit);
      case _ => OtherKeepsSound(db, out.db, ticket);
    }
  }

  /** Rows stay and keep what they were created with; an award that was ever granted is never Rejected,
      and a link stays a link. */
  ghost predicate Kept(db: Db, later: Db) {
    && (forall p | p in db.pools :: p in later.pools && later.pools[p] ==
          db.pools[p].(available := later.pools[p].available, status := later.pools[p].status))
    && (forall id | id in db.applications :: id in later.applications
          && later.applications[id] == db.applications[id].(status := later.applications[id].status))
    && (forall id | id in db.awards :: id in later.awards && KeptAward(db.awards[id], later.awards[id]))
  }

  predicate KeptAward(award: Award, later: Award) {
    && later == award.(status := later.status, linkedPayout := later.linkedPayout, linkedVault := later.linkedVault)
    && (award.linkedPayout.Some? ==> later.linkedPayout.Some?) && (award.linkedVault.Some? ==> later.linkedVault.Some?)
    && (award.status != Rejected ==> later.status != Rejected)
  }

  lemma WrittenKeeps(db: Db, out: Db, ticket: Ticket)
    requires Written(db, out, ticket) && Lasting(db, ticket)
    ensures Kept(db, out)
  {
    match ticket
    case DecideRow(_, _, _, _, _) =>
    case MoveAward(_, _, _, _, _, _, _) =>
    case _ =>
  }

  lemma KeptIsTransitive(a: Db, b: Db, c: Db)
    requires Kept(a, b) && Kept(b, c)
    ensures Kept(a, c)
  {
  }

  lemma LastingLasts(db: Db, later: Db, ticket: Ticket)
    requires Kept(db, later) && Lasting(db, ticket)
    ensures Lasting(later, ticket)
  {
  }

  lemma CommitKeepsRows(db: Db, ticket: Ticket)
    requires Legal(db) && Lasting(db, ticket)
    ensures Kept(db, Commit(db, ticket).db)
  {
    CommitIsWritten(db, ticket);
    if Commit(db, ticket).reply.Ok? { WrittenKeeps(db, Commit(db, ticket).db, ticket); }
  }

  ghost predicate AllLasting(db: Db, inflight: map<nat, Ticket>) {
    forall call | call in inflight :: Lasting(db, inflight[call])
  }

  ghost predicate SoundSys(s: Sys) {
    Sound(s.db) && AllLasting(s.db, s.inflight)
  }

  lemma AllLast(db: Db, later: Db, inflight: map<nat, Ticket>)
    requires Kept(db, later) && AllLasting(db, inflight)
    ensures AllLasting(later, inflight)
  {
    forall call | call in inflight
      ensures Lasting(later, inflight[call])
    {
      LastingLasts(db, later, inflight[call]);
    }
  }

  lemma ClosingKeepsLegal(db: Db, p: Id)
    requires Legal(db)
    ensures Legal(ClosePool(db, p)) && Kept(db, ClosePool(db, p))
  {
  }

  lemma ClosingIsSound(db: Db, p: Id)
    requires Sound(db)
    ensures Sound(ClosePool(db, p)) && Kept(db, ClosePool(db, p))
  {
    ClosingKeepsLegal(db, p);
    ClosingKeepsMatches(db, p);
    ClosingKeepsCurrency(db, p);
  }

  lemma CommittedIsSound(s: Sys, call: nat)
    requires SoundSys(s) && call in s.inflight
    ensures SoundSys(Sys(Commit(s.db, s.inflight[call]).db, s.inflight - {call}))
    ensures Kept(s.db, Commit(s.db, s.inflight[call]).db)
  {
    CommitKeepsSound(s.db, s.inflight[call]);
    CommitKeepsRows(s.db, s.inflight[call]);
    AllLast(s.db, Commit(s.db, s.inflight[call]).db, s.inflight);
  }

  lemma StartedIsSound(s: Sys, call: nat, request: Request)
    requires SoundSys(s)
    ensures SoundSys(Step(s, Started(call, request))) && Step(s, Started(call, request)).db == s.db
  {
    if Begin(s.db, request).Ready? { BegunIsLasting(s.db, request); }
  }

  lemma ClosedIsSound(s: Sys, p: Id)
    requires SoundSys(s)
    ensures SoundSys(s.(db := ClosePool(s.db, p))) && Kept(s.db, ClosePool(s.db, p))
  {
    ClosingIsSound(s.db, p);
    AllLast(s.db, ClosePool(s.db, p), s.inflight);
  }

  lemma KeptIsReflexive(db: Db)
    ensures Kept(db, db)
  {
  }

  lemma StepIsSound(s: Sys, event: Event)
    requires SoundSys(s)
    ensures SoundSys(Step(s, event)) && Kept(s.db, Step(s, event).db)
  {
    KeptIsReflexive(s.db);
    match event
    case Started(call, request) => StartedIsSound(s, call, request);
    case Committed(call) =>
      if call in s.inflight { CommittedIsSound(s, call); }
    case Abandoned(_) =>
    case PoolClosed(p) => ClosedIsSound(s, p);
  }

  lemma {:induction false} RunsAreSound(s: Sys, events: seq<Event>)
    requires SoundSys(s)
    ensures SoundSys(Run(s, events)) && Kept(s.db, Run(s, events).db)
  {
    if events != [] {
      var before := Run(s, events[..|events| - 1]);
      RunsAreSound(s, events[..|events| - 1]);
      StepIsSound(before, events[|events| - 1]);
      KeptIsTransitive(s.db, before.db, Run(s, events).db);
    }
  }

  /** In every interleaving, overlapping calls included: every stored application equals its pool's
      restrictions field by field, donations and granted awards are in their pool's currency, no key
      was donated under twice, and every Disbursed award has a payout or a vault linked. */
  lemma EveryRunIsSound(events: seq<Event>)
    ensures Sound(Run(Sys(EMPTY, map[]), events).db)
  {
    RunsAreSound(Sys(EMPTY, map[]), events);
  }

  /** Every stored application equals its pool's restrictions field by field. */
  lemma ApplicationsMatchTheirPools(events: seq<Event>, id: Id)
    requires id in Run(Sys(EMPTY, map[]), events).db.applications
    ensures var db := Run(Sys(EMPTY, map[]), events).db;
      var row := db.applications[id];
      row.poolId in db.pools && Matches(db.pools[row.poolId].restrictions, row.answers)
  {
    EveryRunIsSound(events);
  }

  /** A Disbursed award keeps a linked payout or vault, whatever is called again or overlaps. */
  lemma DisbursedStaysLinked(events: seq<Event>, a: Id)
    requires a in Run(Sys(EMPTY, map[]), events).db.awards
    requires Run(Sys(EMPTY, map[]), events).db.awards[a].status == Disbursed
    ensures var award := Run(Sys(EMPTY, map[]), events).db.awards[a];
      award.linkedPayout.Some? || award.linkedVault.Some?
  {
    EveryRunIsSound(events);
  }

  /** Every donation, and every award that was ever granted, is in its pool's currency, so a pool's
      balance never adds amounts of two currencies; and no key was donated under twice. */
  lemma PoolsHoldOneCurrency(events: seq<Event>)
    ensures var db := Run(Sys(EMPTY, map[]), events).db; OneCurrency(db) && OneDonationPerKey(db.donations)
  {
    EveryRunIsSound(events);
  }
}
