/** How awards pair with applications, how applications match their pools, and what is in which currency. */
module ScholarshipAwards {
  import opened Wrappers
  import opened Roles
  import opened Text
  import opened Scholarships
  import opened ScholarshipEffects

  // ---------------------------------------------------------------- awards and applications

  predicate AwardFor(awards: map<Id, Award>, a: Id, application: Id) {
    a in awards && awards[a].applicationId == application
  }

  predicate IsDecided(status: ApplicationStatus) {
    status == Accepted || status == Declined
  }

  /** Two awards never answer the same application. */
  ghost predicate OneAwardEach(awards: map<Id, Award>) {
    forall a, b, id | AwardFor(awards, a, id) && AwardFor(awards, b, id) :: a == b
  }

  /** An application has an award exactly when it is decided. */
  ghost predicate DecidedIffAwarded(applications: map<Id, Application>, awards: map<Id, Award>) {
    forall id | id in applications :: IsDecided(applications[id].status) <==> exists a :: AwardFor(awards, a, id)
  }

  /** Rejected goes with Declined, every other award with Accepted. */
  ghost predicate StatusesPair(applications: map<Id, Application>, awards: map<Id, Award>) {
    forall a, id | AwardFor(awards, a, id) && id in applications ::
      applications[id].status == if awards[a].status == Rejected then Declined else Accepted
  }

  /** A Disbursed award names the payout or the vault that the money went through. */
  predicate DisbursedAreLinked(awards: map<Id, Award>) {
    forall a | a in awards :: awards[a].status == Disbursed ==>
      awards[a].linkedPayout.Some? || awards[a].linkedVault.Some?
  }

  ghost predicate Paired(applications: map<Id, Application>, awards: map<Id, Award>) {
    && OneAwardEach(awards) && DecidedIffAwarded(applications, awards)
    && StatusesPair(applications, awards) && DisbursedAreLinked(awards)
  }

  function Verdict(award: Award): ApplicationStatus {
    if award.status == Approved then Accepted else Declined
  }

  /** Deciding an application keeps awards and applications paired, and one award each, if and only
      if the application is still open to review when the award is written. */
  lemma DecisionKeepsPairsIff(applications: map<Id, Application>, awards: map<Id, Award>, id: Id, newId: Id,
    award: Award)
    requires Paired(applications, awards) && id in applications && newId !in awards
    requires forall a | a in awards :: awards[a].applicationId in applications
    requires award.applicationId == id && (award.status == Approved || award.status == Rejected)
    ensures var after := applications[id := applications[id].(status := Verdict(award))];
      && (Paired(after, awards[newId := award]) <==> Reviewable(applications[id].status))
      && (OneAwardEach(awards[newId := award]) <==> Reviewable(applications[id].status))
  {
    var after := applications[id := applications[id].(status := Verdict(award))];
    var all := awards[newId := award];
    assert forall a, b :: AwardFor(all, a, b) <==> AwardFor(awards, a, b) || (a == newId && b == id);
    assert AwardFor(all, newId, id);
    if Reviewable(applications[id].status) {
      assert forall a :: !AwardFor(awards, a, id);
      forall other | other in after
        ensures IsDecided(after[other].status) <==> exists a :: AwardFor(all, a, other)
      {
        if other != id && IsDecided(applications[other].status) {
          var a :| AwardFor(awards, a, other);
          assert AwardFor(all, a, other);
        }
      }
    } else {
      assert IsDecided(applications[id].status);
      var a :| AwardFor(awards, a, id);
      assert AwardFor(all, a, id);
    }
  }

  lemma DecidedKeepsPairs(db: Db, out: Db, id: Id, newId: Id)
    requires Legal(db) && Paired(db.applications, db.awards) && Decided(db, out, id, newId)
    ensures Paired(out.applications, out.awards)
  {
    DecisionKeepsPairsIff(db.applications, db.awards, id, newId, out.awards[newId]);
  }

  lemma AwardMovedKeepsPairs(db: Db, out: Db, id: Id)
    requires Legal(db) && Paired(db.applications, db.awards) && AwardMoved(db, out, id)
    ensures Paired(out.applications, out.awards)
  {
    assert forall a, b :: AwardFor(out.awards, a, b) <==> AwardFor(db.awards, a, b);
    assert AwardFor(db.awards, id, db.awards[id].applicationId);
  }

  lemma ApplicationMadeKeepsPairs(db: Db, out: Db, newId: Id)
    requires Legal(db) && Paired(db.applications, db.awards) && ApplicationMade(db, out, newId)
    ensures Paired(out.applications, out.awards)
  {
    assert forall a :: !AwardFor(db.awards, a, newId);
  }

  lemma EffectKeepsPairs(db: Db, out: Db, ticket: Ticket)
    requires Legal(db) && Paired(db.applications, db.awards) && Effect(db, out, ticket)
    ensures Paired(out.applications, out.awards)
  {
    match ticket
    case DecideRow(id, _, newId, _, _) => DecidedKeepsPairs(db, out, id, newId);
    case MoveAward(id, _, _, _, _, _, _) => AwardMovedKeepsPairs(db, out, id);
    case InsertApplication(newId, _, _) => ApplicationMadeKeepsPairs(db, out, newId);
    case _ =>
  }

  // ---------------------------------------------------------------- applications and restrictions

  /** Every restriction that is set equals the field that answers it. */
  predicate Matches(wanted: Restrictions, answers: Restrictions) {
    && (wanted.geography.Some? ==> answers.geography == wanted.geography)
    && (wanted.level.Some? ==> answers.level == wanted.level)
    && (wanted.school.Some? ==> answers.school == wanted.school)
    && (wanted.category.Some? ==> answers.category == wanted.category)
  }

  lemma FieldMatchesIff(wanted: Option<string>, given: Option<string>)
    ensures var stored := SanitizeOptional(wanted);
      Satisfies(stored, given) <==> (stored.Some? ==> SanitizeOptional(given) == stored)
  {
  }

  /** The check on the raw answers agrees with plain equality on the stored ones. */
  lemma CheckMatchesStoredIff(wanted: Restrictions, given: Restrictions)
    ensures SatisfiesPool(Stored(wanted), given) <==> Matches(Stored(wanted), Stored(given))
  {
    FieldMatchesIff(wanted.geography, given.geography);
    FieldMatchesIff(wanted.level, given.level);
    FieldMatchesIff(wanted.category, given.category);
  }

  ghost predicate Matched(pools: map<Id, Pool>, applications: map<Id, Application>) {
    && (forall p | p in pools :: Normal(pools[p].restrictions))
    && forall id | id in applications ::
         applications[id].poolId in pools
         && Matches(pools[applications[id].poolId].restrictions, applications[id].answers)
  }

  ghost predicate SameRestrictions(pools: map<Id, Pool>, out: map<Id, Pool>) {
    pools.Keys <= out.Keys && forall p | p in pools :: out[p].restrictions == pools[p].restrictions
  }

  lemma PoolsMayChange(pools: map<Id, Pool>, out: map<Id, Pool>, applications: map<Id, Application>)
    requires Matched(pools, applications) && SameRestrictions(pools, out)
    requires forall p | p in out && p !in pools :: Normal(out[p].restrictions)
    ensures Matched(out, applications)
  {
  }

  lemma ApplicationMadeMatches(db: Db, out: Db, newId: Id)
    requires Matched(db.pools, db.applications) && ApplicationMade(db, out, newId)
    ensures Matched(out.pools, out.applications)
  {
    var row := out.applications[newId];
    var pool := db.pools[row.poolId];
    assert Normal(pool.restrictions) && Checked(pool.restrictions, row.answers);
    var wanted :| pool.restrictions == Stored(wanted);
    var answers :| row.answers == Stored(answers) && SatisfiesPool(pool.restrictions, answers);
    CheckMatchesStoredIff(wanted, answers);
  }

  lemma DecidedMatches(db: Db, out: Db, id: Id, newId: Id)
    requires Matched(db.pools, db.applications) && Decided(db, out, id, newId)
    ensures Matched(out.pools, out.applications)
  {
    PoolsMayChange(db.pools, out.pools, db.applications);
  }

  lemma EffectKeepsMatches(db: Db, out: Db, ticket: Ticket)
    requires Matched(db.pools, db.applications) && Effect(db, out, ticket)
    ensures Matched(out.pools, out.applications)
  {
    match ticket
    case InsertApplication(newId, _, _) => ApplicationMadeMatches(db, out, newId);
    case DecideRow(id, _, newId, _, _) => DecidedMatches(db, out, id, newId);
    case _ => PoolsMayChange(db.pools, out.pools, db.applications);
  }

  // ---------------------------------------------------------------- one currency per pool

  ghost predicate DonationInCurrency(pools: map<Id, Pool>, row: Donation) {
    row.poolId in pools && row.currency.AsStr() == pools[row.poolId].currency.AsStr()
  }

  /** A rejection names any currency, since it moves no money. */
  ghost predicate AwardInCurrency(pools: map<Id, Pool>, applications: map<Id, Application>, row: Award) {
    row.status != Rejected ==>
      && row.applicationId in applications && applications[row.applicationId].poolId in pools
      && row.currency.AsStr() == pools[applications[row.applicationId].poolId].currency.AsStr()
  }

  ghost predicate OneCurrency(db: Db) {
    && (forall id | id in db.donations :: DonationInCurrency(db.pools, db.donations[id]))
    && (forall id | id in db.awards :: AwardInCurrency(db.pools, db.applications, db.awards[id]))
  }

  ghost predicate SameCurrencies(pools: map<Id, Pool>, out: map<Id, Pool>) {
    pools.Keys <= out.Keys && forall p | p in pools :: out[p].currency == pools[p].currency
  }

  ghost predicate SamePools(applications: map<Id, Application>, out: map<Id, Application>) {
    applications.Keys <= out.Keys && forall id | id in applications :: out[id].poolId == applications[id].poolId
  }

  lemma RowsKeepCurrency(db: Db, out: Db)
    requires OneCurrency(db) && SameCurrencies(db.pools, out.pools) && SamePools(db.applications, out.applications)
    ensures forall id | id in db.donations :: DonationInCurrency(out.pools, db.donations[id])
    ensures forall id | id in db.awards :: AwardInCurrency(out.pools, out.applications, db.awards[id])
  {
  }

  lemma AwardMovedKeepsCurrency(db: Db, out: Db, id: Id)
    requires Legal(db) && OneCurrency(db) && AwardMoved(db, out, id)
    ensures OneCurrency(out)
  {
    RowsKeepCurrency(db, out);
    assert AwardInCurrency(db.pools, db.applications, db.awards[id]);
  }

  lemma EffectKeepsCurrency(db: Db, out: Db, ticket: Ticket)
    requires Legal(db) && OneCurrency(db) && Effect(db, out, ticket)
    ensures OneCurrency(out)
  {
    match ticket
    case MoveAward(id, _, _, _, _, _, _) => AwardMovedKeepsCurrency(db, out, id);
    case DecideRow(_, _, _, _, _) => RowsKeepCurrency(db, out);
    case _ => RowsKeepCurrency(db, out);
  }

  // ---------------------------------------------------------------- donation keys

  ghost predicate OneDonationPerKey(donations: map<Id, Donation>) {
    forall a, b | a in donations && b in donations :: donations[a].key == donations[b].key ==> a == b
  }

  lemma EffectKeepsDonationKeys(db: Db, out: Db, ticket: Ticket)
    requires OneDonationPerKey(db.donations) && Effect(db, out, ticket)
    ensures OneDonationPerKey(out.donations)
  {
  }

  // ---------------------------------------------------------------- closing a pool

  lemma ClosingKeepsMatches(db: Db, p: Id)
    requires Matched(db.pools, db.applications)
    ensures Matched(ClosePool(db, p).pools, db.applications)
  {
    if p in db.pools { PoolsMayChange(db.pools, ClosePool(db, p).pools, db.applications); }
  }

  lemma ClosingKeepsCurrency(db: Db, p: Id)
    requires OneCurrency(db)
    ensures OneCurrency(ClosePool(db, p))
  {
    if p in db.pools { RowsKeepCurrency(db, ClosePool(db, p)); }
  }
}
