/** The balance of a pool against its donations and its awards. */
module ScholarshipBalances {
  import opened Roles
  import opened MapSums
  import opened Scholarships
  import opened ScholarshipEffects

  function DonatedTo(p: Id): Donation -> int {
    (row: Donation) => if row.poolId == p then row.amount else 0
  }

  predicate AwardOf(applications: map<Id, Application>, award: Award, p: Id) {
    award.applicationId in applications && applications[award.applicationId].poolId == p
  }

  predicate Live(status: AwardStatus) {
    status == Approved || status == Disbursed
  }

  /** The amounts of one pool's Approved and Disbursed awards. */
  function GrantedIn(applications: map<Id, Application>, p: Id): Award -> int {
    (row: Award) => if AwardOf(applications, row, p) && Live(row.status) then row.amount else 0
  }

  /** Whether the log already holds a revocation of the award. */
  function RevokedBefore(audits: seq<AuditRow>, id: Id): bool {
    audits != [] && (RevokedBefore(audits[..|audits| - 1], id)
      || (audits[|audits| - 1].AwardRevoked? && audits[|audits| - 1].awardId == id))
  }

  /** The log's row `n` revokes an award of pool `p` that was revoked already. */
  predicate RevokedAgain(audits: seq<AuditRow>, n: nat, p: Id) {
    n < |audits| && audits[n].AwardRevoked? && audits[n].poolId == p && RevokedBefore(audits[..n], audits[n].awardId)
  }

  /** The amounts that repeated revocations added to pool `p`. */
  function Repeats(audits: seq<AuditRow>, p: Id): int {
    if audits == [] then 0
    else
      var last := audits[|audits| - 1];
      Repeats(audits[..|audits| - 1], p) + (if RevokedAgain(audits, |audits| - 1, p) then last.amount else 0)
  }

  /** Donations minus live awards. */
  ghost function Expected(db: Db, p: Id): int {
    Sum(db.donations, DonatedTo(p)) - Sum(db.awards, GrantedIn(db.applications, p))
  }

  /** The balance is donations, minus live awards, plus what repeated revocations added. */
  ghost predicate Balanced(db: Db, p: Id)
    requires p in db.pools
  {
    db.pools[p].available == Expected(db, p) + Repeats(db.audits, p)
  }

  predicate IsRevoked(awards: map<Id, Award>, id: Id) {
    id in awards && awards[id].status == Revoked
  }

  /** The log's revocations are of positive amounts and are exactly those of the Revoked awards. */
  ghost predicate RevocationsAgree(awards: map<Id, Award>, audits: seq<AuditRow>) {
    && (forall id :: RevokedBefore(audits, id) <==> IsRevoked(awards, id))
    && (forall n | 0 <= n < |audits| :: audits[n].AwardRevoked? ==> 0 < audits[n].amount)
    && (forall id | id in awards :: awards[id].status != Rejected ==> 0 < awards[id].amount)
  }

  ghost predicate RevocationsPlaced(pools: map<Id, Pool>, audits: seq<AuditRow>) {
    forall n | 0 <= n < |audits| :: audits[n].AwardRevoked? ==> audits[n].poolId in pools
  }

  ghost predicate PoolsBalance(db: Db) {
    && Legal(db) && RevocationsAgree(db.awards, db.audits) && RevocationsPlaced(db.pools, db.audits)
    && forall p | p in db.pools :: Balanced(db, p)
  }

  lemma RepeatsAppend(audits: seq<AuditRow>, row: AuditRow, p: Id)
    ensures Repeats(audits + [row], p) == Repeats(audits, p)
      + (if row.AwardRevoked? && row.poolId == p && RevokedBefore(audits, row.awardId) then row.amount else 0)
  {
    assert (audits + [row])[..|audits|] == audits;
  }

  lemma RevokedBeforeAppend(audits: seq<AuditRow>, row: AuditRow, id: Id)
    ensures RevokedBefore(audits + [row], id) <==> RevokedBefore(audits, id) || (row.AwardRevoked? && row.awardId == id)
  {
    assert (audits + [row])[..|audits|] == audits;
  }

  /** Nothing about the awards' pools changes when a row joins or a status moves. */
  lemma GrantsFollow(awards: map<Id, Award>, before: map<Id, Application>, after: map<Id, Application>, p: Id)
    requires forall id | id in awards :: AwardOf(before, awards[id], p) <==> AwardOf(after, awards[id], p)
    ensures Sum(awards, GrantedIn(before, p)) == Sum(awards, GrantedIn(after, p))
  {
    SumSame(awards, GrantedIn(before, p), GrantedIn(after, p));
  }

  lemma FundedBalances(db: Db, out: Db, q: Id, newId: Id, p: Id)
    requires Funded(db, out, q, newId) && p in db.pools && Balanced(db, p)
    ensures p in out.pools && Balanced(out, p)
  {
    SumUpdate(db.donations, DonatedTo(p), newId, out.donations[newId]);
    RepeatsAppend(db.audits, PoolFunded(q), p);
  }

  lemma DecidedBalances(db: Db, out: Db, id: Id, newId: Id, p: Id)
    requires Decided(db, out, id, newId) && p in db.pools && Balanced(db, p)
    ensures p in out.pools && Balanced(out, p)
  {
    GrantsFollow(db.awards, db.applications, out.applications, p);
    SumUpdate(db.awards, GrantedIn(out.applications, p), newId, out.awards[newId]);
    RepeatsAppend(db.audits, ApplicationDecided(id, newId), p);
  }

  lemma AwardMovedBalances(db: Db, out: Db, id: Id, p: Id)
    requires AwardMoved(db, out, id) && p in db.pools && Balanced(db, p)
    requires RevokedBefore(db.audits, id) <==> db.awards[id].status == Revoked
    ensures p in out.pools && Balanced(out, p)
  {
    SumUpdate(db.awards, GrantedIn(db.applications, p), id, out.awards[id]);
    RepeatsAppend(db.audits, out.audits[|db.audits|], p);
  }

  lemma ApplicationMadeBalances(db: Db, out: Db, newId: Id, p: Id)
    requires Legal(db) && ApplicationMade(db, out, newId) && p in db.pools && Balanced(db, p)
    ensures p in out.pools && Balanced(out, p)
  {
    GrantsFollow(db.awards, db.applications, out.applications, p);
    RepeatsAppend(db.audits, ApplicationSubmitted(newId), p);
  }

  lemma PoolMadeBalances(db: Db, out: Db, newId: Id, p: Id)
    requires PoolMade(db, out, newId) && p in db.pools && Balanced(db, p)
    ensures p in out.pools && Balanced(out, p)
  {
    RepeatsAppend(db.audits, PoolCreated(newId), p);
  }

  /** Repeated revocations add nothing to a pool exactly when none of its awards was revoked again. */
  lemma {:induction false} RepeatsZeroIff(audits: seq<AuditRow>, p: Id)
    requires forall n | 0 <= n < |audits| :: audits[n].AwardRevoked? ==> 0 < audits[n].amount
    ensures 0 <= Repeats(audits, p)
    ensures Repeats(audits, p) == 0 <==> forall n: nat | n < |audits| :: !RevokedAgain(audits, n, p)
  {
    if audits != [] {
      var earlier := audits[..|audits| - 1];
      RepeatsZeroIff(earlier, p);
      forall n: nat | n < |earlier|
        ensures RevokedAgain(audits, n, p) <==> RevokedAgain(earlier, n, p)
      {
        assert audits[..n] == earlier[..n];
      }
      assert Repeats(audits, p) == 0 <==> Repeats(earlier, p) == 0 && !RevokedAgain(audits, |audits| - 1, p);
    }
  }

  lemma SumZero<K, V>(rows: map<K, V>, weight: V -> int)
    requires forall j | j in rows :: weight(rows[j]) == 0
    ensures Sum(rows, weight) == 0
  {
    SumNonNegative(rows, weight);
    SumAtMost(rows, weight, 0);
  }

  /** A pool that is not on record yet has no donation, no award and no revocation. */
  lemma NewPoolBalances(db: Db, out: Db, p: Id)
    requires PoolsBalance(db) && PoolMade(db, out, p)
    ensures Balanced(out, p)
  {
    SumZero(db.donations, DonatedTo(p));
    SumZero(db.awards, GrantedIn(db.applications, p));
    RepeatsZeroIff(db.audits, p);
    RepeatsAppend(db.audits, PoolCreated(p), p);
  }

  /** What one more audit row, and the award it is about, do to the record of revocations. */
  lemma AppendKeepsRevocations(awards: map<Id, Award>, after: map<Id, Award>, audits: seq<AuditRow>, row: AuditRow)
    requires RevocationsAgree(awards, audits)
    requires row.AwardRevoked? ==> 0 < row.amount
    requires forall id | id in after :: after[id].status != Rejected ==> 0 < after[id].amount
    requires forall id :: IsRevoked(after, id) <==> IsRevoked(awards, id) || (row.AwardRevoked? && row.awardId == id)
    ensures RevocationsAgree(after, audits + [row])
  {
    forall id
      ensures RevokedBefore(audits + [row], id) <==> IsRevoked(after, id)
    {
      RevokedBeforeAppend(audits, row, id);
    }
  }

  lemma EffectKeepsRevocations(db: Db, out: Db, ticket: Ticket)
    requires RevocationsAgree(db.awards, db.audits) && Effect(db, out, ticket)
    ensures RevocationsAgree(out.awards, out.audits)
  {
    var row := out.audits[|db.audits|];
    assert out.audits == db.audits + [row];
    AppendKeepsRevocations(db.awards, out.awards, db.audits, row);
  }

  lemma EffectKeepsPlaces(db: Db, out: Db, ticket: Ticket)
    requires Legal(db) && RevocationsPlaced(db.pools, db.audits) && Effect(db, out, ticket)
    ensures RevocationsPlaced(out.pools, out.audits)
  {
  }

  lemma EffectBalances(db: Db, out: Db, ticket: Ticket, p: Id)
    requires PoolsBalance(db) && Effect(db, out, ticket) && p in db.pools
    ensures p in out.pools && Balanced(out, p)
  {
    match ticket
    case InsertPool(newId, _, _) => PoolMadeBalances(db, out, newId, p);
    case AddDonation(newId, row) => FundedBalances(db, out, row.poolId, newId, p);
    case InsertApplication(newId, _, _) => ApplicationMadeBalances(db, out, newId, p);
    case DecideRow(id, _, newId, _, _) => DecidedBalances(db, out, id, newId, p);
    case MoveAward(id, _, _, _, _, _, _) => AwardMovedBalances(db, out, id, p);
  }

  lemma EffectBalancesEachPool(db: Db, out: Db, ticket: Ticket, p: Id)
    requires PoolsBalance(db) && Effect(db, out, ticket) && p in out.pools
    ensures Balanced(out, p)
  {
    if p in db.pools { EffectBalances(db, out, ticket, p); } else { NewPoolBalances(db, out, p); }
  }

  /** Every effect keeps every pool's balance explained. */
  lemma EffectKeepsBalances(db: Db, out: Db, ticket: Ticket)
    requires PoolsBalance(db) && Effect(db, out, ticket)
    ensures PoolsBalance(out)
  {
    EffectKeepsLegal(db, out, ticket);
    EffectKeepsRevocations(db, out, ticket);
    EffectKeepsPlaces(db, out, ticket);
    forall p | p in out.pools
      ensures Balanced(out, p)
    {
      EffectBalancesEachPool(db, out, ticket, p);
    }
  }
}
