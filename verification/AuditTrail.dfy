/** The audit log as a second account of every row's history. */
module AuditTrail {
  import opened Roles
  import opened VaultModel
  import opened MapSums
  import opened Effects
  import Contributions
  import Payouts

  /** What the audit rows of one contribution or payout say: nothing yet, a status reached along
      valid edges from Pending, or a history that does not fit together. */
  datatype Trail<S> = Absent | At(status: S) | Broken

  function TrailOfContribution(audits: seq<AuditRow>, id: Id): Trail<Contributions.Status> {
    if audits == [] then Absent
    else
      var earlier := TrailOfContribution(audits[..|audits| - 1], id);
      match audits[|audits| - 1]
      case ContributionRecorded(_, row, _) =>
        if row != id then earlier else if earlier == Absent then At(Contributions.Pending) else Broken
      case ContributionSettled(_, row, from, to) =>
        if row != id then earlier else if earlier == At(from) && Contributions.Edge(from, to) then At(to) else Broken
      case _ => earlier
  }

  function TrailOfPayout(audits: seq<AuditRow>, id: Id): Trail<Payouts.Status> {
    if audits == [] then Absent
    else
      var earlier := TrailOfPayout(audits[..|audits| - 1], id);
      match audits[|audits| - 1]
      case PayoutRequested(_, row) =>
        if row != id then earlier else if earlier == Absent then At(Payouts.Pending) else Broken
      case PayoutReviewed(_, row, before, after) =>
        if row != id then earlier
        else if earlier == At(before) && Payouts.Edge(before, after) then At(after)
        else Broken
      case _ => earlier
  }

  /** Replaying the log gives back the status of every row, and nothing for rows that do not exist. */
  ghost predicate TrailsMatch(db: Db) {
    && (forall id :: TrailOfContribution(db.audits, id)
          == if id in db.contributions then At(db.contributions[id].status) else Absent)
    && (forall id :: TrailOfPayout(db.audits, id) == if id in db.payouts then At(db.payouts[id].status) else Absent)
  }

  /** The ticket still speaks about the row it read: the audit row it carries is the one to write. */
  predicate Current(db: Db, ticket: Ticket) {
    match ticket
    case InsertContribution(id, row, audit) =>
      row.status == Contributions.Pending && audit == ContributionRecorded(row.contributor, id, row.key)
    case InsertPayout(id, row, audit) => row.status == Payouts.Pending && audit == PayoutRequested(row.requestedBy, id)
    case SettleRow(id, target, actor, _, audit) =>
      && id in db.contributions && Contributions.Edge(db.contributions[id].status, target)
      && audit == ContributionSettled(actor, id, db.contributions[id].status, target)
    case ReviewRow(id, goal, actor, _, _, audit) =>
      && id in db.payouts && Payouts.Edge(db.payouts[id].status, goal)
      && audit == PayoutReviewed(actor, id, db.payouts[id].status, goal)
  }

  lemma ContributionTrailGrows(audits: seq<AuditRow>, row: AuditRow, id: Id)
    ensures var earlier := TrailOfContribution(audits, id);
      TrailOfContribution(audits + [row], id)
        == match row
           case ContributionRecorded(_, made, _) =>
             if made != id then earlier else if earlier == Absent then At(Contributions.Pending) else Broken
           case ContributionSettled(_, made, from, to) =>
             if made != id then earlier
             else if earlier == At(from) && Contributions.Edge(from, to) then At(to)
             else Broken
           case _ => earlier
  {
    assert (audits + [row])[..|audits|] == audits;
  }

  lemma PayoutTrailGrows(audits: seq<AuditRow>, row: AuditRow, id: Id)
    ensures var earlier := TrailOfPayout(audits, id);
      TrailOfPayout(audits + [row], id)
        == match row
           case PayoutRequested(_, made) =>
             if made != id then earlier else if earlier == Absent then At(Payouts.Pending) else Broken
           case PayoutReviewed(_, made, before, after) =>
             if made != id then earlier
             else if earlier == At(before) && Payouts.Edge(before, after) then At(after)
             else Broken
           case _ => earlier
  {
    assert (audits + [row])[..|audits|] == audits;
  }

  lemma EffectKeepsTrails(db: Db, out: Db, ticket: Ticket)
    requires TrailsMatch(db) && Current(db, ticket) && TicketEffect(db, out, ticket)
    ensures TrailsMatch(out)
  {
    forall id
      ensures TrailOfContribution(out.audits, id)
        == if id in out.contributions then At(out.contributions[id].status) else Absent
    {
      ContributionTrailGrows(db.audits, ticket.audit, id);
    }
    forall id
      ensures TrailOfPayout(out.audits, id) == if id in out.payouts then At(out.payouts[id].status) else Absent
    {
      PayoutTrailGrows(db.audits, ticket.audit, id);
    }
  }

  // ---------------------------------------------------------------- how often a row can move

  function ContributionRank(): Contribution -> int {
    (row: Contribution) => Contributions.Rank(row.status)
  }

  function PayoutRank(): Payout -> int {
    (row: Payout) => Payouts.Rank(row.status)
  }

  /** The status changes on record. */
  function Changes(audits: seq<AuditRow>): nat {
    if audits == [] then 0
    else
      var last := audits[|audits| - 1];
      Changes(audits[..|audits| - 1]) + (if last.ContributionSettled? || last.PayoutReviewed? then 1 else 0)
  }

  ghost function Ranks(db: Db): int {
    Sum(db.contributions, ContributionRank()) + Sum(db.payouts, PayoutRank())
  }

  ghost predicate ChangesRanked(db: Db) {
    Changes(db.audits) <= Ranks(db)
  }

  lemma ContributionWriteRanks(db: Db, out: Db, id: Id)
    requires id in out.contributions && out.contributions == db.contributions[id := out.contributions[id]]
      && out.payouts == db.payouts
    ensures Ranks(out) == Ranks(db) + Contributions.Rank(out.contributions[id].status)
      - (if id in db.contributions then Contributions.Rank(db.contributions[id].status) else 0)
  {
    SumUpdate(db.contributions, ContributionRank(), id, out.contributions[id]);
  }

  lemma PayoutWriteRanks(db: Db, out: Db, id: Id)
    requires id in out.payouts && out.payouts == db.payouts[id := out.payouts[id]]
      && out.contributions == db.contributions
    ensures Ranks(out) == Ranks(db) + Payouts.Rank(out.payouts[id].status)
      - (if id in db.payouts then Payouts.Rank(db.payouts[id].status) else 0)
  {
    SumUpdate(db.payouts, PayoutRank(), id, out.payouts[id]);
  }

  lemma ChangesGrow(audits: seq<AuditRow>, row: AuditRow)
    ensures Changes(audits + [row])
      == Changes(audits) + (if row.ContributionSettled? || row.PayoutReviewed? then 1 else 0)
  {
    assert (audits + [row])[..|audits|] == audits;
  }

  lemma EffectKeepsRanks(db: Db, out: Db, ticket: Ticket)
    requires ChangesRanked(db) && Current(db, ticket) && TicketEffect(db, out, ticket)
    ensures ChangesRanked(out)
  {
    ChangesGrow(db.audits, ticket.audit);
    match ticket
    case InsertContribution(id, _, _) => ContributionWriteRanks(db, out, id);
    case InsertPayout(id, _, _) => PayoutWriteRanks(db, out, id);
    case SettleRow(id, _, _, _, _) => ContributionWriteRanks(db, out, id);
    case ReviewRow(id, _, _, _, _, _) => PayoutWriteRanks(db, out, id);
  }

  /** At most two status changes per contribution and four per payout. */
  lemma RankedChangesBounded(db: Db)
    requires ChangesRanked(db)
    ensures Changes(db.audits) <= 2 * |db.contributions| + 4 * |db.payouts|
  {
    SumAtMost(db.contributions, ContributionRank(), 2);
    SumAtMost(db.payouts, PayoutRank(), 4);
  }
}
