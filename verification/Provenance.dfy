/** Who can have made the rows of a vault, and in which currency, whatever the interleaving. */
module Provenance {
  import opened Roles
  import opened VaultModel
  import opened Effects
  import opened Idempotency

  /** The contributor owns the vault or is on its list, and paid in the vault's currency. */
  ghost predicate FairContribution(db: Db, row: Contribution) {
    && row.vaultId in db.vaults
    && (row.contributor == db.vaults[row.vaultId].owner || (row.vaultId, row.contributor) in db.contributors)
    && row.currency.AsStr() == db.vaults[row.vaultId].currency
  }

  /** The vault's owner asked for the payout, in the vault's currency. */
  ghost predicate FairPayout(db: Db, row: Payout) {
    && row.vaultId in db.vaults && row.requestedBy == db.vaults[row.vaultId].owner
    && row.currency.AsStr() == db.vaults[row.vaultId].currency
  }

  ghost predicate Fair(db: Db) {
    && (forall id | id in db.contributions :: FairContribution(db, db.contributions[id]))
    && (forall id | id in db.payouts :: FairPayout(db, db.payouts[id]))
  }

  /** The row a ticket will insert is fair already. */
  ghost predicate FairTicket(db: Db, ticket: Ticket) {
    match ticket
    case InsertContribution(_, row, _) => FairContribution(db, row)
    case InsertPayout(_, row, _) => FairPayout(db, row)
    case _ => true
  }

  ghost predicate FairSys(s: Sys) {
    Checked(s.db) && Fair(s.db) && forall call | call in s.inflight :: FairTicket(s.db, s.inflight[call])
  }

  lemma BegunIsFair(db: Db, request: Request)
    requires Begin(db, request).Ready?
    ensures FairTicket(db, Begin(db, request).ticket)
  {
  }

  /** Owners and currencies never change and contributors stay, so what was fair remains fair. */
  lemma TicketsStayFair(db: Db, later: Db, ticket: Ticket)
    requires Extends(db, later) && FairTicket(db, ticket)
    ensures FairTicket(later, ticket)
  {
  }

  lemma RowsStayFair(db: Db, later: Db)
    requires Fair(db) && Extends(db, later)
    ensures forall id | id in db.contributions :: FairContribution(later, later.contributions[id])
    ensures forall id | id in db.payouts :: FairPayout(later, later.payouts[id])
  {
    forall id | id in db.contributions
      ensures FairContribution(later, later.contributions[id])
    {
      assert FairContribution(db, db.contributions[id]);
    }
    forall id | id in db.payouts
      ensures FairPayout(later, later.payouts[id])
    {
      assert FairPayout(db, db.payouts[id]);
    }
  }

  lemma EffectKeepsFair(db: Db, out: Db, ticket: Ticket)
    requires Fair(db) && FairTicket(db, ticket) && TicketEffect(db, out, ticket)
    ensures Fair(out)
  {
    EffectExtends(db, out, ticket);
    RowsStayFair(db, out);
    TicketsStayFair(db, out, ticket);
  }

  lemma CommittedKeepsFair(s: Sys, call: nat)
    requires FairSys(s) && call in s.inflight
    ensures FairSys(Step(s, Committed(call)))
  {
    var ticket := s.inflight[call];
    var out := Commit(s.db, ticket).db;
    CommitIsAtomic(s.db, ticket);
    EffectExtends(s.db, out, ticket);
    if out != s.db { EffectKeepsFair(s.db, out, ticket); }
    forall other | other in s.inflight
      ensures FairTicket(out, s.inflight[other])
    {
      TicketsStayFair(s.db, out, s.inflight[other]);
    }
  }

  lemma ContributorAddedKeepsFair(s: Sys, v: Id, user: Id)
    requires FairSys(s)
    ensures FairSys(Step(s, ContributorAdded(v, user)))
  {
    var out := Step(s, ContributorAdded(v, user)).db;
    RowsStayFair(s.db, out);
    forall other | other in s.inflight
      ensures FairTicket(out, s.inflight[other])
    {
      TicketsStayFair(s.db, out, s.inflight[other]);
    }
  }

  /** In every interleaving, overlapping calls included: each contribution is by the vault's owner or
      a listed contributor, each payout was asked for by the owner, and all are in the vault's own
      currency, so that the vault's totals never add amounts of two currencies. */
  lemma {:induction false} EveryRunIsFair(db: Db, events: seq<Event>)
    requires Initial(db)
    ensures FairSys(Run(Sys(db, map[]), events))
  {
    if events != [] {
      var s := Run(Sys(db, map[]), events[..|events| - 1]);
      EveryRunIsFair(db, events[..|events| - 1]);
      match events[|events| - 1]
      case Started(_, request) =>
        if Begin(s.db, request).Ready? { BegunIsFair(s.db, request); }
      case Committed(call) =>
        if call in s.inflight { CommittedKeepsFair(s, call); }
      case Abandoned(_) =>
      case ContributorAdded(v, user) => ContributorAddedKeepsFair(s, v, user);
    }
  }
}
