/** The ledger against the contributed total and against the contributions. */
module Ledger {
  import opened Roles
  import opened VaultModel
  import opened Effects
  import Contributions

  function Signed(entry: LedgerEntry): int {
    if entry.kind == ContributionConfirmed then entry.amount else 0 - entry.amount
  }

  /** Confirmed minus reversed amounts of one vault. */
  function Balance(ledger: seq<LedgerEntry>, v: Id): int {
    if ledger == [] then 0
    else
      var last := ledger[|ledger| - 1];
      Balance(ledger[..|ledger| - 1], v) + (if last.vaultId == v then Signed(last) else 0)
  }

  /** The contributed total is its start plus the ledger; every entry shows the running total of
      its vault at its place; nothing on record is negative. */
  ghost predicate LedgerAgrees(base: map<Id, Vault>, db: Db) {
    && Checked(db) && db.vaults.Keys == base.Keys
    && (forall v | v in base :: db.vaults[v].contributed == base[v].contributed + Balance(db.ledger, v))
    && (forall n | 0 <= n < |db.ledger| :: EntryAgrees(base, db.ledger, n))
  }

  ghost predicate EntryAgrees(base: map<Id, Vault>, ledger: seq<LedgerEntry>, n: nat)
    requires n < |ledger|
  {
    && ledger[n].vaultId in base && 0 < ledger[n].amount && 0 <= ledger[n].balanceAfter
    && ledger[n].balanceAfter == base[ledger[n].vaultId].contributed + Balance(ledger[..n + 1], ledger[n].vaultId)
  }

  lemma AppendKeepsEntries(base: map<Id, Vault>, ledger: seq<LedgerEntry>, entry: LedgerEntry)
    requires forall n | 0 <= n < |ledger| :: EntryAgrees(base, ledger, n)
    requires EntryAgrees(base, ledger + [entry], |ledger|)
    ensures forall n | 0 <= n < |ledger + [entry]| :: EntryAgrees(base, ledger + [entry], n)
  {
    forall n | 0 <= n < |ledger|
      ensures EntryAgrees(base, ledger + [entry], n)
    {
      assert EntryAgrees(base, ledger, n);
      assert (ledger + [entry])[..n + 1] == ledger[..n + 1];
    }
  }

  lemma BalanceAppend(ledger: seq<LedgerEntry>, entry: LedgerEntry, v: Id)
    ensures Balance(ledger + [entry], v) == Balance(ledger, v) + (if entry.vaultId == v then Signed(entry) else 0)
  {
    assert (ledger + [entry])[..|ledger|] == ledger;
  }

  /** A settlement either posts no entry and moves no total, or posts its amount as it moves. */
  ghost predicate Posted(db: Db, out: Db, v: Id) {
    && v in db.vaults && v in out.vaults && out.vaults == db.vaults[v := out.vaults[v]]
    && if out.ledger == db.ledger then out.vaults[v].contributed == db.vaults[v].contributed
       else
         && |out.ledger| == |db.ledger| + 1 && out.ledger[..|db.ledger|] == db.ledger
         && var entry := out.ledger[|db.ledger|];
         && entry.vaultId == v && 0 < entry.amount && entry.balanceAfter == out.vaults[v].contributed
         && out.vaults[v].contributed == db.vaults[v].contributed + Signed(entry)
  }

  lemma SettlementPosts(db: Db, out: Db, id: Id, target: Contributions.Status, actor: Id, audit: AuditRow)
    requires Checked(db) && SettleEffect(db, out, id, target, actor, audit)
    ensures Posted(db, out, db.contributions[id].vaultId)
  {
  }

  lemma PostingKeepsLedger(base: map<Id, Vault>, db: Db, out: Db, v: Id)
    requires LedgerAgrees(base, db) && Posted(db, out, v) && Checked(out)
    ensures LedgerAgrees(base, out)
  {
    if out.ledger != db.ledger {
      var entry := out.ledger[|db.ledger|];
      assert out.ledger == db.ledger + [entry];
      forall w | w in base
        ensures out.vaults[w].contributed == base[w].contributed + Balance(out.ledger, w)
      {
        BalanceAppend(db.ledger, entry, w);
      }
      assert EntryAgrees(base, out.ledger, |db.ledger|) by { assert out.ledger[..|db.ledger| + 1] == out.ledger; }
      AppendKeepsEntries(base, db.ledger, entry);
    }
  }

  lemma SettlementKeepsLedger(base: map<Id, Vault>, db: Db, out: Db, id: Id, target: Contributions.Status, actor: Id,
    audit: AuditRow)
    requires LedgerAgrees(base, db) && SettleEffect(db, out, id, target, actor, audit) && Checked(out)
    ensures LedgerAgrees(base, out)
  {
    SettlementPosts(db, out, id, target, actor, audit);
    PostingKeepsLedger(base, db, out, db.contributions[id].vaultId);
  }

  /** Whatever the interleaving: no ticket's transaction can part the ledger from the total. */
  lemma CommitKeepsLedger(base: map<Id, Vault>, db: Db, ticket: Ticket)
    requires LedgerAgrees(base, db)
    ensures LedgerAgrees(base, Commit(db, ticket).db)
  {
    var out := Commit(db, ticket).db;
    CommitIsAtomic(db, ticket);
    if out != db {
      match ticket
      case SettleRow(id, target, actor, _, audit) => SettlementKeepsLedger(base, db, out, id, target, actor, audit);
      case ReviewRow(_, _, _, _, _, _) =>
      case _ =>
    }
  }

  /** In every interleaving, overlapping calls included: the ledger accounts for the contributed
      total and every running balance is right. */
  lemma {:induction false} EveryRunKeepsLedger(db: Db, events: seq<Event>)
    requires Initial(db)
    ensures LedgerAgrees(db.vaults, Run(Sys(db, map[]), events).db)
  {
    if events != [] {
      var s := Run(Sys(db, map[]), events[..|events| - 1]);
      EveryRunKeepsLedger(db, events[..|events| - 1]);
      var event := events[|events| - 1];
      if event.Committed? && event.call in s.inflight { CommitKeepsLedger(db.vaults, s.db, s.inflight[event.call]); }
    }
  }

  /** And from any point of any run on, no vault's disbursed total ever goes down and no ledger
      entry or audit row is ever changed or lost. */
  lemma {:induction false} RunsOnlyAdd(s: Sys, events: seq<Event>)
    requires Checked(s.db)
    ensures var end := Run(s, events).db;
      && Checked(end) && end.vaults.Keys == s.db.vaults.Keys
      && (forall v | v in s.db.vaults :: s.db.vaults[v].disbursed <= end.vaults[v].disbursed)
      && s.db.ledger <= end.ledger && s.db.audits <= end.audits
  {
    if events != [] {
      var before := Run(s, events[..|events| - 1]);
      RunsOnlyAdd(s, events[..|events| - 1]);
      var event := events[|events| - 1];
      if event.Committed? && event.call in before.inflight { CommitOnlyAdds(before.db, before.inflight[event.call]); }
    }
  }

  lemma CommitOnlyAdds(db: Db, ticket: Ticket)
    requires Checked(db)
    ensures var end := Commit(db, ticket).db;
      && Checked(end) && end.vaults.Keys == db.vaults.Keys
      && (forall v | v in db.vaults :: db.vaults[v].disbursed <= end.vaults[v].disbursed)
      && db.ledger <= end.ledger && db.audits <= end.audits
  {
    CommitIsAtomic(db, ticket);
    EffectOnlyAdds(db, Commit(db, ticket).db, ticket);
  }

  lemma EffectOnlyAdds(db: Db, end: Db, ticket: Ticket)
    requires Checked(db) && (end == db || TicketEffect(db, end, ticket))
    ensures end.vaults.Keys == db.vaults.Keys && db.ledger <= end.ledger && db.audits <= end.audits
    ensures forall v | v in db.vaults :: db.vaults[v].disbursed <= end.vaults[v].disbursed
  {
  }

  // ---------------------------------------------------------------- credited once

  /** The entries of one kind for one contribution. */
  function Entries(ledger: seq<LedgerEntry>, id: Id, kind: EntryKind): nat {
    if ledger == [] then 0
    else
      var last := ledger[|ledger| - 1];
      Entries(ledger[..|ledger| - 1], id, kind) + (if last.contributionId == id && last.kind == kind then 1 else 0)
  }

  predicate HasStatus(db: Db, id: Id, status: Contributions.Status) {
    id in db.contributions && db.contributions[id].status == status
  }

  /** A contribution is credited once when it is Confirmed or Reversed and never otherwise, and
      debited once when it is Reversed and never otherwise. */
  ghost predicate CreditedOnce(db: Db) {
    && (forall id :: Entries(db.ledger, id, ContributionConfirmed)
          == if HasStatus(db, id, Contributions.Confirmed) || HasStatus(db, id, Contributions.Reversed) then 1 else 0)
    && (forall id :: Entries(db.ledger, id, ContributionReversed)
          == if HasStatus(db, id, Contributions.Reversed) then 1 else 0)
  }

  lemma SettlementKeepsCredits(db: Db, out: Db, id: Id, target: Contributions.Status, actor: Id, audit: AuditRow)
    requires CreditedOnce(db) && SettleEffect(db, out, id, target, actor, audit)
    requires Contributions.Edge(db.contributions[id].status, target)
    ensures CreditedOnce(out)
  {
    if out.ledger != db.ledger {
      assert out.ledger[..|db.ledger|] == db.ledger;
    }
  }
}
