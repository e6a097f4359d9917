/** Runs that the code accepts and that break what the other modules prove under their guards. */
module Races {
  import opened Wrappers
  import opened Int64
  import opened Money
  import opened Roles
  import opened VaultModel
  import opened Effects
  import opened VaultBooks
  import opened VaultRuns
  import opened Solvency
  import Contributions
  import Payouts

  lemma RunOfFour(s: Sys, a: Event, b: Event, c: Event, d: Event)
    ensures Run(s, [a, b, c, d]) == Step(Step(Step(Step(s, a), b), c), d)
  {
    assert [a, b, c, d][..3] == [a, b, c] && [a, b, c][..2] == [a, b] && [a, b][..1] == [a] && [a][..0] == [];
    assert Run(s, [a]) == Step(s, a);
    assert Run(s, [a, b]) == Step(Step(s, a), b);
    assert Run(s, [a, b, c]) == Step(Step(Step(s, a), b), c);
  }

  function Overlap(a: Request, b: Request): seq<Event> {
    [Started(0, a), Started(1, b), Committed(0), Committed(1)]
  }

  /** Two calls that both begin before either commits: the second transaction runs on what the
      first one left, with the values read before it. */
  lemma OverlapIsTwoCommits(db: Db, a: Request, b: Request)
    requires Begin(db, a).Ready? && Begin(db, b).Ready?
    ensures Run(Sys(db, map[]), Overlap(a, b)).db == Commit(Commit(db, Begin(db, a).ticket).db, Begin(db, b).ticket).db
  {
    OverlapCommits(db, a, b, Begin(db, a).ticket, Begin(db, b).ticket);
  }

  lemma OverlapCommits(db: Db, a: Request, b: Request, first: Ticket, second: Ticket)
    requires Begin(db, a) == Ready(first) && Begin(db, b) == Ready(second)
    ensures Run(Sys(db, map[]), Overlap(a, b)).db == Commit(Commit(db, first).db, second).db
  {
    RunOfFour(Sys(db, map[]), Started(0, a), Started(1, b), Committed(0), Committed(1));
    assert Step(Sys(db, map[]), Started(0, a)) == Sys(db, map[0 := first]);
    assert Step(Sys(db, map[0 := first]), Started(1, b)) == Sys(db, map[0 := first, 1 := second]);
    var third := Step(Sys(db, map[0 := first, 1 := second]), Committed(0));
    assert third.db == Commit(db, first).db && 1 in third.inflight && third.inflight[1] == second;
  }

  function SettleTicket(db: Db, id: Id, target: Contributions.Status, actor: Id): Ticket
    requires id in db.contributions
  {
    SettleRow(id, target, actor, None, ContributionSettled(actor, id, db.contributions[id].status, target))
  }

  lemma SettleBegins(db: Db, id: Id, admin: Actor, transition: Contributions.Transition)
    requires admin.role == PlatformAdmin && id in db.contributions
    requires Contributions.Edge(db.contributions[id].status, transition.Target())
    ensures Begin(db, Settle(admin, id, None, transition))
      == Ready(SettleTicket(db, id, transition.Target(), admin.userId))
  {
  }

  function ReviewTicket(db: Db, id: Id, goal: Payouts.Status, actor: Id): Ticket
    requires id in db.payouts
  {
    ReviewRow(id, goal, actor, None, None, PayoutReviewed(actor, id, db.payouts[id].status, goal))
  }

  predicate OpenSite(v: Id, site: Site) {
    site.school == Some(Payouts.SchoolVerified) && site.milestone == Some(Milestone(v, Payouts.Funded))
  }

  lemma ReviewBegins(db: Db, id: Id, admin: Actor, transition: Payouts.Transition, site: Site)
    requires Checked(db) && admin.role == PlatformAdmin && id in db.payouts && OpenSite(db.payouts[id].vaultId, site)
    requires Payouts.Edge(db.payouts[id].status, transition.Target())
    requires var vault := db.vaults[db.payouts[id].vaultId];
      db.payouts[id].amount <= Available(vault)
    ensures Begin(db, Review(admin, id, None, None, transition, site))
      == Ready(ReviewTicket(db, id, transition.Target(), admin.userId))
  {
  }

  /** Confirm and Fail of the same Pending contribution, both begun before either commits: the row
      ends Failed and its amount stays in the vault's total. */
  lemma ConfirmAndFailRace(base: map<Id, Vault>, db: Db, id: Id, admin: Actor)
    requires Totals(base, db) && admin.role == PlatformAdmin
    requires id in db.contributions && db.contributions[id].status == Contributions.Pending
    requires var vault := db.vaults[db.contributions[id].vaultId];
      vault.contributed + db.contributions[id].amount <= MAX && vault.version < MAX
    ensures var confirm := Settle(admin, id, None, Contributions.Confirm);
      var fail := Settle(admin, id, None, Contributions.Fail);
      var end := Run(Sys(db, map[]), Overlap(confirm, fail)).db;
      var v := db.contributions[id].vaultId;
      && id in end.contributions && end.contributions[id].status == Contributions.Failed
      && v in end.vaults && end.vaults[v].contributed == db.vaults[v].contributed + db.contributions[id].amount
      && !Totals(base, end)
  {
    var confirm := Settle(admin, id, None, Contributions.Confirm);
    var fail := Settle(admin, id, None, Contributions.Fail);
    SettleBegins(db, id, admin, Contributions.Confirm);
    SettleBegins(db, id, admin, Contributions.Fail);
    var first := SettleTicket(db, id, Contributions.Confirmed, admin.userId);
    var second := SettleTicket(db, id, Contributions.Failed, admin.userId);
    OverlapCommits(db, confirm, fail, first, second);
    ConfirmThenFail(base, db, id, first, second);
  }

  lemma ConfirmThenFail(base: map<Id, Vault>, db: Db, id: Id, first: Ticket, second: Ticket)
    requires Totals(base, db) && id in db.contributions && db.contributions[id].status == Contributions.Pending
    requires first.SettleRow? && first.id == id && first.target == Contributions.Confirmed
    requires second.SettleRow? && second.id == id && second.target == Contributions.Failed
    requires var vault := db.vaults[db.contributions[id].vaultId];
      vault.contributed + db.contributions[id].amount <= MAX && vault.version < MAX
    ensures var end := Commit(Commit(db, first).db, second).db;
      var v := db.contributions[id].vaultId;
      && id in end.contributions && end.contributions[id].status == Contributions.Failed
      && v in end.vaults && end.vaults[v].contributed == db.vaults[v].contributed + db.contributions[id].amount
      && !Totals(base, end)
  {
    ConfirmCredits(base, db, id, first);
    FailAfterConfirm(base, Commit(db, first).db, id, second);
  }

  lemma ConfirmCredits(base: map<Id, Vault>, db: Db, id: Id, ticket: Ticket)
    requires Totals(base, db) && id in db.contributions && db.contributions[id].status == Contributions.Pending
    requires ticket.SettleRow? && ticket.id == id && ticket.target == Contributions.Confirmed
    requires var vault := db.vaults[db.contributions[id].vaultId];
      vault.contributed + db.contributions[id].amount <= MAX && vault.version < MAX
    ensures var end := Commit(db, ticket).db;
      && Totals(base, end)
      && SettleEffect(db, end, id, Contributions.Confirmed, ticket.actor, ticket.audit)
  {
    SettleIsExact(db, id, Contributions.Confirmed, ticket.actor, ticket.reference, ticket.audit);
    assert Commit(db, ticket).reply.Ok?;
    assert |Commit(db, ticket).db.audits| == |db.audits| + 1;
    CommitKeepsTotalsIff(base, db, ticket);
  }

  lemma FailAfterConfirm(base: map<Id, Vault>, db: Db, id: Id, ticket: Ticket)
    requires Totals(base, db) && id in db.contributions && db.contributions[id].status == Contributions.Confirmed
    requires ticket.SettleRow? && ticket.id == id && ticket.target == Contributions.Failed
    ensures var end := Commit(db, ticket).db;
      && id in end.contributions && end.contributions[id].status == Contributions.Failed
      && end.vaults == db.vaults && !Totals(base, end)
  {
    var end := Commit(db, ticket).db;
    assert |end.audits| == |db.audits| + 1;
    CommitKeepsTotalsIff(base, db, ticket);
  }

  /** Approvals of two different payouts of one vault, both checked before either commits: no row
      is shared and the totals stay right, but more is locked than the vault has. */
  lemma TwoApprovalsOverdraw(db: Db, one: Id, two: Id, admin: Actor, site: Site)
    requires Checked(db) && admin.role == PlatformAdmin
    requires one != two && one in db.payouts && two in db.payouts && db.payouts[one].vaultId == db.payouts[two].vaultId
    requires db.payouts[one].status == Payouts.UnderReview && db.payouts[two].status == Payouts.UnderReview
    requires OpenSite(db.payouts[one].vaultId, site)
    requires var vault := db.vaults[db.payouts[one].vaultId];
      && db.payouts[one].amount <= Available(vault) && db.payouts[two].amount <= Available(vault)
      && Available(vault) < db.payouts[one].amount + db.payouts[two].amount <= MAX - vault.locked
      && vault.version < MAX - 1
    ensures var a := Review(admin, one, None, None, Payouts.Approve, site);
      var b := Review(admin, two, None, None, Payouts.Approve, site);
      var end := Run(Sys(db, map[]), Overlap(a, b)).db;
      db.payouts[one].vaultId in end.vaults && Available(end.vaults[db.payouts[one].vaultId]) < 0
  {
    var a := Review(admin, one, None, None, Payouts.Approve, site);
    var b := Review(admin, two, None, None, Payouts.Approve, site);
    var first := ReviewTicket(db, one, Payouts.Approved, admin.userId);
    var second := ReviewTicket(db, two, Payouts.Approved, admin.userId);
    ReviewBegins(db, one, admin, Payouts.Approve, site);
    ReviewBegins(db, two, admin, Payouts.Approve, site);
    OverlapCommits(db, a, b, first, second);
    TwoLocks(db, one, two, first, second);
  }

  lemma TwoLocks(db: Db, one: Id, two: Id, first: Ticket, second: Ticket)
    requires Checked(db) && one in db.payouts && db.payouts[one].status == Payouts.UnderReview
    requires one != two && two in db.payouts && db.payouts[two].status == Payouts.UnderReview
    requires first.ReviewRow? && first.id == one && first.goal == Payouts.Approved
    requires second.ReviewRow? && second.id == two && second.goal == Payouts.Approved
    requires db.payouts[one].vaultId == db.payouts[two].vaultId
    requires var vault := db.vaults[db.payouts[one].vaultId];
      vault.locked + db.payouts[one].amount + db.payouts[two].amount <= MAX && vault.version < MAX - 1
    ensures var v := db.payouts[one].vaultId;
      var end := Commit(Commit(db, first).db, second).db;
      v in end.vaults
      && Available(end.vaults[v]) == Available(db.vaults[v]) - db.payouts[one].amount - db.payouts[two].amount
  {
    ApprovalLocks(db, one, first);
    ApprovalLocks(Commit(db, first).db, two, second);
  }

  lemma ApprovalLocks(db: Db, id: Id, ticket: Ticket)
    requires Checked(db) && id in db.payouts && db.payouts[id].status == Payouts.UnderReview
    requires ticket.ReviewRow? && ticket.id == id && ticket.goal == Payouts.Approved
    requires var vault := db.vaults[db.payouts[id].vaultId];
      vault.locked + db.payouts[id].amount <= MAX && vault.version < MAX
    ensures Checked(Commit(db, ticket).db)
    ensures ReviewEffect(db, Commit(db, ticket).db, id, Payouts.Approved, ticket.audit)
  {
    ReviewIsExact(db, id, Payouts.Approved, ticket.actor, ticket.notes, ticket.reference, ticket.audit);
  }

  // ---------------------------------------------------------------- versions are not compared

  /** The tables differ at most in the version numbers of their vaults, none of them at its end. */
  ghost predicate SameButVersions(db: Db, other: Db) {
    && other == db.(vaults := other.vaults) && other.vaults.Keys == db.vaults.Keys
    && forall v | v in db.vaults ::
         && other.vaults[v] == db.vaults[v].(version := other.vaults[v].version)
         && db.vaults[v].version < MAX && other.vaults[v].version < MAX
  }

  /** Two vault rows that differ at most in their versions. */
  predicate SameTotals(vault: Vault, other: Vault) {
    other == vault.(version := other.version)
  }

  /** The same answer, and the same tables apart from version numbers. */
  ghost predicate Alike(one: Outcome, two: Outcome) {
    && one.reply == two.reply && two.db == one.db.(vaults := two.db.vaults)
    && two.db.vaults.Keys == one.db.vaults.Keys
    && forall v | v in one.db.vaults :: SameTotals(one.db.vaults[v], two.db.vaults[v])
  }

  lemma SettledAlike(vault: Vault, other: Vault, target: Contributions.Status, amount: i64)
    requires SameTotals(vault, other) && vault.version < MAX && other.version < MAX
    ensures var one, two := AfterSettlement(vault, target, amount), AfterSettlement(other, target, amount);
      if one.Ok? then two.Ok? && SameTotals(one.value, two.value) else two == one
  {
  }

  lemma ReviewedAlike(vault: Vault, other: Vault, goal: Payouts.Status, amount: i64)
    requires SameTotals(vault, other) && vault.version < MAX && other.version < MAX
    ensures var one, two := AfterReview(vault, goal, amount), AfterReview(other, goal, amount);
      if one.Ok? then two.Ok? && SameTotals(one.value, two.value) else two == one
  {
  }

  /** One row of each is replaced, by rows with the same totals. */
  lemma AlikeAfterWrite(vaults: map<Id, Vault>, others: map<Id, Vault>, v: Id, vault: Vault, other: Vault)
    requires others.Keys == vaults.Keys && v in vaults && SameTotals(vault, other)
    requires forall w | w in vaults :: SameTotals(vaults[w], others[w])
    ensures var one, two := vaults[v := vault], others[v := other];
      two.Keys == one.Keys && forall w | w in one :: SameTotals(one[w], two[w])
  {
  }

  lemma SettlementIgnoresVersions(db: Db, other: Db, id: Id, target: Contributions.Status, actor: Id,
    reference: Option<string>, audit: AuditRow)
    requires SameButVersions(db, other)
    ensures var one := SettleTx(db, id, target, actor, reference, audit);
      var two := SettleTx(other, id, target, actor, reference, audit);
      Alike(one, two)
  {
    if id in db.contributions && db.contributions[id].vaultId in db.vaults && db.contributions[id].status != target {
      var v := db.contributions[id].vaultId;
      var one := AfterSettlement(db.vaults[v], target, db.contributions[id].amount);
      var two := AfterSettlement(other.vaults[v], target, db.contributions[id].amount);
      SettleTxWrites(db, id, target, actor, reference, audit);
      SettleTxWrites(other, id, target, actor, reference, audit);
      SettledAlike(db.vaults[v], other.vaults[v], target, db.contributions[id].amount);
      if one.Ok? { AlikeAfterWrite(db.vaults, other.vaults, v, one.value, two.value); }
    }
  }

  lemma ReviewIgnoresVersions(db: Db, other: Db, id: Id, goal: Payouts.Status, actor: Id, notes: Option<string>,
    reference: Option<string>, audit: AuditRow)
    requires SameButVersions(db, other)
    ensures var one := ReviewTx(db, id, goal, actor, notes, reference, audit);
      var two := ReviewTx(other, id, goal, actor, notes, reference, audit);
      Alike(one, two)
  {
    if id in db.payouts && db.payouts[id].vaultId in db.vaults && db.payouts[id].status != goal {
      var v := db.payouts[id].vaultId;
      var one := AfterReview(db.vaults[v], goal, db.payouts[id].amount);
      var two := AfterReview(other.vaults[v], goal, db.payouts[id].amount);
      ReviewTxWrites(db, id, goal, actor, notes, reference, audit);
      ReviewTxWrites(other, id, goal, actor, notes, reference, audit);
      ReviewedAlike(db.vaults[v], other.vaults[v], goal, db.payouts[id].amount);
      if one.Ok? { AlikeAfterWrite(db.vaults, other.vaults, v, one.value, two.value); }
    }
  }

  /** No commit depends on a version: with other version numbers it answers the same and leaves the
      same tables, apart from version numbers. */
  lemma VersionsDoNotMatter(db: Db, other: Db, ticket: Ticket)
    requires SameButVersions(db, other)
    ensures Alike(Commit(db, ticket), Commit(other, ticket))
  {
    match ticket
    case SettleRow(id, target, actor, reference, audit) =>
      SettlementIgnoresVersions(db, other, id, target, actor, reference, audit);
    case ReviewRow(id, goal, actor, notes, reference, audit) =>
      ReviewIgnoresVersions(db, other, id, goal, actor, notes, reference, audit);
    case _ =>
  }

  /** Approvals of two payouts of one vault that can afford both, each begun after reading one version
      of the vault row: the second finds another version than it read and is accepted all the same. */
  lemma StaleVersionStillCommits(base: map<Id, Vault>, db: Db, one: Id, two: Id, admin: Actor, site: Site)
    requires Totals(base, db) && admin.role == PlatformAdmin
    requires one != two && one in db.payouts && two in db.payouts && db.payouts[one].vaultId == db.payouts[two].vaultId
    requires db.payouts[one].status == Payouts.UnderReview && db.payouts[two].status == Payouts.UnderReview
    requires OpenSite(db.payouts[one].vaultId, site)
    requires var vault := db.vaults[db.payouts[one].vaultId];
      && db.payouts[one].amount + db.payouts[two].amount <= Available(vault) && vault.version < MAX - 1
    ensures var a := Review(admin, one, None, None, Payouts.Approve, site);
      var b := Review(admin, two, None, None, Payouts.Approve, site);
      var end := Run(Sys(db, map[]), Overlap(a, b)).db;
      var v := db.payouts[one].vaultId;
      && v in end.vaults && end.vaults[v].version == db.vaults[v].version + 2
      && two in end.payouts && end.payouts[two].status == Payouts.Approved
      && Totals(base, end)
  {
    var a := Review(admin, one, None, None, Payouts.Approve, site);
    var b := Review(admin, two, None, None, Payouts.Approve, site);
    var first := ReviewTicket(db, one, Payouts.Approved, admin.userId);
    var second := ReviewTicket(db, two, Payouts.Approved, admin.userId);
    ReviewBegins(db, one, admin, Payouts.Approve, site);
    ReviewBegins(db, two, admin, Payouts.Approve, site);
    OverlapCommits(db, a, b, first, second);
    TwoApprovals(base, db, one, two, first, second);
  }

  lemma TwoApprovals(base: map<Id, Vault>, db: Db, one: Id, two: Id, first: Ticket, second: Ticket)
    requires Totals(base, db) && one in db.payouts && db.payouts[one].status == Payouts.UnderReview
    requires one != two && two in db.payouts && db.payouts[two].status == Payouts.UnderReview
    requires first.ReviewRow? && first.id == one && first.goal == Payouts.Approved
    requires second.ReviewRow? && second.id == two && second.goal == Payouts.Approved
    requires db.payouts[one].vaultId == db.payouts[two].vaultId
    requires var vault := db.vaults[db.payouts[one].vaultId];
      vault.locked + db.payouts[one].amount + db.payouts[two].amount <= MAX && vault.version < MAX - 1
    ensures var v := db.payouts[one].vaultId;
      var end := Commit(Commit(db, first).db, second).db;
      && v in end.vaults && end.vaults[v].version == db.vaults[v].version + 2
      && two in end.payouts && end.payouts[two].status == Payouts.Approved
      && Totals(base, end)
  {
    var middle := Commit(db, first).db;
    ApprovalLocks(db, one, first);
    ApprovalLocks(middle, two, second);
    TwoEffectsKeepTotals(base, db, middle, Commit(middle, second).db, one, two, first.audit, second.audit);
  }

  lemma TwoEffectsKeepTotals(base: map<Id, Vault>, db: Db, middle: Db, out: Db, one: Id, two: Id, a: AuditRow,
    b: AuditRow)
    requires Totals(base, db) && Checked(middle) && Checked(out)
    requires ReviewEffect(db, middle, one, Payouts.Approved, a) && db.payouts[one].status == Payouts.UnderReview
    requires ReviewEffect(middle, out, two, Payouts.Approved, b) && middle.payouts[two].status == Payouts.UnderReview
    ensures Totals(base, out)
  {
    ApprovalKeepsTotals(base, db, middle, one, a);
    ApprovalKeepsTotals(base, middle, out, two, b);
  }

  lemma ReviewKeepsVaults(base: map<Id, Vault>, db: Db, out: Db, id: Id, audit: AuditRow)
    requires WellFormed(base, db) && ReviewEffect(db, out, id, Payouts.Approved, audit) && Checked(out)
    ensures WellFormed(base, out)
  {
  }

  lemma ApprovalKeepsTotals(base: map<Id, Vault>, db: Db, out: Db, id: Id, audit: AuditRow)
    requires Totals(base, db) && ReviewEffect(db, out, id, Payouts.Approved, audit) && Checked(out)
    requires db.payouts[id].status == Payouts.UnderReview
    ensures Totals(base, out)
  {
    ReviewKeepsVaults(base, db, out, id, audit);
    assert CompatibleReview(Payouts.UnderReview, Payouts.Approved, Releases(db, id));
    ReviewKeepsTotalsIff(base, db, out, id, Payouts.Approved, audit);
  }

  // ---------------------------------------------------------------- the races happen

  lemma RunsJoin(s: Sys, first: seq<Event>, second: seq<Event>)
    ensures Run(s, first + second) == Run(Run(s, first), second)
  {
    if second == [] {
      assert first + second == first;
    } else {
      RunsJoin(s, first, second[..|second| - 1]);
      assert (first + second)[..|first + second| - 1] == first + second[..|second| - 1];
    }
  }

  /** A vault that its owner can pay into, with room for the amount. */
  predicate Payable(db: Db, v: Id, parent: Actor, amount: i64) {
    && v in db.vaults && db.vaults[v].currency == "USDC" && db.vaults[v].owner == parent.userId && parent.role == Parent
    && 0 < amount && db.vaults[v].contributed + amount <= MAX && db.vaults[v].version < MAX - 3
  }

  function Pay(parent: Actor, v: Id, amount: i64, id: Id): Request {
    Record(parent, Intent(v, amount, Usdc, Contributions.ManualSource, None, "first"), id)
  }

  lemma PayIsRecorded(db: Db, v: Id, parent: Actor, amount: i64, id: Id)
    requires Initial(db) && Payable(db, v, parent, amount)
    ensures Begin(db, Pay(parent, v, amount, id)).Ready?
    ensures var out := Call(db, Pay(parent, v, amount, id)).db;
      && out.vaults == db.vaults && out.payouts == map[] && id in out.contributions
      && out.contributions[id].status == Contributions.Pending && out.contributions[id].amount == amount
      && out.contributions[id].vaultId == v
  {
  }

  /** From tables without any contribution: a payment is recorded, then confirmed and failed by two
      overlapping calls, and the totals are wrong. */
  lemma ConfirmAndFailHappens(db: Db, v: Id, parent: Actor, admin: Actor, amount: i64, id: Id)
    requires Initial(db) && Payable(db, v, parent, amount) && admin.role == PlatformAdmin
    ensures var confirm := Settle(admin, id, None, Contributions.Confirm);
      var fail := Settle(admin, id, None, Contributions.Fail);
      var events := [Started(0, Pay(parent, v, amount, id)), Committed(0)] + Overlap(confirm, fail);
      !Totals(db.vaults, Run(Sys(db, map[]), events).db)
  {
    var pay := Pay(parent, v, amount, id);
    var paid := Call(db, pay).db;
    PayIsRecorded(db, v, parent, amount, id);
    InitialBooks(db);
    CallKeepsBooks(db.vaults, db, pay);
    RunsJoin(Sys(db, map[]), [Started(0, pay), Committed(0)],
      Overlap(Settle(admin, id, None, Contributions.Confirm), Settle(admin, id, None, Contributions.Fail)));
    PayRuns(db, pay);
    ConfirmAndFailRace(db.vaults, paid, id, admin);
  }

  lemma PayRuns(db: Db, request: Request)
    requires Begin(db, request).Ready?
    ensures Run(Sys(db, map[]), [Started(0, request), Committed(0)]) == Sys(Call(db, request).db, map[])
  {
    assert [Started(0, request), Committed(0)][..1] == [Started(0, request)];
    assert [Started(0, request)][..0] == [];
    assert Run(Sys(db, map[]), []) == Sys(db, map[]);
    assert Run(Sys(db, map[]), [Started(0, request)]) == Sys(db, map[0 := Begin(db, request).ticket]);
  }

  // ---------------------------------------------------------------- a vault is overdrawn

  function Ask(parent: Actor, v: Id, amount: i64, site: Site, id: Id): Request {
    RequestPayout(parent, PayoutInput(v, 0, 0, amount, Usdc, "first"), site, id)
  }

  lemma ConfirmFills(db: Db, id: Id, admin: Actor)
    requires Checked(db) && admin.role == PlatformAdmin && id in db.contributions
    requires db.contributions[id].status == Contributions.Pending
    requires var vault := db.vaults[db.contributions[id].vaultId];
      vault.contributed + db.contributions[id].amount <= MAX && vault.version < MAX
    ensures var out := Call(db, Settle(admin, id, None, Contributions.Confirm)).db;
      && SettleEffect(db, out, id, Contributions.Confirmed, admin.userId,
           ContributionSettled(admin.userId, id, Contributions.Pending, Contributions.Confirmed))
      && Checked(out)
  {
    SettleBegins(db, id, admin, Contributions.Confirm);
    SettleIsExact(db, id, Contributions.Confirmed, admin.userId, None,
      ContributionSettled(admin.userId, id, Contributions.Pending, Contributions.Confirmed));
  }

  lemma AskIsRecorded(db: Db, v: Id, parent: Actor, amount: i64, site: Site, id: Id)
    requires Checked(db) && db.payouts == map[] && v in db.vaults && OpenSite(v, site)
    requires db.vaults[v].currency == "USDC" && db.vaults[v].owner == parent.userId && parent.role == Parent
    requires 0 < amount <= Available(db.vaults[v])
    ensures var out := Call(db, Ask(parent, v, amount, site, id)).db;
      && out.vaults == db.vaults && out.contributions == db.contributions && id in out.payouts
      && out.payouts[id].status == Payouts.Pending && out.payouts[id].amount == amount && out.payouts[id].vaultId == v
      && Checked(out)
  {
  }

  lemma ReviewMoves(db: Db, id: Id, admin: Actor, transition: Payouts.Transition, site: Site)
    requires Checked(db) && admin.role == PlatformAdmin && id in db.payouts && OpenSite(db.payouts[id].vaultId, site)
    requires Payouts.Edge(db.payouts[id].status, transition.Target())
    requires transition == Payouts.MoveToReview || transition == Payouts.Approve
    requires var vault := db.vaults[db.payouts[id].vaultId];
      && db.payouts[id].amount <= Available(vault) && vault.version < MAX
      && vault.locked + db.payouts[id].amount <= MAX
    ensures var out := Call(db, Review(admin, id, None, None, transition, site)).db;
      && ReviewEffect(db, out, id, transition.Target(),
           PayoutReviewed(admin.userId, id, db.payouts[id].status, transition.Target()))
      && Checked(out)
  {
    ReviewBegins(db, id, admin, transition, site);
    ReviewIsExact(db, id, transition.Target(), admin.userId, None, None,
      PayoutReviewed(admin.userId, id, db.payouts[id].status, transition.Target()));
  }

  function OverdrawingRun(v: Id, parent: Actor, admin: Actor, amount: i64, id: Id, site: Site): seq<Action> {
    [Called(Pay(parent, v, amount, id)),
     Called(Settle(admin, id, None, Contributions.Confirm)),
     Called(Ask(parent, v, amount, site, id)),
     Called(Review(admin, id, None, None, Payouts.MoveToReview, site)),
     Called(Review(admin, id, None, None, Payouts.Approve, site)),
     Called(Settle(admin, id, None, Contributions.Reverse))]
  }

  lemma PlayOneMore(db: Db, actions: seq<Action>, action: Action)
    ensures Play(db, actions + [action]) == Act(Play(db, actions), action)
  {
    assert (actions + [action])[..|actions|] == actions;
  }

  lemma PlayOfSix(db: Db, a: Action, b: Action, c: Action, d: Action, e: Action, f: Action)
    ensures Play(db, [a, b, c, d, e, f]) == Act(Act(Act(Act(Act(Act(db, a), b), c), d), e), f)
  {
    PlayOneMore(db, [], a);
    PlayOneMore(db, [a], b);
    PlayOneMore(db, [a, b], c);
    PlayOneMore(db, [a, b, c], d);
    PlayOneMore(db, [a, b, c, d], e);
    PlayOneMore(db, [a, b, c, d, e], f);
    assert [] + [a] == [a] && [a] + [b] == [a, b] && [a, b] + [c] == [a, b, c] && [a, b, c] + [d] == [a, b, c, d];
    assert [a, b, c, d] + [e] == [a, b, c, d, e] && [a, b, c, d, e] + [f] == [a, b, c, d, e, f];
  }

  /** The payment is in, and all of it is available. */
  predicate Filled(db: Db, start: Db, v: Id, amount: i64, id: Id) {
    && v in db.vaults && v in start.vaults && db.vaults == start.vaults[v := db.vaults[v]]
    && db.vaults[v].contributed == amount && db.vaults[v].disbursed == 0
    && id in db.contributions && db.contributions[id].status == Contributions.Confirmed
    && db.contributions[id].amount == amount && db.contributions[id].vaultId == v
  }

  lemma PaymentFills(db: Db, v: Id, parent: Actor, admin: Actor, amount: i64, id: Id)
    requires Initial(db) && Payable(db, v, parent, amount) && admin.role == PlatformAdmin
    requires db.vaults[v].contributed == db.vaults[v].locked == db.vaults[v].disbursed == 0
    ensures var full := Call(Call(db, Pay(parent, v, amount, id)).db,
      Settle(admin, id, None, Contributions.Confirm)).db;
      && Checked(full) && Filled(full, db, v, amount, id) && full.vaults[v].locked == 0 && full.payouts == map[]
      && full.vaults[v].version < MAX - 2 && full.vaults[v].currency == "USDC" && full.vaults[v].owner == parent.userId
  {
    PayIsRecorded(db, v, parent, amount, id);
    PaidIsChecked(db, v, parent, amount, id);
    ConfirmFills(Call(db, Pay(parent, v, amount, id)).db, id, admin);
  }

  lemma ApprovalHolds(db: Db, start: Db, v: Id, parent: Actor, admin: Actor, amount: i64, id: Id, site: Site)
    requires Checked(db) && Filled(db, start, v, amount, id) && db.payouts == map[] && OpenSite(v, site)
    requires db.vaults[v].locked == 0 && 0 < amount && db.vaults[v].version < MAX - 1
    requires db.vaults[v].currency == "USDC" && db.vaults[v].owner == parent.userId && parent.role == Parent
    requires admin.role == PlatformAdmin
    ensures var asked := Call(db, Ask(parent, v, amount, site, id)).db;
      var read := Call(asked, Review(admin, id, None, None, Payouts.MoveToReview, site)).db;
      var held := Call(read, Review(admin, id, None, None, Payouts.Approve, site)).db;
      Checked(held) && Filled(held, start, v, amount, id) && held.vaults[v].locked == amount
      && held.vaults[v].version < MAX
  {
    AskIsRecorded(db, v, parent, amount, site, id);
    var asked := Call(db, Ask(parent, v, amount, site, id)).db;
    ReviewMoves(asked, id, admin, Payouts.MoveToReview, site);
    var read := Call(asked, Review(admin, id, None, None, Payouts.MoveToReview, site)).db;
    ReviewMoves(read, id, admin, Payouts.Approve, site);
  }

  lemma PaidIsChecked(db: Db, v: Id, parent: Actor, amount: i64, id: Id)
    requires Initial(db) && Payable(db, v, parent, amount)
    ensures Checked(Call(db, Pay(parent, v, amount, id)).db)
  {
    CommitIsAtomic(db, Begin(db, Pay(parent, v, amount, id)).ticket);
  }

  /** From tables without any contribution: a payment is confirmed, its whole amount approved for a
      payout, and the payment reversed; the vault has less than it has locked. */
  lemma OverdrawHappens(db: Db, v: Id, parent: Actor, admin: Actor, amount: i64, id: Id, site: Site)
    requires Initial(db) && Payable(db, v, parent, amount) && admin.role == PlatformAdmin && OpenSite(v, site)
    requires db.vaults[v].contributed == db.vaults[v].locked == db.vaults[v].disbursed == 0
    ensures !Funded(Play(db, OverdrawingRun(v, parent, admin, amount, id, site)))
  {
    PaymentFills(db, v, parent, admin, amount, id);
    var full := Call(Call(db, Pay(parent, v, amount, id)).db, Settle(admin, id, None, Contributions.Confirm)).db;
    ApprovalHolds(full, db, v, parent, admin, amount, id, site);
    var actions := OverdrawingRun(v, parent, admin, amount, id, site);
    PlayOfSix(db, actions[0], actions[1], actions[2], actions[3], actions[4], actions[5]);
    var held := Act(Act(Act(Act(Act(db, actions[0]), actions[1]), actions[2]), actions[3]), actions[4]);
    ReversalOverdraws(held, id, admin);
  }

  lemma ReversalOverdraws(db: Db, id: Id, admin: Actor)
    requires Checked(db) && admin.role == PlatformAdmin && id in db.contributions
    requires db.contributions[id].status == Contributions.Confirmed
    requires var vault := db.vaults[db.contributions[id].vaultId];
      db.contributions[id].amount <= vault.contributed == vault.locked && vault.version < MAX
    ensures !Funded(Call(db, Settle(admin, id, None, Contributions.Reverse)).db)
  {
    SettleIsExact(db, id, Contributions.Reversed, admin.userId, None,
      ContributionSettled(admin.userId, id, Contributions.Confirmed, Contributions.Reversed));
  }
}
