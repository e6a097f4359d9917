/** Sequential runs: every call finishes before the next one starts. */
module Solvency {
  import opened Int64
  import opened Roles
  import opened VaultModel
  import opened MapSums
  import opened Effects
  import opened VaultBooks
  import opened AuditTrail
  import opened VaultRuns
  import Contributions
  import Payouts

  // ---------------------------------------------------------------- the books of sequential runs

  lemma CallKeepsBooks(base: map<Id, Vault>, db: Db, request: Request)
    requires Books(base, db)
    ensures Books(base, Call(db, request).db)
  {
    if Begin(db, request).Ready? {
      BegunIsCurrent(db, request);
      CommitKeepsBooks(base, db, Begin(db, request).ticket);
    }
  }

  lemma {:induction false} PlayKeepsBooks(db: Db, actions: seq<Action>)
    requires Initial(db)
    ensures Books(db.vaults, Play(db, actions))
  {
    if actions == [] {
      InitialBooks(db);
    } else {
      var before := Play(db, actions[..|actions| - 1]);
      PlayKeepsBooks(db, actions[..|actions| - 1]);
      match actions[|actions| - 1]
      case Called(request) => CallKeepsBooks(db.vaults, before, request);
      case Joined(v, user) => ContributorsAreNotBooks(db.vaults, before, before.contributors + {(v, user)});
    }
  }

  /** A call that is refused, fails, or is answered from a row already at its target or from its key
      changes nothing; any other adds exactly its one audit row. */
  lemma CallsLeaveOneTrace(db: Db, request: Request)
    requires Checked(db)
    ensures var out := Call(db, request);
      if out.reply.Ok? && Begin(db, request).Ready? then out.db.audits == db.audits + [Begin(db, request).ticket.audit]
      else out.db == db
  {
    if Begin(db, request).Ready? {
      var ticket := Begin(db, request).ticket;
      BegunIsCurrent(db, request);
      FailedCommitChangesNothing(db, ticket);
      if Commit(db, ticket).reply.Ok? {
        AcceptedIsEffective(db, ticket);
        EffectAddsOneAudit(db, Commit(db, ticket).db, ticket);
      }
    }
  }

  /** A current ticket that is accepted has its whole effect. */
  lemma AcceptedIsEffective(db: Db, ticket: Ticket)
    requires Checked(db) && Current(db, ticket) && Commit(db, ticket).reply.Ok?
    ensures TicketEffect(db, Commit(db, ticket).db, ticket)
  {
    match ticket
    case InsertContribution(id, row, audit) => InsertContributionIsExact(db, id, row, audit);
    case InsertPayout(id, row, audit) => InsertPayoutIsExact(db, id, row, audit);
    case SettleRow(id, target, actor, reference, audit) => SettleIsExact(db, id, target, actor, reference, audit);
    case ReviewRow(id, goal, actor, notes, reference, audit) =>
      ReviewIsExact(db, id, goal, actor, notes, reference, audit);
  }

  lemma FailedCommitChangesNothing(db: Db, ticket: Ticket)
    ensures Commit(db, ticket).reply.Err? ==> Commit(db, ticket).db == db
  {
  }

  lemma EffectAddsOneAudit(db: Db, out: Db, ticket: Ticket)
    requires TicketEffect(db, out, ticket)
    ensures out.audits == db.audits + [ticket.audit]
  {
  }

  // ---------------------------------------------------------------- money held against money received

  function EverConfirmedIn(vaultId: Id): Contribution -> int {
    (row: Contribution) =>
      if row.vaultId == vaultId && (row.status == Contributions.Confirmed || row.status == Contributions.Reversed)
      then row.amount else 0
  }

  /** Everything ever confirmed into a vault: what it started with, what it holds, what was reversed. */
  ghost function EverConfirmed(base: map<Id, Vault>, db: Db, v: Id): int
    requires v in base
  {
    base[v].contributed + Sum(db.contributions, EverConfirmedIn(v))
  }

  function Claimed(vault: Vault): int {
    vault.locked + vault.disbursed
  }

  function Available(vault: Vault): int {
    vault.contributed - vault.locked - vault.disbursed
  }

  lemma ContributedWithinEver(base: map<Id, Vault>, db: Db, v: Id)
    requires Totals(base, db) && v in base
    ensures db.vaults[v].contributed <= EverConfirmed(base, db, v)
  {
    assert VaultTotals(base[v], db.vaults[v], v, db);
    SumMonotone(db.contributions, ConfirmedIn(v), EverConfirmedIn(v));
  }

  lemma EverConfirmedGrows(base: map<Id, Vault>, db: Db, out: Db, ticket: Ticket, v: Id)
    requires Checked(db) && v in base && Current(db, ticket) && TicketEffect(db, out, ticket)
    ensures EverConfirmed(base, db, v) <= EverConfirmed(base, out, v)
  {
    match ticket
    case InsertContribution(id, _, _) => SumUpdate(db.contributions, EverConfirmedIn(v), id, out.contributions[id]);
    case SettleRow(id, _, _, _, _) => SumUpdate(db.contributions, EverConfirmedIn(v), id, out.contributions[id]);
    case _ =>
  }

  /** The ticket approves a payout of vault `v`. */
  predicate Approves(db: Db, ticket: Ticket, v: Id) {
    && ticket.ReviewRow? && ticket.goal == Payouts.Approved
    && ticket.id in db.payouts && db.payouts[ticket.id].vaultId == v
  }

  lemma ReviewMovesClaimed(db: Db, out: Db, id: Id, target: Payouts.Status, audit: AuditRow, v: Id)
    requires Checked(db) && ReviewEffect(db, out, id, target, audit) && v in db.vaults
    ensures v in out.vaults && out.vaults[v].contributed == db.vaults[v].contributed
    ensures if target == Payouts.Approved && db.payouts[id].vaultId == v
            then Claimed(out.vaults[v]) == Claimed(db.vaults[v]) + db.payouts[id].amount
            else Claimed(out.vaults[v]) <= Claimed(db.vaults[v])
  {
  }

  /** Only an approval commits more of a vault, and exactly its amount. */
  lemma EffectMovesClaimed(db: Db, out: Db, ticket: Ticket, v: Id)
    requires Checked(db) && v in db.vaults && TicketEffect(db, out, ticket)
    ensures v in out.vaults
    ensures Approves(db, ticket, v) ==>
      Claimed(out.vaults[v]) == Claimed(db.vaults[v]) + db.payouts[ticket.id].amount
    ensures !Approves(db, ticket, v) ==> Claimed(out.vaults[v]) <= Claimed(db.vaults[v])
  {
    if ticket.ReviewRow? { ReviewMovesClaimed(db, out, ticket.id, ticket.goal, ticket.audit, v); }
  }

  /** The available-funds check passes on the very totals the ticket will change. */
  predicate FundsChecked(db: Db, ticket: Ticket) {
    ticket.ReviewRow? && ticket.goal == Payouts.Approved ==>
      && ticket.id in db.payouts && db.payouts[ticket.id].vaultId in db.vaults
      && var vault := db.vaults[db.payouts[ticket.id].vaultId];
      && Payouts.EnsureAvailableFunds(vault.contributed, vault.locked, vault.disbursed, db.payouts[ticket.id].amount)
  }

  lemma BegunIsFundsChecked(db: Db, request: Request)
    requires Begin(db, request).Ready?
    ensures FundsChecked(db, Begin(db, request).ticket)
  {
  }

  // ---------------------------------------------------------------- solvency

  lemma EffectKeepsVaultKeys(db: Db, out: Db, ticket: Ticket)
    requires TicketEffect(db, out, ticket)
    ensures out.vaults.Keys == db.vaults.Keys
  {
  }

  /** locked + disbursed stays within everything ever confirmed, and within an i64. */
  ghost predicate Covered(base: map<Id, Vault>, db: Db) {
    && db.vaults.Keys == base.Keys
    && forall v | v in base :: Claimed(db.vaults[v]) <= EverConfirmed(base, db, v) && Claimed(db.vaults[v]) <= MAX
  }

  /** When the commitments fit in an i64, a passed machine check is a passed exact check. */
  lemma CheckedFundsSuffice(vault: Vault, amount: i64)
    requires 0 <= vault.contributed && 0 <= vault.locked && 0 <= vault.disbursed && 0 < amount
    requires Claimed(vault) <= MAX
    requires Payouts.EnsureAvailableFunds(vault.contributed, vault.locked, vault.disbursed, amount)
    ensures amount <= Available(vault)
  {
  }

  lemma ApprovedFundsSuffice(db: Db, ticket: Ticket, v: Id)
    requires Checked(db) && v in db.vaults && Approves(db, ticket, v) && FundsChecked(db, ticket)
    requires Claimed(db.vaults[v]) <= MAX
    ensures db.payouts[ticket.id].amount <= Available(db.vaults[v])
  {
    CheckedFundsSuffice(db.vaults[v], db.payouts[ticket.id].amount);
  }

  lemma EffectKeepsVaultCovered(base: map<Id, Vault>, db: Db, out: Db, ticket: Ticket, v: Id)
    requires Totals(base, db) && v in base && Current(db, ticket) && FundsChecked(db, ticket)
      && TicketEffect(db, out, ticket)
    requires Claimed(db.vaults[v]) <= EverConfirmed(base, db, v) && Claimed(db.vaults[v]) <= MAX
    ensures v in out.vaults && Claimed(out.vaults[v]) <= EverConfirmed(base, out, v) && Claimed(out.vaults[v]) <= MAX
  {
    EverConfirmedGrows(base, db, out, ticket, v);
    ContributedWithinEver(base, db, v);
    EffectMovesClaimed(db, out, ticket, v);
    if Approves(db, ticket, v) { ApprovedFundsSuffice(db, ticket, v); }
  }

  lemma EffectKeepsCovered(base: map<Id, Vault>, db: Db, out: Db, ticket: Ticket)
    requires Totals(base, db) && Covered(base, db)
    requires Current(db, ticket) && FundsChecked(db, ticket) && TicketEffect(db, out, ticket)
    ensures Covered(base, out)
  {
    EffectKeepsVaultKeys(db, out, ticket);
    forall v | v in base
      ensures v in out.vaults && Claimed(out.vaults[v]) <= EverConfirmed(base, out, v) && Claimed(out.vaults[v]) <= MAX
    {
      EffectKeepsVaultCovered(base, db, out, ticket, v);
    }
  }

  /** What is committed fits in an i64, so the machine check decides as exact arithmetic would,
      and a call keeps the vaults covered. */
  lemma CallKeepsCovered(base: map<Id, Vault>, db: Db, request: Request)
    requires Totals(base, db) && Covered(base, db)
    ensures Covered(base, Call(db, request).db)
  {
    if Begin(db, request).Ready? && Call(db, request).reply.Ok? {
      BegunIsCurrent(db, request);
      BegunIsFundsChecked(db, request);
      AcceptedIsEffective(db, Begin(db, request).ticket);
      EffectKeepsCovered(base, db, Call(db, request).db, Begin(db, request).ticket);
    } else {
      CallsLeaveOneTrace(db, request);
    }
  }

  lemma ActKeepsCovered(base: map<Id, Vault>, db: Db, action: Action)
    requires Totals(base, db) && Covered(base, db)
    ensures Covered(base, Act(db, action))
  {
    if action.Called? { CallKeepsCovered(base, db, action.request); }
  }

  lemma CoveredSubtractionFits(base: map<Id, Vault>, db: Db, v: Id)
    requires WellFormed(base, db) && Covered(base, db) && v in base
    ensures MIN <= Available(db.vaults[v]) <= MAX
  {
  }

  /** In every sequential run, locked plus disbursed stays within everything ever confirmed, and
      the subtractions of the funds check never leave the i64 range. */
  lemma {:induction false} SequentialRunsStayCovered(db: Db, actions: seq<Action>)
    requires Initial(db) && Covered(db.vaults, db)
    ensures Covered(db.vaults, Play(db, actions))
    ensures forall v | v in db.vaults :: MIN <= Available(Play(db, actions).vaults[v]) <= MAX
  {
    if actions != [] {
      PlayKeepsBooks(db, actions[..|actions| - 1]);
      SequentialRunsStayCovered(db, actions[..|actions| - 1]);
      ActKeepsCovered(db.vaults, Play(db, actions[..|actions| - 1]), actions[|actions| - 1]);
    }
    PlayKeepsBooks(db, actions);
    forall v | v in db.vaults
      ensures MIN <= Available(Play(db, actions).vaults[v]) <= MAX
    {
      CoveredSubtractionFits(db.vaults, Play(db, actions), v);
    }
  }

  /** Everything the transactions of a ticket add to or take from a balance. */
  predicate SettlementFits(vault: Vault, target: Contributions.Status, amount: i64) {
    match target
    case Confirmed => vault.contributed + amount <= MAX
    case Reversed => 0 <= vault.contributed - amount
    case _ => true
  }

  predicate ReviewFits(vault: Vault, goal: Payouts.Status, amount: i64) {
    match goal
    case Approved => vault.locked + amount <= MAX
    case Completed => 0 <= vault.locked - amount && vault.disbursed + amount <= MAX
    case Failed => 0 <= vault.locked - amount
    case _ => true
  }

  lemma CoveredReviewFits(base: map<Id, Vault>, db: Db, id: Id, goal: Payouts.Status)
    requires LegalStart(base) && Totals(base, db) && Covered(base, db)
    requires id in db.payouts && Payouts.Edge(db.payouts[id].status, goal)
    requires var vault := db.vaults[db.payouts[id].vaultId]; goal == Payouts.Approved ==>
      Payouts.EnsureAvailableFunds(vault.contributed, vault.locked, vault.disbursed, db.payouts[id].amount)
    ensures ReviewFits(db.vaults[db.payouts[id].vaultId], goal, db.payouts[id].amount)
  {
    var v := db.payouts[id].vaultId;
    if Holds(db.payouts[id].status) { LockIsCovered(base, db, id); }
    if goal == Payouts.Approved { CheckedFundsSuffice(db.vaults[v], db.payouts[id].amount); }
  }

  /** In every sequential run no balance update leaves the i64 range, as long as everything ever
      confirmed into the vault, the row being confirmed included, fits in it. */
  lemma SequentialUpdatesFit(db: Db, actions: seq<Action>, request: Request)
    requires Initial(db) && Covered(db.vaults, db) && Begin(Play(db, actions), request).Ready?
    ensures var now := Play(db, actions);
      match Begin(now, request).ticket
      case SettleRow(id, target, _, _, _) =>
        && id in now.contributions && now.contributions[id].vaultId in db.vaults
        && var row := now.contributions[id];
        && row.vaultId in now.vaults
        && (EverConfirmed(db.vaults, now, row.vaultId) + row.amount <= MAX || target != Contributions.Confirmed ==>
              SettlementFits(now.vaults[row.vaultId], target, row.amount))
      case ReviewRow(id, goal, _, _, _, _) =>
        && id in now.payouts && now.payouts[id].vaultId in now.vaults
        && ReviewFits(now.vaults[now.payouts[id].vaultId], goal, now.payouts[id].amount)
      case _ => true
  {
    var now := Play(db, actions);
    PlayKeepsBooks(db, actions);
    SequentialRunsStayCovered(db, actions);
    BegunIsCurrent(now, request);
    BegunIsFundsChecked(now, request);
    TicketFits(db.vaults, now, Begin(now, request).ticket);
  }

  lemma TicketFits(base: map<Id, Vault>, db: Db, ticket: Ticket)
    requires LegalStart(base) && Totals(base, db) && Covered(base, db) && Current(db, ticket)
      && FundsChecked(db, ticket)
    ensures ticket.SettleRow? ==>
      && db.contributions[ticket.id].vaultId in base
      && var row := db.contributions[ticket.id];
      && (EverConfirmed(base, db, row.vaultId) + row.amount <= MAX || ticket.target != Contributions.Confirmed ==>
            SettlementFits(db.vaults[row.vaultId], ticket.target, row.amount))
    ensures ticket.ReviewRow? ==>
      && db.payouts[ticket.id].vaultId in db.vaults
      && ReviewFits(db.vaults[db.payouts[ticket.id].vaultId], ticket.goal, db.payouts[ticket.id].amount)
  {
    if ticket.SettleRow? {
      ContributedWithinEver(base, db, db.contributions[ticket.id].vaultId);
      if ticket.target == Contributions.Reversed { ReverseIsCovered(base, db, ticket.id); }
    } else if ticket.ReviewRow? {
      CoveredReviewFits(base, db, ticket.id, ticket.goal);
    }
  }

  // ---------------------------------------------------------------- available funds

  ghost predicate Funded(db: Db) {
    forall v | v in db.vaults :: 0 <= Available(db.vaults[v])
  }

  /** The one call that can leave a vault overdrawn: reversing a confirmed contribution larger
      than what is available, which the code only checks against the gross total. */
  predicate Overdraws(db: Db, request: Request) {
    && request.Settle? && request.settlement == Contributions.Reverse && Contributions.CanSettle(request.actor.role)
    && request.contributionId in db.contributions
    && var row := db.contributions[request.contributionId];
    && row.status == Contributions.Confirmed && row.vaultId in db.vaults
    && var vault := db.vaults[row.vaultId];
    && vault.version < MAX && row.amount <= vault.contributed && Available(vault) < row.amount
  }

  lemma SettlementMovesAvailable(db: Db, out: Db, id: Id, target: Contributions.Status, actor: Id, audit: AuditRow,
    v: Id)
    requires Checked(db) && SettleEffect(db, out, id, target, actor, audit) && v in db.vaults
    ensures v in out.vaults
    ensures Available(out.vaults[v]) == Available(db.vaults[v])
      + (if db.contributions[id].vaultId == v then Credit(target, db.contributions[id].amount) else 0)
  {
  }

  /** The ticket reverses, or approves, an amount larger than what is available in `v` by now. */
  predicate Exceeds(db: Db, ticket: Ticket, v: Id)
    requires v in db.vaults
  {
    || (ticket.SettleRow? && ticket.target == Contributions.Reversed && ticket.id in db.contributions
        && db.contributions[ticket.id].vaultId == v && Available(db.vaults[v]) < db.contributions[ticket.id].amount)
    || (Approves(db, ticket, v) && Available(db.vaults[v]) < db.payouts[ticket.id].amount)
  }

  lemma EffectKeepsVaultFundedIff(db: Db, out: Db, ticket: Ticket, v: Id)
    requires Checked(db) && v in db.vaults && 0 <= Available(db.vaults[v]) && TicketEffect(db, out, ticket)
    ensures v in out.vaults
    ensures 0 <= Available(out.vaults[v]) <==> !Exceeds(db, ticket, v)
  {
    match ticket
    case SettleRow(id, target, actor, _, audit) => SettlementMovesAvailable(db, out, id, target, actor, audit, v);
    case ReviewRow(id, goal, _, _, _, audit) => ReviewMovesClaimed(db, out, id, goal, audit, v);
    case _ =>
  }

  lemma EffectKeepsFundsIff(db: Db, out: Db, ticket: Ticket)
    requires Checked(db) && Funded(db) && TicketEffect(db, out, ticket)
    ensures Funded(out) <==> forall v | v in db.vaults :: !Exceeds(db, ticket, v)
  {
    forall v | v in db.vaults
      ensures v in out.vaults && (0 <= Available(out.vaults[v]) <==> !Exceeds(db, ticket, v))
    {
      EffectKeepsVaultFundedIff(db, out, ticket, v);
    }
    EffectKeepsVaultKeys(db, out, ticket);
  }

  /** With no assumption on overlap: a commit that changes anything keeps every vault funded if and
      only if it neither reverses nor approves more than what its vault has available by then. */
  lemma CommitKeepsFundsIff(db: Db, ticket: Ticket)
    requires Checked(db) && Funded(db) && Commit(db, ticket).db != db
    ensures Funded(Commit(db, ticket).db) <==> forall v | v in db.vaults :: !Exceeds(db, ticket, v)
  {
    CommitIsAtomic(db, ticket);
    EffectKeepsFundsIff(db, Commit(db, ticket).db, ticket);
  }

  /** The guard on the request says exactly what the ticket and its commit will do. */
  lemma OverdrawsCommits(db: Db, request: Request)
    requires Checked(db) && Overdraws(db, request)
    ensures Begin(db, request).Ready? && Commit(db, Begin(db, request).ticket).reply.Ok?
    ensures Exceeds(db, Begin(db, request).ticket, db.contributions[request.contributionId].vaultId)
  {
  }

  lemma ExceedingWasRequested(db: Db, request: Request, v: Id)
    requires Checked(db) && Funded(db) && v in db.vaults && Begin(db, request).Ready?
    requires Commit(db, Begin(db, request).ticket).reply.Ok? && Exceeds(db, Begin(db, request).ticket, v)
    ensures Overdraws(db, request)
  {
    var ticket := Begin(db, request).ticket;
    BegunIsCurrent(db, request);
    BegunIsFundsChecked(db, request);
    if Approves(db, ticket, v) {
      ApprovedFundsSuffice(db, ticket, v);
    } else {
      ReversedFits(db, ticket);
    }
  }

  lemma ReversedFits(db: Db, ticket: Ticket)
    requires ticket.SettleRow? && ticket.target == Contributions.Reversed && Current(db, ticket)
    requires Commit(db, ticket).reply.Ok?
    ensures db.contributions[ticket.id].vaultId in db.vaults
    ensures var vault := db.vaults[db.contributions[ticket.id].vaultId];
      vault.version < MAX && db.contributions[ticket.id].amount <= vault.contributed
  {
  }

  /** From a state where every vault is funded, a call leaves every vault funded if and only if it
      is not such a reversal. */
  lemma CallKeepsFundsIff(db: Db, request: Request)
    requires Checked(db) && Funded(db)
    ensures Funded(Call(db, request).db) <==> !Overdraws(db, request)
  {
    CallsLeaveOneTrace(db, request);
    if Overdraws(db, request) { OverdrawsCommits(db, request); }
    if Begin(db, request).Ready? && Call(db, request).reply.Ok? {
      var ticket := Begin(db, request).ticket;
      BegunIsCurrent(db, request);
      AcceptedIsEffective(db, ticket);
      EffectKeepsFundsIff(db, Commit(db, ticket).db, ticket);
      if v :| v in db.vaults && Exceeds(db, ticket, v) { ExceedingWasRequested(db, request, v); }
    }
  }

  /** So a sequential run that reverses nothing never commits more than a vault holds. */
  lemma {:induction false} RunsWithoutReverseStayFunded(db: Db, actions: seq<Action>)
    requires Initial(db) && Funded(db)
    requires forall n | 0 <= n < |actions| :: actions[n].Called? && actions[n].request.Settle? ==>
      actions[n].request.settlement != Contributions.Reverse
    ensures Funded(Play(db, actions))
  {
    if actions != [] {
      var before := Play(db, actions[..|actions| - 1]);
      var action := actions[|actions| - 1];
      RunsWithoutReverseStayFunded(db, actions[..|actions| - 1]);
      PlayKeepsBooks(db, actions[..|actions| - 1]);
      if action.Called? { CallKeepsFundsIff(before, action.request); }
    }
  }

  // ---------------------------------------------------------------- overlapping approvals

  /** No two calls in flight approve payouts of one vault. */
  ghost predicate OneApproval(s: Sys) {
    forall i, j, v | i in s.inflight && j in s.inflight && i != j
      && Approves(s.db, s.inflight[i], v) && Approves(s.db, s.inflight[j], v) :: false
  }

  /** The ticket cannot overdraw: it reverses nothing, and what it approves is available. */
  predicate Affordable(db: Db, ticket: Ticket) {
    && !(ticket.SettleRow? && ticket.target == Contributions.Reversed)
    && (ticket.ReviewRow? && ticket.goal == Payouts.Approved ==>
          && ticket.id in db.payouts && db.payouts[ticket.id].vaultId in db.vaults
          && db.payouts[ticket.id].amount <= Available(db.vaults[db.payouts[ticket.id].vaultId]))
  }

  predicate Reverses(event: Event) {
    event.Started? && event.request.Settle? && event.request.settlement == Contributions.Reverse
  }

  ghost predicate FundedSys(s: Sys) {
    Checked(s.db) && Funded(s.db) && forall call | call in s.inflight :: Affordable(s.db, s.inflight[call])
  }

  lemma BegunIsAffordable(db: Db, request: Request)
    requires Checked(db) && Funded(db) && Begin(db, request).Ready?
    requires !(request.Settle? && request.settlement == Contributions.Reverse)
    ensures Affordable(db, Begin(db, request).ticket)
  {
    var ticket := Begin(db, request).ticket;
    BegunIsCurrent(db, request);
    BegunIsFundsChecked(db, request);
    if ticket.ReviewRow? && ticket.goal == Payouts.Approved {
      ApprovedFundsSuffice(db, ticket, db.payouts[ticket.id].vaultId);
    }
  }

  /** Only an approval or a reversal takes from what is available. */
  lemma OthersFreeFunds(db: Db, out: Db, ticket: Ticket, v: Id)
    requires Checked(db) && v in db.vaults && TicketEffect(db, out, ticket)
    requires !Approves(db, ticket, v) && !(ticket.SettleRow? && ticket.target == Contributions.Reversed)
    ensures v in out.vaults && Available(db.vaults[v]) <= Available(out.vaults[v])
  {
    match ticket
    case SettleRow(id, target, actor, _, audit) => SettlementMovesAvailable(db, out, id, target, actor, audit, v);
    case ReviewRow(id, goal, _, _, _, audit) => ReviewMovesClaimed(db, out, id, goal, audit, v);
    case _ =>
  }

  lemma StaysAffordable(db: Db, out: Db, ticket: Ticket, other: Ticket)
    requires Checked(db) && TicketEffect(db, out, ticket) && Affordable(db, ticket) && Affordable(db, other)
    requires forall v | Approves(db, other, v) :: !Approves(db, ticket, v)
    ensures Affordable(out, other)
  {
    if other.ReviewRow? && other.goal == Payouts.Approved {
      var v := db.payouts[other.id].vaultId;
      assert Approves(db, other, v);
      OthersFreeFunds(db, out, ticket, v);
      PayoutsKeepAmounts(db, out, ticket, other.id);
    }
  }

  lemma PayoutsKeepAmounts(db: Db, out: Db, ticket: Ticket, id: Id)
    requires TicketEffect(db, out, ticket) && id in db.payouts
    ensures id in out.payouts && out.payouts[id].amount == db.payouts[id].amount
    ensures out.payouts[id].vaultId == db.payouts[id].vaultId
  {
  }

  lemma CommittedStaysFunded(s: Sys, call: nat)
    requires FundedSys(s) && OneApproval(s) && call in s.inflight
    ensures FundedSys(Sys(Commit(s.db, s.inflight[call]).db, s.inflight - {call}))
  {
    var ticket := s.inflight[call];
    var out := Commit(s.db, ticket).db;
    CommitIsAtomic(s.db, ticket);
    if out != s.db {
      EffectKeepsFundsIff(s.db, out, ticket);
      forall other | other in s.inflight - {call}
        ensures Affordable(out, s.inflight[other])
      {
        StaysAffordable(s.db, out, ticket, s.inflight[other]);
      }
    }
  }

  ghost predicate OneApprovalRun(s: Sys, events: seq<Event>) {
    forall n | 0 <= n <= |events| :: OneApproval(Run(s, events[..n]))
  }

  /** In every interleaving that reverses nothing and never has two approvals of one vault in flight,
      no vault ever commits more than it holds, whatever else overlaps. */
  lemma {:induction false} RunsWithoutRivalApprovalsStayFunded(db: Db, events: seq<Event>)
    requires Initial(db) && Funded(db) && OneApprovalRun(Sys(db, map[]), events)
    requires forall n | 0 <= n < |events| :: !Reverses(events[n])
    ensures FundedSys(Run(Sys(db, map[]), events))
  {
    var s := Sys(db, map[]);
    if events != [] {
      var earlier := events[..|events| - 1];
      forall n | 0 <= n <= |earlier|
        ensures OneApproval(Run(s, earlier[..n]))
      {
        assert earlier[..n] == events[..n];
      }
      RunsWithoutRivalApprovalsStayFunded(db, earlier);
      assert earlier[..|earlier|] == earlier;
      FundedStep(Run(s, earlier), events[|events| - 1]);
    }
  }

  lemma FundedStep(s: Sys, event: Event)
    requires FundedSys(s) && OneApproval(s) && !Reverses(event)
    ensures FundedSys(Step(s, event))
  {
    match event
    case Started(_, request) =>
      if Begin(s.db, request).Ready? { BegunIsAffordable(s.db, request); }
    case Committed(call) =>
      if call in s.inflight { CommittedStaysFunded(s, call); }
    case Abandoned(_) =>
    case ContributorAdded(_, _) =>
  }
}
