/** Runs of the scholarship services, overlapping and sequential, and what they keep. */
module ScholarshipRuns {
  import opened Wrappers
  import opened Int64
  import opened Roles
  import opened Scholarships
  import opened ScholarshipEffects
  import opened ScholarshipBalances
  import opened ScholarshipAwards

  /** Everything the scholarship tables should agree on. */
  ghost predicate Books(db: Db) {
    && PoolsBalance(db) && Paired(db.applications, db.awards) && Matched(db.pools, db.applications)
    && OneCurrency(db) && OneDonationPerKey(db.donations)
  }

  ghost predicate SysInv(s: Sys) {
    Books(s.db) && AllCurrent(s.db, s.inflight)
  }

  lemma EffectKeepsBooks(db: Db, out: Db, ticket: Ticket)
    requires Books(db) && Effect(db, out, ticket)
    ensures Books(out)
  {
    EffectKeepsBalances(db, out, ticket);
    EffectKeepsPairs(db, out, ticket);
    EffectKeepsMatches(db, out, ticket);
    EffectKeepsCurrency(db, out, ticket);
    EffectKeepsDonationKeys(db, out, ticket);
  }

  /** The transaction of a current ticket keeps all the books. */
  lemma CommitKeepsBooks(db: Db, ticket: Ticket)
    requires Books(db) && Current(db, ticket)
    ensures Books(Commit(db, ticket).db)
  {
    CommitIsExact(db, ticket);
    if Commit(db, ticket).reply.Ok? { EffectKeepsBooks(db, Commit(db, ticket).db, ticket); }
  }

  lemma ClosingKeepsBalance(db: Db, p: Id, q: Id)
    requires q in db.pools && Balanced(db, q)
    ensures q in ClosePool(db, p).pools && Balanced(ClosePool(db, p), q)
  {
  }

  lemma ClosingKeepsBalances(db: Db, p: Id)
    requires PoolsBalance(db)
    ensures PoolsBalance(ClosePool(db, p))
  {
    forall q | q in ClosePool(db, p).pools
      ensures Balanced(ClosePool(db, p), q)
    {
      ClosingKeepsBalance(db, p, q);
    }
  }

  lemma ClosingKeepsBooks(db: Db, p: Id)
    requires Books(db)
    ensures Books(ClosePool(db, p))
  {
    ClosingKeepsBalances(db, p);
    ClosingKeepsMatches(db, p);
    ClosingKeepsCurrency(db, p);
  }

  lemma ClosingKeepsCurrent(db: Db, p: Id, ticket: Ticket)
    requires Current(db, ticket)
    ensures Current(ClosePool(db, p), ticket)
  {
  }

  // ---------------------------------------------------------------- calls that do not disturb each other

  lemma BalanceStays(db: Db, out: Db, ticket: Ticket, p: Id)
    requires Effect(db, out, ticket) && Fits(db, out, ticket) && p in db.pools
    requires Moves(db, ticket) != Some(p) || LeavesBalance(ticket)
    ensures p in out.pools && out.pools[p].available == db.pools[p].available
    ensures out.pools[p].currency == db.pools[p].currency
  {
  }

  /** The award written is the one the ticket carries. */
  predicate Fits(db: Db, out: Db, ticket: Ticket) {
    ticket.DecideRow? ==> ticket.newId in out.awards && out.awards[ticket.newId].status == ticket.award.status
  }

  lemma CommitFits(db: Db, ticket: Ticket)
    requires Commit(db, ticket).reply.Ok?
    ensures Fits(db, Commit(db, ticket).db, ticket)
  {
  }

  lemma ApplicationStays(db: Db, out: Db, ticket: Ticket, id: Id)
    requires Effect(db, out, ticket) && id in db.applications
    requires !(ticket.DecideRow? && ticket.id == id)
    ensures id in out.applications && out.applications[id] == db.applications[id]
  {
  }

  lemma DecisionStaysCurrent(db: Db, out: Db, ticket: Ticket, other: Ticket)
    requires Effect(db, out, ticket) && Fits(db, out, ticket) && other.DecideRow? && Current(db, other)
    requires !Disturbs(db, ticket, other)
    ensures Current(out, other)
  {
    ApplicationStays(db, out, ticket, other.id);
    BalanceStays(db, out, ticket, db.applications[other.id].poolId);
  }

  /** Nothing that the move of award `id` reads has changed. */
  predicate SamePlace(db: Db, out: Db, id: Id) {
    && id in db.awards && id in out.awards && out.awards[id] == db.awards[id]
    && var a := db.awards[id].applicationId;
    && a in db.applications && a in out.applications && out.applications[a].poolId == db.applications[a].poolId
    && var p := db.applications[a].poolId;
    && p in db.pools && p in out.pools && out.pools[p].available == db.pools[p].available
  }

  lemma AwardStays(db: Db, out: Db, ticket: Ticket, id: Id)
    requires Effect(db, out, ticket) && id in db.awards && !(ticket.MoveAward? && ticket.id == id)
    ensures id in out.awards && out.awards[id] == db.awards[id]
    ensures forall a | a in db.applications ::
      a in out.applications && out.applications[a].poolId == db.applications[a].poolId
  {
  }

  lemma MoveStaysCurrent(db: Db, out: Db, ticket: Ticket, other: Ticket)
    requires Effect(db, out, ticket) && Fits(db, out, ticket) && other.MoveAward? && Current(db, other)
    requires !Disturbs(db, ticket, other)
    ensures Current(out, other)
  {
    AwardStays(db, out, ticket, other.id);
    BalanceStays(db, out, ticket, db.applications[db.awards[other.id].applicationId].poolId);
    PlacedMoveIsCurrent(db, out, other.id, other.target, other.payout, other.vault, other.balance, other.audit);
  }

  lemma PlacedMoveIsCurrent(db: Db, out: Db, id: Id, target: AwardStatus, payout: Option<Id>, vault: Option<Id>,
    balance: i64, audit: AuditRow)
    requires SamePlace(db, out, id) && CurrentMove(db, id, target, payout, vault, balance, audit)
    ensures CurrentMove(out, id, target, payout, vault, balance, audit)
  {
  }

  /** A transaction leaves every ticket current that it does not disturb. */
  lemma OthersStayCurrent(db: Db, out: Db, ticket: Ticket, other: Ticket)
    requires Effect(db, out, ticket) && Fits(db, out, ticket) && Current(db, other) && !Disturbs(db, ticket, other)
    ensures Current(out, other)
  {
    match other
    case DecideRow(_, _, _, _, _) => DecisionStaysCurrent(db, out, ticket, other);
    case MoveAward(_, _, _, _, _, _, _) => MoveStaysCurrent(db, out, ticket, other);
    case _ =>
  }

  ghost predicate AllCurrent(db: Db, inflight: map<nat, Ticket>) {
    forall call | call in inflight :: Current(db, inflight[call])
  }

  lemma OtherCallsStayCurrent(s: Sys, call: nat, out: Db)
    requires Exclusive(s) && call in s.inflight && AllCurrent(s.db, s.inflight)
    requires out == s.db || (Effect(s.db, out, s.inflight[call]) && Fits(s.db, out, s.inflight[call]))
    ensures AllCurrent(out, s.inflight - {call})
  {
    forall other | other in s.inflight - {call}
      ensures Current(out, s.inflight[other])
    {
      if out != s.db { OthersStayCurrent(s.db, out, s.inflight[call], s.inflight[other]); }
    }
  }

  lemma CommittedKeepsInv(s: Sys, call: nat)
    requires SysInv(s) && Exclusive(s) && call in s.inflight
    ensures SysInv(Sys(Commit(s.db, s.inflight[call]).db, s.inflight - {call}))
  {
    CommitKeepsBooks(s.db, s.inflight[call]);
    CommitIsExact(s.db, s.inflight[call]);
    if Commit(s.db, s.inflight[call]).reply.Ok? { CommitFits(s.db, s.inflight[call]); }
    OtherCallsStayCurrent(s, call, Commit(s.db, s.inflight[call]).db);
  }

  lemma ClosedKeepsInv(s: Sys, p: Id)
    requires SysInv(s)
    ensures SysInv(s.(db := ClosePool(s.db, p)))
  {
    ClosingKeepsBooks(s.db, p);
    forall call | call in s.inflight
      ensures Current(ClosePool(s.db, p), s.inflight[call])
    {
      ClosingKeepsCurrent(s.db, p, s.inflight[call]);
    }
  }

  lemma OneMoreCurrent(db: Db, inflight: map<nat, Ticket>, call: nat, ticket: Ticket)
    requires AllCurrent(db, inflight) && Current(db, ticket)
    ensures AllCurrent(db, inflight[call := ticket])
  {
  }

  lemma StartedKeepsInv(s: Sys, call: nat, request: Request)
    requires SysInv(s) && Begin(s.db, request).Ready?
    ensures SysInv(s.(inflight := s.inflight[call := Begin(s.db, request).ticket]))
  {
    BegunIsCurrent(s.db, request);
    OneMoreCurrent(s.db, s.inflight, call, Begin(s.db, request).ticket);
  }

  lemma StepKeepsInv(s: Sys, event: Event)
    requires SysInv(s) && Exclusive(s)
    ensures SysInv(Step(s, event))
  {
    match event
    case Started(call, request) =>
      if Begin(s.db, request).Ready? { StartedKeepsInv(s, call, request); }
    case Committed(call) =>
      if call in s.inflight { CommittedKeepsInv(s, call); }
    case Abandoned(_) =>
    case PoolClosed(p) => ClosedKeepsInv(s, p);
  }

  lemma EmptyBooks()
    ensures Books(EMPTY)
  {
  }

  /** In every interleaving in which, while a call that will overwrite a balance is in flight, no other
      call in flight changes that balance, that application or that award, all the books agree after
      every step. */
  lemma {:induction false} ExclusiveRunsKeepBooks(events: seq<Event>)
    requires ExclusiveRun(Sys(EMPTY, map[]), events)
    ensures SysInv(Run(Sys(EMPTY, map[]), events))
  {
    var s := Sys(EMPTY, map[]);
    if events == [] {
      EmptyBooks();
    } else {
      var earlier := events[..|events| - 1];
      forall n | 0 <= n <= |earlier|
        ensures Exclusive(Run(s, earlier[..n]))
      {
        assert earlier[..n] == events[..n];
      }
      ExclusiveRunsKeepBooks(earlier);
      assert earlier[..|earlier|] == earlier;
      StepKeepsInv(Run(s, earlier), events[|events| - 1]);
    }
  }

  // ---------------------------------------------------------------- sequential runs

  lemma CallKeepsBooks(db: Db, request: Request)
    requires Books(db)
    ensures Books(Call(db, request).db)
  {
    if Begin(db, request).Ready? {
      BegunIsCurrent(db, request);
      CommitKeepsBooks(db, Begin(db, request).ticket);
    }
  }

  lemma {:induction false} PlayKeepsBooks(actions: seq<Action>)
    ensures Books(Play(EMPTY, actions))
  {
    if actions == [] {
      EmptyBooks();
    } else {
      var before := Play(EMPTY, actions[..|actions| - 1]);
      PlayKeepsBooks(actions[..|actions| - 1]);
      match actions[|actions| - 1]
      case Called(request) => CallKeepsBooks(before, request);
      case Shut(p) => ClosingKeepsBooks(before, p);
    }
  }

  /** An error changes nothing; an accepted call adds exactly one audit row. */
  lemma CallsLeaveOneTrace(db: Db, request: Request)
    requires Legal(db)
    ensures var out := Call(db, request);
      if out.reply.Err? then out.db == db
      else |out.db.audits| == |db.audits| + 1 && db.audits <= out.db.audits
  {
    if Begin(db, request).Ready? {
      BegunIsCurrent(db, request);
      CommitIsExact(db, Begin(db, request).ticket);
    }
  }

  // ---------------------------------------------------------------- the pool balance

  ghost predicate Conserved(db: Db, p: Id)
    requires p in db.pools
  {
    db.pools[p].available == Expected(db, p)
  }

  lemma BooksConserveIff(db: Db, p: Id)
    requires PoolsBalance(db) && p in db.pools
    ensures 0 <= db.pools[p].available && Expected(db, p) <= db.pools[p].available
    ensures Conserved(db, p) <==> forall n: nat | n < |db.audits| :: !RevokedAgain(db.audits, n, p)
  {
    RepeatsZeroIff(db.audits, p);
    assert Balanced(db, p);
  }

  /** In such a run a pool never goes negative, never holds less than its donations minus its
      Approved and Disbursed awards, and holds exactly that if and only if none of its awards was
      revoked again after being revoked. */
  lemma PoolConservedIff(events: seq<Event>, p: Id)
    requires ExclusiveRun(Sys(EMPTY, map[]), events) && p in Run(Sys(EMPTY, map[]), events).db.pools
    ensures var db := Run(Sys(EMPTY, map[]), events).db;
      && 0 <= db.pools[p].available && Expected(db, p) <= db.pools[p].available
      && (Conserved(db, p) <==> forall n: nat | n < |db.audits| :: !RevokedAgain(db.audits, n, p))
  {
    ExclusiveRunsKeepBooks(events);
    BooksConserveIff(Run(Sys(EMPTY, map[]), events).db, p);
  }

  /** The request revokes an award of pool `p` that is Revoked already, and the sum still fits. */
  predicate RevokesAgain(db: Db, request: Request, p: Id)
    requires p in db.pools
  {
    && request.Revoke? && CanReview(request.actor.role)
    && request.awardId in db.awards && db.awards[request.awardId].status == Revoked
    && PoolOfApplication(db.applications, db.awards[request.awardId].applicationId) == Some(p)
    && db.pools[p].available + db.awards[request.awardId].amount <= MAX
  }

  /** A second revocation is accepted, and adds the award's amount to the pool once more. */
  lemma RevokedAgainPays(db: Db, request: Request, p: Id)
    requires Legal(db) && p in db.pools && RevokesAgain(db, request, p)
    ensures var out := Call(db, request);
      && out.reply == Ok(request.awardId) && p in out.db.pools
      && out.db.pools[p].available == db.pools[p].available + db.awards[request.awardId].amount
      && out.db.awards[request.awardId].status == Revoked
  {
  }

  /** The ticket of such a request. */
  predicate RepeatsRevocation(db: Db, ticket: Ticket, p: Id) {
    ticket.MoveAward? && ticket.target == Revoked && IsRevoked(db.awards, ticket.id) && Moves(db, ticket) == Some(p)
  }

  lemma MoreRepeats(db: Db, out: Db, ticket: Ticket, p: Id)
    requires PoolsBalance(db) && Effect(db, out, ticket) && p in db.pools
    ensures Repeats(out.audits, p) == Repeats(db.audits, p)
      + (if RepeatsRevocation(db, ticket, p) then db.awards[ticket.id].amount else 0)
  {
    RepeatsAppend(db.audits, out.audits[|db.audits|], p);
    assert out.audits == db.audits + [out.audits[|db.audits|]];
  }

  lemma EffectKeepsConservedIff(db: Db, out: Db, ticket: Ticket, p: Id)
    requires PoolsBalance(db) && Effect(db, out, ticket) && p in db.pools && Conserved(db, p)
    ensures p in out.pools
    ensures Conserved(out, p) <==> !RepeatsRevocation(db, ticket, p)
  {
    assert Balanced(db, p);
    EffectBalances(db, out, ticket, p);
    MoreRepeats(db, out, ticket, p);
  }

  lemma OnlyRevokeRevokes(db: Db, request: Request)
    requires Begin(db, request).Ready?
    ensures var ticket := Begin(db, request).ticket;
      ticket.MoveAward? && ticket.target == Revoked <==> request.Revoke?
  {
  }

  lemma AcceptedRevocationFits(db: Db, actor: Actor, id: Id)
    requires Legal(db) && Call(db, Revoke(actor, id)).reply.Ok?
    ensures id in db.awards && db.awards[id].applicationId in db.applications && CanReview(actor.role)
    ensures BeginRevoke(db, actor, id).Ready? && BeginRevoke(db, actor, id).ticket.MoveAward?
    ensures BeginRevoke(db, actor, id).ticket.id == id
    ensures var p := db.applications[db.awards[id].applicationId].poolId;
      p in db.pools && db.pools[p].available + db.awards[id].amount <= MAX
  {
  }

  lemma AcceptedRepeatIff(db: Db, request: Request, p: Id)
    requires Legal(db) && p in db.pools && Call(db, request).reply.Ok?
    ensures RevokesAgain(db, request, p) <==> RepeatsRevocation(db, Begin(db, request).ticket, p)
  {
    OnlyRevokeRevokes(db, request);
    if request.Revoke? { AcceptedRevocationFits(db, request.actor, request.awardId); }
  }

  /** From a conserved pool, a call leaves it conserved if and only if it is not such a revocation. */
  lemma CallKeepsConservedIff(db: Db, request: Request, p: Id)
    requires PoolsBalance(db) && p in db.pools && Conserved(db, p)
    ensures p in Call(db, request).db.pools
    ensures Conserved(Call(db, request).db, p) <==> !RevokesAgain(db, request, p)
  {
    CallsLeaveOneTrace(db, request);
    if Call(db, request).reply.Ok? {
      BegunIsCurrent(db, request);
      CommitIsExact(db, Begin(db, request).ticket);
      EffectKeepsConservedIff(db, Call(db, request).db, Begin(db, request).ticket, p);
      AcceptedRepeatIff(db, request, p);
    } else if RevokesAgain(db, request, p) {
      RevokedAgainPays(db, request, p);
    }
  }

  // ---------------------------------------------------------------- awards

  /** In such a run an application has at most one award and has one exactly when it is decided; a
      Rejected award goes with a declined application and any other with an accepted one. */
  lemma AwardsPairWithDecisions(events: seq<Event>, id: Id)
    requires ExclusiveRun(Sys(EMPTY, map[]), events) && id in Run(Sys(EMPTY, map[]), events).db.applications
    ensures var db := Run(Sys(EMPTY, map[]), events).db;
      && (IsDecided(db.applications[id].status) <==> exists a :: AwardFor(db.awards, a, id))
      && forall a | AwardFor(db.awards, a, id) ::
           && (db.awards[a].status == Rejected <==> db.applications[id].status == Declined)
           && forall b | AwardFor(db.awards, b, id) :: a == b
  {
    ExclusiveRunsKeepBooks(events);
  }

  // ---------------------------------------------------------------- sequential runs are exclusive

  function Halves(action: Action): seq<Event> {
    match action
    case Called(request) => [Started(0, request), Committed(0)]
    case Shut(p) => [PoolClosed(p)]
  }

  function Spread(actions: seq<Action>): seq<Event> {
    if actions == [] then [] else Spread(actions[..|actions| - 1]) + Halves(actions[|actions| - 1])
  }

  lemma RunOneMore(s: Sys, events: seq<Event>, event: Event)
    ensures Run(s, events + [event]) == Step(Run(s, events), event)
  {
    assert (events + [event])[..|events|] == events;
  }

  lemma ExclusiveOneMore(s: Sys, events: seq<Event>, event: Event)
    requires ExclusiveRun(s, events) && Exclusive(Run(s, events + [event]))
    ensures ExclusiveRun(s, events + [event])
  {
    var longer := events + [event];
    forall n | 0 <= n <= |longer|
      ensures Exclusive(Run(s, longer[..n]))
    {
      if n <= |events| { assert longer[..n] == events[..n]; } else { assert longer[..n] == longer; }
    }
  }

  lemma HalvesAct(s: Sys, events: seq<Event>, db: Db, action: Action)
    requires ExclusiveRun(s, events) && Run(s, events) == Sys(db, map[])
    ensures Run(s, events + Halves(action)) == Sys(Act(db, action), map[])
    ensures ExclusiveRun(s, events + Halves(action))
  {
    match action
    case Called(request) =>
      var started, committed := Started(0, request), Committed(0);
      RunOneMore(s, events, started);
      RunOneMore(s, events + [started], committed);
      ExclusiveOneMore(s, events, started);
      ExclusiveOneMore(s, events + [started], committed);
      assert events + Halves(action) == events + [started] + [committed];
    case Shut(p) =>
      RunOneMore(s, events, PoolClosed(p));
      ExclusiveOneMore(s, events, PoolClosed(p));
  }

  /** Every sequential run is an exclusive run with the same result. */
  lemma {:induction false} PlayIsAnExclusiveRun(db: Db, actions: seq<Action>)
    ensures Run(Sys(db, map[]), Spread(actions)) == Sys(Play(db, actions), map[])
    ensures ExclusiveRun(Sys(db, map[]), Spread(actions))
  {
    if actions != [] {
      var earlier := actions[..|actions| - 1];
      PlayIsAnExclusiveRun(db, earlier);
      HalvesAct(Sys(db, map[]), Spread(earlier), Play(db, earlier), actions[|actions| - 1]);
    }
  }
}
