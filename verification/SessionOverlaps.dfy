/** Refreshes whose statements interleave with one another and with every other call: check, revoke,
    look up the user, insert. */
module SessionOverlaps {
  import opened Wrappers
  import opened Roles
  import opened Sessions

  /** How far a refresh in flight has come. */
  datatype Stage = Passed | Spent | Allowed

  datatype Refreshing = Refreshing(token: Token, stage: Stage)

  datatype Sys = Sys(auth: Auth, inflight: map<nat, Refreshing>)

  /** `Served` is any call but a refresh: each writes the sessions in one statement. */
  datatype Event =
    | Served(action: Action)
    | Checked(call: nat, token: Token, decodes: bool, now: nat)
    | OldRevoked(call: nat, now: nat)
    | UserRead(call: nat)
    | NewStored(call: nat, newId: Id, now: nat)
    | Abandoned(call: nat)

  ghost predicate Keyed(auth: Auth, inflight: map<nat, Refreshing>) {
    auth.origin.Keys == auth.sessions.Keys && forall call | call in inflight :: Known(auth, inflight[call])
  }

  predicate Known(auth: Auth, refreshing: Refreshing) {
    refreshing.token.sessionId in auth.sessions
  }

  ghost function After(s: Sys, event: Event): (out: Sys)
    requires Keyed(s.auth, s.inflight)
    ensures Keyed(out.auth, out.inflight)
  {
    match event
    case Served(action) =>
      if action.Refresh? then s
      else
        StepContinues(s.auth, action);
        s.(auth := Step(s.auth, action).auth)
    case Checked(call, token, decodes, now) =>
      if call in s.inflight || !decodes || !Refreshable(s.auth, token, now) then s
      else s.(inflight := s.inflight[call := Refreshing(token, Passed)])
    case OldRevoked(call, now) =>
      if call in s.inflight && s.inflight[call].stage == Passed then
        var token := s.inflight[call].token;
        Sys(Revoke(s.auth, token.sessionId, now), s.inflight[call := Refreshing(token, Spent)])
      else s
    case UserRead(call) =>
      if call in s.inflight && s.inflight[call].stage == Spent then
        var token := s.inflight[call].token;
        if Active(s.auth, token.sub) then s.(inflight := s.inflight[call := Refreshing(token, Allowed)])
        else s.(inflight := s.inflight - {call})
      else s
    case NewStored(call, newId, now) =>
      if call in s.inflight && s.inflight[call].stage == Allowed then
        var token := s.inflight[call].token;
        Sys(IssueSession(s.auth, token.sub, newId, s.auth.origin[token.sessionId], now).auth, s.inflight - {call})
      else s
    case Abandoned(call) => s.(inflight := s.inflight - {call})
  }

  ghost function RunAll(s: Sys, events: seq<Event>): (end: Sys)
    requires Keyed(s.auth, s.inflight)
    ensures Keyed(end.auth, end.inflight)
  {
    if events == [] then s else After(RunAll(s, events[..|events| - 1]), events[|events| - 1])
  }

  // ---------------------------------------------------------------- every interleaving

  lemma AfterContinues(s: Sys, event: Event)
    requires Keyed(s.auth, s.inflight)
    ensures Continues(s.auth.sessions, After(s, event).auth.sessions)
  {
    match event
    case Served(action) => StepContinues(s.auth, action);
    case OldRevoked(call, now) =>
      if call in s.inflight { RevokeContinues(s.auth, s.inflight[call].token.sessionId, now); }
    case NewStored(call, newId, now) =>
      if call in s.inflight {
        var token := s.inflight[call].token;
        IssueContinues(s.auth, token.sub, newId, s.auth.origin[token.sessionId], now);
      }
    case _ =>
  }

  /** In every interleaving, overlapping refreshes included: sessions are never removed or rewritten,
      and a revocation is never undone or moved. */
  lemma {:induction false} EveryRunContinues(s: Sys, events: seq<Event>)
    requires Keyed(s.auth, s.inflight)
    ensures Continues(s.auth.sessions, RunAll(s, events).auth.sessions)
  {
    if events != [] {
      EveryRunContinues(s, events[..|events| - 1]);
      AfterContinues(RunAll(s, events[..|events| - 1]), events[|events| - 1]);
    }
  }

  // ---------------------------------------------------------------- one refresh per chain

  function Chain(auth: Auth, refreshing: Refreshing): Id
    requires auth.origin.Keys == auth.sessions.Keys && Known(auth, refreshing)
  {
    auth.origin[refreshing.token.sessionId]
  }

  /** No two refreshes in flight are of one chain. */
  ghost predicate Exclusive(s: Sys)
    requires Keyed(s.auth, s.inflight)
  {
    forall i, j | i in s.inflight && j in s.inflight && i != j :: !SameChain(s.auth, s.inflight[i], s.inflight[j])
  }

  predicate SameChain(auth: Auth, one: Refreshing, two: Refreshing)
    requires auth.origin.Keys == auth.sessions.Keys && Known(auth, one) && Known(auth, two)
  {
    Chain(auth, one) == Chain(auth, two)
  }

  /** Before its revocation a refresh is about the last session of its chain; after it the chain has
      no live session. */
  ghost predicate Holds(auth: Auth, refreshing: Refreshing)
    requires auth.origin.Keys == auth.sessions.Keys
  {
    && Known(auth, refreshing)
    && if refreshing.stage == Passed then LastOfItsChain(auth, refreshing.token.sessionId)
       else NoneLive(auth, Chain(auth, refreshing))
  }

  ghost predicate Inv(s: Sys) {
    ChainsAgree(s.auth) && forall call | call in s.inflight :: Holds(s.auth, s.inflight[call])
  }

  /** Nothing comes to life in the chains on record, except possibly in `chain`. */
  ghost predicate Quiet(auth: Auth, out: Auth, chain: Option<Id>)
    requires auth.origin.Keys == auth.sessions.Keys && out.origin.Keys == out.sessions.Keys
  {
    && (forall id | id in auth.sessions :: id in out.sessions && out.origin[id] == auth.origin[id])
    && (forall id {:trigger Live(out.sessions, id)} | Live(out.sessions, id) ::
          || Live(auth.sessions, id)
          || (id !in auth.sessions && (out.origin[id] !in auth.sessions || Some(out.origin[id]) == chain)))
  }

  lemma HoldsStill(auth: Auth, out: Auth, chain: Option<Id>, refreshing: Refreshing)
    requires ChainsAgree(auth) && out.origin.Keys == out.sessions.Keys && Quiet(auth, out, chain)
    requires Holds(auth, refreshing) && Some(Chain(auth, refreshing)) != chain
    ensures Holds(out, refreshing)
  {
    assert Rooted(auth.sessions, auth.origin, refreshing.token.sessionId);
  }

  lemma RevokeIsQuiet(auth: Auth, id: Id, now: nat)
    requires auth.origin.Keys == auth.sessions.Keys
    ensures Quiet(auth, Revoke(auth, id, now), None)
  {
  }

  lemma IssueIsQuiet(auth: Auth, userId: Id, newId: Id, chain: Id, now: nat)
    requires auth.origin.Keys == auth.sessions.Keys && (chain in auth.sessions || chain == newId)
    ensures Quiet(auth, IssueSession(auth, userId, newId, chain, now).auth,
      if chain in auth.sessions then Some(chain) else None)
  {
  }

  lemma LoginIsQuiet(auth: Auth, userId: Id, newId: Id, now: nat)
    requires auth.origin.Keys == auth.sessions.Keys
    ensures var out := IssueSession(auth, userId, newId, newId, now).auth;
      out.origin.Keys == out.sessions.Keys && Quiet(auth, out, None)
  {
  }

  lemma ServedIsQuiet(auth: Auth, action: Action)
    requires auth.origin.Keys == auth.sessions.Keys && !action.Refresh?
    ensures Step(auth, action).auth.origin.Keys == Step(auth, action).auth.sessions.Keys
    ensures Quiet(auth, Step(auth, action).auth, None)
  {
    match action
    case Register(email, password, role, userId, newId, now) =>
      var created := auth.(users := auth.users[userId := User(NormalizeEmail(email), password, role, true)],
        emails := auth.emails[NormalizeEmail(email) := userId]);
      LoginIsQuiet(created, userId, newId, now);
    case Login(email, _, newId, now) =>
      if NormalizeEmail(email) in auth.emails { LoginIsQuiet(auth, auth.emails[NormalizeEmail(email)], newId, now); }
    case Logout(token, _, now) => RevokeIsQuiet(auth, token.sessionId, now);
    case SetActive(_, _) =>
  }

  lemma ServedKeepsInv(s: Sys, action: Action)
    requires Inv(s) && !action.Refresh?
    ensures Inv(s.(auth := Step(s.auth, action).auth))
  {
    StepKeepsChains(s.auth, action);
    ServedIsQuiet(s.auth, action);
    forall call | call in s.inflight
      ensures Holds(Step(s.auth, action).auth, s.inflight[call])
    {
      HoldsStill(s.auth, Step(s.auth, action).auth, None, s.inflight[call]);
    }
  }

  lemma CheckedHolds(auth: Auth, token: Token, now: nat)
    requires ChainsAgree(auth) && Refreshable(auth, token, now)
    ensures Holds(auth, Refreshing(token, Passed))
  {
    assert Live(auth.sessions, token.sessionId);
  }

  lemma RevokedKeepsInv(s: Sys, call: nat, now: nat)
    requires Inv(s) && call in s.inflight && s.inflight[call].stage == Passed
    ensures var token := s.inflight[call].token;
      Inv(Sys(Revoke(s.auth, token.sessionId, now), s.inflight[call := Refreshing(token, Spent)]))
  {
    var token := s.inflight[call].token;
    var out := Revoke(s.auth, token.sessionId, now);
    RevokeKeepsChains(s.auth, token.sessionId, now);
    RevokeIsQuiet(s.auth, token.sessionId, now);
    RevokedHolds(s.auth, token, now);
    forall other | other in s.inflight && other != call
      ensures Holds(out, s.inflight[other])
    {
      HoldsStill(s.auth, out, None, s.inflight[other]);
    }
  }

  lemma RevokedHolds(auth: Auth, token: Token, now: nat)
    requires ChainsAgree(auth) && Holds(auth, Refreshing(token, Passed))
    ensures Revoke(auth, token.sessionId, now).origin.Keys == Revoke(auth, token.sessionId, now).sessions.Keys
    ensures Holds(Revoke(auth, token.sessionId, now), Refreshing(token, Spent))
  {
    var out := Revoke(auth, token.sessionId, now);
    forall other {:trigger Live(out.sessions, other)} | Live(out.sessions, other)
      ensures out.origin[other] != out.origin[token.sessionId]
    {
      assert Live(auth.sessions, other);
    }
  }

  lemma StoredKeepsInv(s: Sys, call: nat, newId: Id, now: nat)
    requires Inv(s) && Keyed(s.auth, s.inflight) && Exclusive(s)
    requires call in s.inflight && s.inflight[call].stage == Allowed
    ensures var token := s.inflight[call].token;
      Inv(Sys(IssueSession(s.auth, token.sub, newId, s.auth.origin[token.sessionId], now).auth, s.inflight - {call}))
  {
    var token := s.inflight[call].token;
    var chain := s.auth.origin[token.sessionId];
    var out := IssueSession(s.auth, token.sub, newId, chain, now).auth;
    assert Rooted(s.auth.sessions, s.auth.origin, token.sessionId);
    if newId !in s.auth.sessions { InsertKeepsChainsIff(s.auth, token.sub, newId, chain, now); }
    IssueIsQuiet(s.auth, token.sub, newId, chain, now);
    forall other | other in s.inflight - {call}
      ensures Holds(out, s.inflight[other])
    {
      assert !SameChain(s.auth, s.inflight[other], s.inflight[call]);
      HoldsStill(s.auth, out, Some(chain), s.inflight[other]);
    }
  }

  lemma AfterKeepsInv(s: Sys, event: Event)
    requires Inv(s) && Keyed(s.auth, s.inflight) && Exclusive(s)
    ensures Inv(After(s, event))
  {
    match event
    case Served(action) =>
      if !action.Refresh? { ServedKeepsInv(s, action); }
    case Checked(call, token, decodes, now) =>
      if Refreshable(s.auth, token, now) { CheckedHolds(s.auth, token, now); }
    case OldRevoked(call, now) =>
      if call in s.inflight && s.inflight[call].stage == Passed { RevokedKeepsInv(s, call, now); }
    case UserRead(_) =>
    case NewStored(call, newId, now) =>
      if call in s.inflight && s.inflight[call].stage == Allowed { StoredKeepsInv(s, call, newId, now); }
    case Abandoned(_) =>
  }

  ghost predicate ExclusiveRun(s: Sys, events: seq<Event>)
    requires Keyed(s.auth, s.inflight)
  {
    forall n | 0 <= n <= |events| :: Exclusive(RunAll(s, events[..n]))
  }

  lemma {:induction false} ExclusiveRunsKeepChains(auth: Auth, events: seq<Event>)
    requires ChainsAgree(auth) && ExclusiveRun(Sys(auth, map[]), events)
    ensures Inv(RunAll(Sys(auth, map[]), events))
  {
    var s := Sys(auth, map[]);
    if events != [] {
      var earlier := events[..|events| - 1];
      forall n | 0 <= n <= |earlier|
        ensures Exclusive(RunAll(s, earlier[..n]))
      {
        assert earlier[..n] == events[..n];
      }
      ExclusiveRunsKeepChains(auth, earlier);
      assert earlier[..|earlier|] == earlier;
      AfterKeepsInv(RunAll(s, earlier), events[|events| - 1]);
    }
  }

  /** In every interleaving of statements in which no two refreshes of one chain are in flight, two live
      sessions of one chain are the same session. */
  lemma OneLiveSessionPerChain(users: map<Id, User>, emails: map<string, Id>, ttl: nat, events: seq<Event>, a: Id,
    b: Id)
    requires ExclusiveRun(Sys(Auth(users, emails, map[], map[], ttl), map[]), events)
    requires var end := RunAll(Sys(Auth(users, emails, map[], map[], ttl), map[]), events).auth;
      Live(end.sessions, a) && Live(end.sessions, b) && end.origin[a] == end.origin[b]
    ensures a == b
  {
    ExclusiveRunsKeepChains(Auth(users, emails, map[], map[], ttl), events);
  }

  // ---------------------------------------------------------------- one after the other

  /** The four statements with nothing in between are the refresh of the sequential model. */
  lemma StatementsAreRefresh(auth: Auth, token: Token, decodes: bool, newId: Id, now: nat)
    requires auth.origin.Keys == auth.sessions.Keys
    ensures var checked := After(Sys(auth, map[]), Checked(0, token, decodes, now));
      After(After(After(checked, OldRevoked(0, now)), UserRead(0)), NewStored(0, newId, now))
        == Sys(RefreshStep(auth, token, decodes, newId, now).auth, map[])
  {
    if decodes && Refreshable(auth, token, now) {
      var revoked := Revoke(auth, token.sessionId, now);
      assert After(Sys(auth, map[]), Checked(0, token, decodes, now)) == Sys(auth, map[0 := Refreshing(token, Passed)]);
      assert After(Sys(auth, map[0 := Refreshing(token, Passed)]), OldRevoked(0, now))
        == Sys(revoked, map[0 := Refreshing(token, Spent)]);
      if Active(revoked, token.sub) {
        assert After(Sys(revoked, map[0 := Refreshing(token, Spent)]), UserRead(0))
          == Sys(revoked, map[0 := Refreshing(token, Allowed)]);
      } else {
        assert After(Sys(revoked, map[0 := Refreshing(token, Spent)]), UserRead(0)) == Sys(revoked, map[]);
      }
    }
  }
}
