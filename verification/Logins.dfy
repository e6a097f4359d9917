/** Who gets a session: registration, login, refresh and logout on stored users, passwords and tokens
    themselves, and what a registration means for every later login. */
module Logins {
  import opened Wrappers
  import opened Roles
  import opened Sessions
  import opened Text

  /** The session a call hands out, and the token that opens it. */
  function Issued(userId: Id, id: Id, now: nat, ttl: nat): Session {
    Session(userId, Token(userId, id, now + ttl, now), now + ttl, None)
  }

  /** The tables with that session added to a chain. */
  function WithSession(auth: Auth, userId: Id, id: Id, chain: Id, now: nat): Auth {
    Auth(auth.users, auth.emails, auth.sessions[id := Issued(userId, id, now, auth.ttl)], auth.origin[id := chain],
      auth.ttl)
  }

  /** Registration: no administrators, one account per normalised address, and the account keeps the
      given password. A clash of session ids comes after the account is made. */
  lemma RegistrationIff(auth: Auth, email: string, password: string, role: Role, userId: Id, newId: Id, now: nat)
    requires auth.sessions.Keys <= auth.origin.Keys
    ensures var out := Step(auth, Register(email, password, role, userId, newId, now));
      var address := NormalizeEmail(email);
      var made := auth.(users := auth.users[userId := User(address, password, role, true)],
        emails := auth.emails[address := userId]);
      out == if role == PlatformAdmin || role == SchoolAdmin then Answer(auth, Err(NotRegisterable))
             else if address in auth.emails then Answer(auth, Err(EmailAlreadyExists))
             else if userId in auth.users then Answer(auth, Err(RepositoryFailure))
             else if newId in auth.sessions then Answer(made, Err(RepositoryFailure))
             else Answer(WithSession(made, userId, newId, newId, now), Ok(Issued(userId, newId, now, auth.ttl).token))
  {
  }

  /** The user that an address belongs to. */
  function Owner(auth: Auth, email: string): Option<Id> {
    var address := NormalizeEmail(email);
    if address in auth.emails && auth.emails[address] in auth.users then Some(auth.emails[address]) else None
  }

  /** A login succeeds exactly for a known address of an active user with that user's password, under a
      new session id, and the session is that user's. */
  lemma LoginIff(auth: Auth, email: string, password: string, newId: Id, now: nat)
    requires auth.sessions.Keys <= auth.origin.Keys
    ensures var out := Step(auth, Login(email, password, newId, now));
      var owner := Owner(auth, email);
      && (out.reply.Ok? <==>
            && owner.Some? && auth.users[owner.value].active && auth.users[owner.value].password == password
            && newId !in auth.sessions)
      && (out.reply.Ok? ==>
            && out.reply.value == Issued(owner.value, newId, now, auth.ttl).token && out.reply.value.sub == owner.value
            && out.auth == WithSession(auth, owner.value, newId, newId, now))
      && (out.reply.Err? ==>
            && out.auth == auth
            && out.reply.error == if owner == None then InvalidCredentials
                                  else if !auth.users[owner.value].active then Unauthorized
                                  else if auth.users[owner.value].password != password then InvalidCredentials
                                  else RepositoryFailure)
  {
  }

  /** The token is the stored one of a session that is neither revoked nor over. */
  predicate Presented(auth: Auth, token: Token, now: nat) {
    && token.sessionId in auth.sessions && auth.sessions[token.sessionId].token == token
    && auth.sessions[token.sessionId].userId == token.sub
    && auth.sessions[token.sessionId].revokedAt == None && now < auth.sessions[token.sessionId].expiresAt
  }

  predicate IsActive(auth: Auth, userId: Id) {
    userId in auth.users && auth.users[userId].active
  }

  /** A refresh succeeds exactly for the stored token of a session that is neither revoked nor over, of an
      active user, under a new id; the old session ends with it and the new one is the same user's. Past
      the checks the old session ends even when the refresh then fails. */
  lemma RefreshIff(auth: Auth, token: Token, decodes: bool, newId: Id, now: nat)
    requires auth.sessions.Keys <= auth.origin.Keys
    ensures var out := Step(auth, Refresh(token, decodes, newId, now));
      && (out.reply.Ok? <==>
            decodes && Presented(auth, token, now) && IsActive(auth, token.sub) && newId !in auth.sessions)
      && (decodes && Presented(auth, token, now) ==>
            var before := auth.sessions[token.sessionId];
            var ended := auth.(sessions := auth.sessions[token.sessionId := before.(revokedAt := Some(now))]);
            out == if !IsActive(auth, token.sub) then Answer(ended, Err(Unauthorized))
                   else if newId in auth.sessions then Answer(ended, Err(RepositoryFailure))
                   else Answer(WithSession(ended, token.sub, newId, auth.origin[token.sessionId], now),
                               Ok(Issued(token.sub, newId, now, auth.ttl).token)))
      && (!decodes || !Presented(auth, token, now) ==> out == Answer(auth, Err(Unauthorized)))
  {
  }

  /** A logout ends the session that the token names, if it is still open, and nothing else. */
  lemma LogoutEnds(auth: Auth, token: Token, decodes: bool, now: nat)
    requires auth.sessions.Keys <= auth.origin.Keys
    ensures var out := Step(auth, Logout(token, decodes, now));
      if !decodes then out == Answer(auth, Err(Unauthorized))
      else
        && out.reply.Ok?
        && out.auth == if token.sessionId in auth.sessions && auth.sessions[token.sessionId].revokedAt == None
                       then auth.(sessions := auth.sessions[token.sessionId :=
                         auth.sessions[token.sessionId].(revokedAt := Some(now))])
                       else auth
  {
  }

  // ---------------------------------------------------------------- accounts over runs

  predicate SameAccount(before: User, after: User) {
    after.email == before.email && after.password == before.password && after.role == before.role
  }

  /** Accounts and addresses are only added. */
  ghost predicate AccountsStay(before: Auth, after: Auth) {
    && (forall id | id in before.users :: id in after.users && SameAccount(before.users[id], after.users[id]))
    && (forall address | address in before.emails ::
          address in after.emails && after.emails[address] == before.emails[address])
  }

  lemma StepKeepsAccounts(auth: Auth, action: Action)
    requires auth.sessions.Keys <= auth.origin.Keys
    ensures AccountsStay(auth, Step(auth, action).auth)
  {
    match action
    case Register(email, password, role, userId, newId, now) =>
      RegistrationIff(auth, email, password, role, userId, newId, now);
    case Login(email, password, newId, now) => LoginIff(auth, email, password, newId, now);
    case Refresh(token, decodes, newId, now) => RefreshIff(auth, token, decodes, newId, now);
    case Logout(token, decodes, now) => LogoutEnds(auth, token, decodes, now);
    case SetActive(_, _) =>
  }

  lemma {:induction false} RunsKeepAccounts(auth: Auth, actions: seq<Action>)
    requires ChainsAgree(auth)
    ensures AccountsStay(auth, Run(auth, actions))
  {
    if actions != [] {
      RunsKeepAccounts(auth, actions[..|actions| - 1]);
      StepKeepsAccounts(Run(auth, actions[..|actions| - 1]), actions[|actions| - 1]);
    }
  }

  /** After a registration and any later run: that address logs in exactly with the registered password,
      while the user is active, and to a session of the registered user. */
  lemma RegisteredPasswordIsNeeded(auth: Auth, email: string, password: string, role: Role, userId: Id, newId: Id,
    now: nat, actions: seq<Action>, again: string, given: string, freshId: Id, later: nat)
    requires ChainsAgree(auth) && Step(auth, Register(email, password, role, userId, newId, now)).reply.Ok?
    requires NormalizeEmail(again) == NormalizeEmail(email)
    ensures ChainsAgree(Step(auth, Register(email, password, role, userId, newId, now)).auth)
    ensures var end := Run(Step(auth, Register(email, password, role, userId, newId, now)).auth, actions);
      var out := Step(end, Login(again, given, freshId, later));
      && userId in end.users
      && (out.reply.Ok? <==> given == password && end.users[userId].active && freshId !in end.sessions)
      && (out.reply.Ok? ==>
            && out.reply.value.sub == userId && freshId in out.auth.sessions
            && out.auth.sessions[freshId].userId == userId && out.auth.sessions[freshId].token == out.reply.value)
  {
    StepKeepsChains(auth, Register(email, password, role, userId, newId, now));
    RegistrationIff(auth, email, password, role, userId, newId, now);
    var made := Step(auth, Register(email, password, role, userId, newId, now)).auth;
    RunsKeepAccounts(made, actions);
    LoginIff(Run(made, actions), again, given, freshId, later);
    assert SameAccount(made.users[userId], Run(made, actions).users[userId]);
  }

  // ---------------------------------------------------------------- how every session was earned

  /** The call hands out this session: to a new account, for the right password, or for the stored token
      of an open session of the same user. */
  predicate Earns(auth: Auth, action: Action, id: Id, userId: Id) {
    match action
    case Register(_, _, role, user, newId, _) =>
      newId == id && user == userId && role != PlatformAdmin && role != SchoolAdmin && userId !in auth.users
    case Login(email, password, newId, _) =>
      newId == id && Owner(auth, email) == Some(userId) && IsActive(auth, userId)
      && auth.users[userId].password == password
    case Refresh(token, decodes, newId, now) =>
      newId == id && decodes && token.sub == userId && Presented(auth, token, now) && IsActive(auth, userId)
    case _ => false
  }

  lemma NewSessionsAreEarned(auth: Auth, action: Action, id: Id)
    requires auth.sessions.Keys <= auth.origin.Keys
    requires id in Step(auth, action).auth.sessions && id !in auth.sessions
    ensures Earns(auth, action, id, Step(auth, action).auth.sessions[id].userId)
  {
    match action
    case Register(email, password, role, userId, newId, now) =>
      RegistrationIff(auth, email, password, role, userId, newId, now);
    case Login(email, password, newId, now) => LoginIff(auth, email, password, newId, now);
    case Refresh(token, decodes, newId, now) => RefreshIff(auth, token, decodes, newId, now);
    case Logout(token, decodes, now) => LogoutEnds(auth, token, decodes, now);
    case SetActive(_, _) =>
  }

  ghost predicate WasEarned(auth: Auth, actions: seq<Action>, id: Id, userId: Id)
    requires ChainsAgree(auth)
  {
    exists n | 0 <= n < |actions| :: Earns(Run(auth, actions[..n]), actions[n], id, userId)
  }

  lemma EarnedStays(auth: Auth, earlier: seq<Action>, action: Action, id: Id, userId: Id)
    requires ChainsAgree(auth) && WasEarned(auth, earlier, id, userId)
    ensures WasEarned(auth, earlier + [action], id, userId)
  {
    var n :| 0 <= n < |earlier| && Earns(Run(auth, earlier[..n]), earlier[n], id, userId);
    assert (earlier + [action])[..n] == earlier[..n] && (earlier + [action])[n] == earlier[n];
  }

  lemma EarnedLast(auth: Auth, earlier: seq<Action>, action: Action, id: Id, userId: Id)
    requires ChainsAgree(auth) && Earns(Run(auth, earlier), action, id, userId)
    ensures WasEarned(auth, earlier + [action], id, userId)
  {
    assert (earlier + [action])[..|earlier|] == earlier && (earlier + [action])[|earlier|] == action;
  }

  /** Every session that a run adds was handed out by one of its calls, to the user it belongs to. */
  lemma {:induction false} EverySessionWasEarned(auth: Auth, actions: seq<Action>, id: Id)
    requires ChainsAgree(auth) && id in Run(auth, actions).sessions && id !in auth.sessions
    ensures WasEarned(auth, actions, id, Run(auth, actions).sessions[id].userId)
  {
    var earlier, action := actions[..|actions| - 1], actions[|actions| - 1];
    var before := Run(auth, earlier);
    var userId := Run(auth, actions).sessions[id].userId;
    assert earlier + [action] == actions;
    if id in before.sessions {
      EverySessionWasEarned(auth, earlier, id);
      StepContinues(before, action);
      assert SameSession(before.sessions[id], Run(auth, actions).sessions[id]);
      EarnedStays(auth, earlier, action, id, userId);
    } else {
      NewSessionsAreEarned(before, action, id);
      EarnedLast(auth, earlier, action, id, userId);
    }
  }

  // ---------------------------------------------------------------- addresses

  /** An address is the e-mail without the white space around it and with small ASCII letters, so all
      its spellings are one account. */
  lemma AddressSpellings(email: string, address: string)
    ensures NoCapitals(NormalizeEmail(email))
    ensures NoCapitals(address) ==> (NormalizeEmail(email) == address <==> Spells(Trim(email), address))
    ensures exists before, after :: CutsTo(email, before, Trim(email), after)
  {
    TrimCuts(email);
    forall c | c in NormalizeEmail(email)
      ensures !('A' <= c <= 'Z')
    {
      var i :| 0 <= i < |NormalizeEmail(email)| && NormalizeEmail(email)[i] == c;
      assert c == AsciiLower(Trim(email)[i]);
    }
    if NoCapitals(address) { LowersIff(Trim(email), address); }
  }
}
