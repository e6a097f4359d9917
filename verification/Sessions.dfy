/** Refresh sessions: register, login, refresh rotation and logout. Tokens are signed records that
    nobody else can make; a stored hash verifies exactly the token it was made from. */
module Sessions {
  import opened Wrappers
  import opened Roles
  import opened Text

  datatype User = User(email: string, password: string, role: Role, active: bool)

  datatype Token = Token(sub: Id, sessionId: Id, expiresAt: nat, issuedAt: nat)

  datatype Session = Session(userId: Id, token: Token, expiresAt: nat, revokedAt: Option<nat>)

  datatype AuthError = EmailAlreadyExists | InvalidCredentials | Unauthorized | NotRegisterable | RepositoryFailure

  /** `origin` names the session that started each session's rotation chain. It is bookkeeping for
      the properties: no code reads it. */
  datatype Auth = Auth(
    users: map<Id, User>, emails: map<string, Id>, sessions: map<Id, Session>, origin: map<Id, Id>, ttl: nat)

  datatype Answer = Answer(auth: Auth, reply: Result<Token, AuthError>)

  datatype Action =
    | Register(email: string, password: string, role: Role, userId: Id, newId: Id, now: nat)
    | Login(email: string, password: string, newId: Id, now: nat)
    | Refresh(token: Token, decodes: bool, newId: Id, now: nat)
    | Logout(token: Token, decodes: bool, now: nat)
    | SetActive(userId: Id, active: bool)

  function NormalizeEmail(email: string): string {
    ToAsciiLower(Trim(email))
  }

  /** INSERT of a live session in the chain `chain`; the primary key must be new. */
  function IssueSession(auth: Auth, userId: Id, newId: Id, chain: Id, now: nat): Answer {
    if newId in auth.sessions then Answer(auth, Err(RepositoryFailure))
    else
      var token := Token(userId, newId, now + auth.ttl, now);
      Answer(auth.(sessions := auth.sessions[newId := Session(userId, token, now + auth.ttl, None)],
        origin := auth.origin[newId := chain]),
        Ok(token))
  }

  /** UPDATE … WHERE id = … AND revoked_at IS NULL. */
  function Revoke(auth: Auth, id: Id, now: nat): Auth {
    if id in auth.sessions && auth.sessions[id].revokedAt.None?
    then auth.(sessions := auth.sessions[id := auth.sessions[id].(revokedAt := Some(now))])
    else auth
  }

  predicate Active(auth: Auth, userId: Id) {
    userId in auth.users && auth.users[userId].active
  }

  function RegisterStep(auth: Auth, email: string, password: string, role: Role, userId: Id, newId: Id,
    now: nat): Answer
  {
    var normalized := NormalizeEmail(email);
    if role == PlatformAdmin || role == SchoolAdmin then Answer(auth, Err(NotRegisterable))
    else if normalized in auth.emails then Answer(auth, Err(EmailAlreadyExists))
    else if userId in auth.users then Answer(auth, Err(RepositoryFailure))
    else
      var created := auth.(users := auth.users[userId := User(normalized, password, role, true)],
        emails := auth.emails[normalized := userId]);
      IssueSession(created, userId, newId, newId, now)
  }

  function LoginStep(auth: Auth, email: string, password: string, newId: Id, now: nat): Answer {
    var normalized := NormalizeEmail(email);
    if normalized !in auth.emails || auth.emails[normalized] !in auth.users then Answer(auth, Err(InvalidCredentials))
    else
      var userId := auth.emails[normalized];
      if !auth.users[userId].active then Answer(auth, Err(Unauthorized))
      else if auth.users[userId].password != password then Answer(auth, Err(InvalidCredentials))
      else IssueSession(auth, userId, newId, newId, now)
  }

  predicate Refreshable(auth: Auth, token: Token, now: nat) {
    && token.sessionId in auth.sessions
    && var session := auth.sessions[token.sessionId];
    && session.userId == token.sub && session.revokedAt.None? && now < session.expiresAt && session.token == token
  }

  /** What a refresh does once its checks have passed: the old session is revoked before the user is
      looked up and the new session stored. */
  function Rotate(auth: Auth, token: Token, newId: Id, now: nat): Answer
    requires auth.sessions.Keys <= auth.origin.Keys && token.sessionId in auth.sessions
  {
    var revoked := Revoke(auth, token.sessionId, now);
    if !Active(revoked, token.sub) then Answer(revoked, Err(Unauthorized))
    else IssueSession(revoked, token.sub, newId, auth.origin[token.sessionId], now)
  }

  function RefreshStep(auth: Auth, token: Token, decodes: bool, newId: Id, now: nat): Answer
    requires auth.sessions.Keys <= auth.origin.Keys
  {
    if !decodes || !Refreshable(auth, token, now) then
      Answer(auth, Err(Unauthorized)) else Rotate(auth, token, newId, now)
  }

  /** The session that started the chain of `id` is itself on record. */
  predicate Rooted(sessions: map<Id, Session>, origin: map<Id, Id>, id: Id)
    requires id in origin
  {
    origin[id] in sessions
  }

  ghost predicate ChainMaps(sessions: map<Id, Session>, origin: map<Id, Id>) {
    && origin.Keys == sessions.Keys
    && (forall id {:trigger Rooted(sessions, origin, id)} | id in sessions :: Rooted(sessions, origin, id))
    && (forall id {:trigger sessions[id].token} | id in sessions ::
          sessions[id].token.sessionId == id && sessions[id].token.sub == sessions[id].userId)
    && (forall a, b {:trigger sessions[a].revokedAt, sessions[b].revokedAt} | a in sessions && b in sessions ::
          origin[a] == origin[b] && sessions[a].revokedAt.None? && sessions[b].revokedAt.None? ==> a == b)
  }

  /** Everything the chains rely on. */
  ghost predicate ChainsAgree(auth: Auth) {
    ChainMaps(auth.sessions, auth.origin)
  }

  function Step(auth: Auth, action: Action): Answer
    requires auth.sessions.Keys <= auth.origin.Keys
  {
    match action
    case Register(email, password, role, userId, newId, now) =>
      RegisterStep(auth, email, password, role, userId, newId, now)
    case Login(email, password, newId, now) => LoginStep(auth, email, password, newId, now)
    case Refresh(token, decodes, newId, now) => RefreshStep(auth, token, decodes, newId, now)
    case Logout(token, decodes, now) =>
      if !decodes then Answer(auth, Err(Unauthorized)) else Answer(Revoke(auth, token.sessionId, now), Ok(token))
    case SetActive(userId, active) =>
      if userId in auth.users
      then Answer(auth.(users := auth.users[userId := auth.users[userId].(active := active)]), Err(Unauthorized))
      else Answer(auth, Err(Unauthorized))
  }

  lemma RevokeKeepsChains(auth: Auth, id: Id, now: nat)
    requires ChainsAgree(auth)
    ensures ChainsAgree(Revoke(auth, id, now))
  {
    var out := Revoke(auth, id, now);
    forall other | other in out.sessions
      ensures Rooted(out.sessions, out.origin, other)
    {
      assert Rooted(auth.sessions, auth.origin, other);
    }
  }

  /** A new session joins a chain that has no live session left, or starts one of its own. */
  lemma IssueKeepsChains(auth: Auth, userId: Id, newId: Id, chain: Id, now: nat)
    requires ChainsAgree(auth)
    requires chain == newId || chain in auth.sessions
    requires chain in auth.sessions ==> forall id {:trigger auth.sessions[id].revokedAt} | id in auth.sessions ::
      auth.origin[id] == chain ==> auth.sessions[id].revokedAt.Some?
    ensures ChainsAgree(IssueSession(auth, userId, newId, chain, now).auth)
  {
    if newId !in auth.sessions {
      var out := IssueSession(auth, userId, newId, chain, now).auth;
      forall other | other in out.sessions
        ensures Rooted(out.sessions, out.origin, other)
        ensures other != newId ==> out.origin[other] in auth.sessions
      {
        if other != newId { assert Rooted(auth.sessions, auth.origin, other); }
      }
    }
  }

  lemma RefreshKeepsChains(auth: Auth, token: Token, decodes: bool, newId: Id, now: nat)
    requires ChainsAgree(auth)
    ensures ChainsAgree(RefreshStep(auth, token, decodes, newId, now).auth)
  {
    if decodes && Refreshable(auth, token, now) {
      var revoked := Revoke(auth, token.sessionId, now);
      RevokeKeepsChains(auth, token.sessionId, now);
      assert Rooted(auth.sessions, auth.origin, token.sessionId);
      IssueKeepsChains(revoked, token.sub, newId, auth.origin[token.sessionId], now);
    }
  }

  lemma RegisterKeepsChains(auth: Auth, email: string, password: string, role: Role, userId: Id, newId: Id, now: nat)
    requires ChainsAgree(auth)
    ensures ChainsAgree(RegisterStep(auth, email, password, role, userId, newId, now).auth)
  {
    var normalized := NormalizeEmail(email);
    if newId !in auth.sessions {
      IssueKeepsChains(auth.(users := auth.users[userId := User(normalized, password, role, true)],
        emails := auth.emails[normalized := userId]), userId, newId, newId, now);
    }
  }

  lemma LoginKeepsChains(auth: Auth, email: string, password: string, newId: Id, now: nat)
    requires ChainsAgree(auth)
    ensures ChainsAgree(LoginStep(auth, email, password, newId, now).auth)
  {
    if newId !in auth.sessions && NormalizeEmail(email) in auth.emails {
      IssueKeepsChains(auth, auth.emails[NormalizeEmail(email)], newId, newId, now);
    }
  }

  lemma StepKeepsChains(auth: Auth, action: Action)
    requires ChainsAgree(auth)
    ensures ChainsAgree(Step(auth, action).auth)
  {
    match action
    case Register(email, password, role, userId, newId, now) =>
      RegisterKeepsChains(auth, email, password, role, userId, newId, now);
    case Login(email, password, newId, now) => LoginKeepsChains(auth, email, password, newId, now);
    case Refresh(token, decodes, newId, now) => RefreshKeepsChains(auth, token, decodes, newId, now);
    case Logout(token, _, now) => RevokeKeepsChains(auth, token.sessionId, now);
    case SetActive(_, _) =>
  }

  ghost function Run(auth: Auth, actions: seq<Action>): (end: Auth)
    requires ChainsAgree(auth)
    ensures ChainsAgree(end)
  {
    if actions == [] then auth
    else
      var before := Run(auth, actions[..|actions| - 1]);
      StepKeepsChains(before, actions[|actions| - 1]);
      Step(before, actions[|actions| - 1]).auth
  }

  /** In every run from empty tables, each rotation chain has at most one unrevoked session. */
  lemma OneLiveSessionPerChain(users: map<Id, User>, emails: map<string, Id>, ttl: nat, actions: seq<Action>, a: Id,
    b: Id)
    requires var end := Run(Auth(users, emails, map[], map[], ttl), actions);
      && a in end.sessions && b in end.sessions && end.origin[a] == end.origin[b]
      && end.sessions[a].revokedAt.None? && end.sessions[b].revokedAt.None?
    ensures a == b
  {
  }

  predicate SameSession(before: Session, after: Session) {
    after == before.(revokedAt := after.revokedAt) && (before.revokedAt.Some? ==> after.revokedAt == before.revokedAt)
  }

  /** Sessions are never removed or rewritten, and a revocation is never undone or moved. */
  ghost predicate Continues(before: map<Id, Session>, after: map<Id, Session>) {
    forall id | id in before :: id in after && SameSession(before[id], after[id])
  }

  lemma RevokeContinues(auth: Auth, id: Id, now: nat)
    ensures Continues(auth.sessions, Revoke(auth, id, now).sessions)
  {
  }

  lemma IssueContinues(auth: Auth, userId: Id, newId: Id, chain: Id, now: nat)
    ensures Continues(auth.sessions, IssueSession(auth, userId, newId, chain, now).auth.sessions)
  {
  }

  lemma RefreshContinues(auth: Auth, token: Token, decodes: bool, newId: Id, now: nat)
    requires auth.sessions.Keys <= auth.origin.Keys
    ensures Continues(auth.sessions, RefreshStep(auth, token, decodes, newId, now).auth.sessions)
  {
    if decodes && Refreshable(auth, token, now) {
      RevokeContinues(auth, token.sessionId, now);
      IssueContinues(Revoke(auth, token.sessionId, now), token.sub, newId, auth.origin[token.sessionId], now);
    }
  }

  lemma RegisterContinues(auth: Auth, email: string, password: string, role: Role, userId: Id, newId: Id, now: nat)
    ensures Continues(auth.sessions, RegisterStep(auth, email, password, role, userId, newId, now).auth.sessions)
  {
    IssueContinues(auth.(users := auth.users[userId := User(NormalizeEmail(email), password, role, true)],
      emails := auth.emails[NormalizeEmail(email) := userId]), userId, newId, newId, now);
  }

  lemma LoginContinues(auth: Auth, email: string, password: string, newId: Id, now: nat)
    ensures Continues(auth.sessions, LoginStep(auth, email, password, newId, now).auth.sessions)
  {
    if NormalizeEmail(email) in auth.emails {
      IssueContinues(auth, auth.emails[NormalizeEmail(email)], newId, newId, now);
    }
  }

  lemma StepContinues(auth: Auth, action: Action)
    requires auth.sessions.Keys <= auth.origin.Keys
    ensures Continues(auth.sessions, Step(auth, action).auth.sessions)
  {
    match action
    case Register(email, password, role, userId, newId, now) =>
      RegisterContinues(auth, email, password, role, userId, newId, now);
    case Login(email, password, newId, now) => LoginContinues(auth, email, password, newId, now);
    case Refresh(token, decodes, newId, now) => RefreshContinues(auth, token, decodes, newId, now);
    case Logout(token, _, now) => RevokeContinues(auth, token.sessionId, now);
    case SetActive(_, _) =>
  }

  lemma {:induction false} RunsContinue(auth: Auth, actions: seq<Action>)
    requires ChainsAgree(auth)
    ensures Continues(auth.sessions, Run(auth, actions).sessions)
  {
    if actions != [] {
      RunsContinue(auth, actions[..|actions| - 1]);
      StepContinues(Run(auth, actions[..|actions| - 1]), actions[|actions| - 1]);
    }
  }

  lemma RefreshRevokes(auth: Auth, token: Token, newId: Id, now: nat)
    requires ChainsAgree(auth) && Refreshable(auth, token, now)
    ensures var once := RefreshStep(auth, token, true, newId, now).auth;
      token.sessionId in once.sessions && once.sessions[token.sessionId].revokedAt == Some(now)
  {
  }

  lemma StaysRevoked(auth: Auth, actions: seq<Action>, id: Id)
    requires ChainsAgree(auth) && id in auth.sessions && auth.sessions[id].revokedAt.Some?
    ensures var end := Run(auth, actions).sessions; id in end && end[id].revokedAt == auth.sessions[id].revokedAt
  {
    RunsContinue(auth, actions);
    assert SameSession(auth.sessions[id], Run(auth, actions).sessions[id]);
  }

  /** A refresh token works at most once: after a success, or any attempt that got as far as the
      revocation, the same token is refused for ever. */
  lemma TokenWorksOnce(auth: Auth, token: Token, newId: Id, now: nat, actions: seq<Action>, decodes: bool,
    againId: Id, later: nat)
    requires ChainsAgree(auth) && Refreshable(auth, token, now)
    ensures ChainsAgree(RefreshStep(auth, token, true, newId, now).auth)
    ensures var end := Run(RefreshStep(auth, token, true, newId, now).auth, actions);
      RefreshStep(end, token, decodes, againId, later) == Answer(end, Err(Unauthorized))
  {
    RefreshKeepsChains(auth, token, true, newId, now);
    RefreshRevokes(auth, token, newId, now);
    StaysRevoked(RefreshStep(auth, token, true, newId, now).auth, actions, token.sessionId);
  }

  /** After a successful refresh the session handed out is the one live session of the old
      session's chain, for the same user. */
  lemma RefreshHandsOn(auth: Auth, token: Token, newId: Id, now: nat)
    requires ChainsAgree(auth) && RefreshStep(auth, token, true, newId, now).reply.Ok?
    ensures var out := RefreshStep(auth, token, true, newId, now);
      && out.reply.value.sessionId == newId && newId !in auth.sessions && Refreshable(auth, token, now)
      && out.auth.origin[newId] == auth.origin[token.sessionId]
      && out.auth.sessions[newId].userId == token.sub
      && forall id {:trigger out.auth.sessions[id].revokedAt} |
           id in out.auth.sessions && out.auth.origin[id] == auth.origin[token.sessionId] ::
           out.auth.sessions[id].revokedAt.None? <==> id == newId
  {
  }

  // ---------------------------------------------------------------- overlapping refreshes

  predicate Live(sessions: map<Id, Session>, id: Id) {
    id in sessions && sessions[id].revokedAt.None?
  }

  ghost predicate NoneLive(auth: Auth, chain: Id)
    requires auth.origin.Keys == auth.sessions.Keys
  {
    forall other {:trigger Live(auth.sessions, other)} | Live(auth.sessions, other) :: auth.origin[other] != chain
  }

  /** The session is the only one of its chain that can be live. */
  ghost predicate LastOfItsChain(auth: Auth, id: Id)
    requires auth.origin.Keys == auth.sessions.Keys && id in auth.sessions
  {
    forall other {:trigger Live(auth.sessions, other)} | Live(auth.sessions, other) ::
      auth.origin[other] == auth.origin[id] ==> other == id
  }

  /** The INSERT of a refreshed session keeps one live session per chain if and only if the chain has
      none at that moment; the revocation before it never does harm. */
  lemma InsertKeepsChainsIff(auth: Auth, userId: Id, newId: Id, chain: Id, now: nat)
    requires ChainsAgree(auth) && chain in auth.sessions && newId !in auth.sessions
    ensures ChainsAgree(IssueSession(auth, userId, newId, chain, now).auth) <==> NoneLive(auth, chain)
  {
    var out := IssueSession(auth, userId, newId, chain, now).auth;
    if NoneLive(auth, chain) {
      forall id {:trigger auth.sessions[id].revokedAt} | id in auth.sessions && auth.origin[id] == chain
        ensures auth.sessions[id].revokedAt.Some?
      {
        if auth.sessions[id].revokedAt.None? { assert Live(auth.sessions, id); }
      }
      IssueKeepsChains(auth, userId, newId, chain, now);
    } else {
      var other :| Live(auth.sessions, other) && auth.origin[other] == chain;
      assert out.sessions[other].revokedAt.None? && out.sessions[newId].revokedAt.None?;
      assert out.origin[other] == out.origin[newId] && other != newId;
    }
  }

  /** A rotation that comes any time after its checks keeps one live session per chain if and only if
      no other session of the chain has become live since. */
  lemma RotationKeepsChainsIff(auth: Auth, token: Token, newId: Id, now: nat)
    requires ChainsAgree(auth) && token.sessionId in auth.sessions && Active(auth, token.sub) && newId !in auth.sessions
    ensures ChainsAgree(Rotate(auth, token, newId, now).auth) <==> LastOfItsChain(auth, token.sessionId)
  {
    var revoked := Revoke(auth, token.sessionId, now);
    var out := Rotate(auth, token, newId, now).auth;
    var chain := auth.origin[token.sessionId];
    assert Rooted(auth.sessions, auth.origin, token.sessionId);
    if LastOfItsChain(auth, token.sessionId) {
      RevokeKeepsChains(auth, token.sessionId, now);
      forall id {:trigger revoked.sessions[id].revokedAt} | id in revoked.sessions && auth.origin[id] == chain
        ensures revoked.sessions[id].revokedAt.Some?
      {
        if revoked.sessions[id].revokedAt.None? { assert Live(auth.sessions, id); }
      }
      IssueKeepsChains(revoked, token.sub, newId, chain, now);
    } else {
      var other :| Live(auth.sessions, other) && auth.origin[other] == chain && other != token.sessionId;
      assert out.sessions[other].revokedAt.None? && out.sessions[newId].revokedAt.None?;
      assert out.origin[other] == out.origin[newId] && other != newId;
    }
  }

  /** Two refreshes with one token that both pass their checks before either rotates: both are
      answered, and the chain is left with two live sessions. */
  lemma OverlappingRefreshesFork(auth: Auth, token: Token, one: Id, two: Id, now: nat, later: nat)
    requires ChainsAgree(auth) && Refreshable(auth, token, now) && Refreshable(auth, token, later)
    requires Active(auth, token.sub) && one != two && one !in auth.sessions && two !in auth.sessions
    ensures ChainsAgree(Rotate(auth, token, one, now).auth)
    ensures var second := Rotate(Rotate(auth, token, one, now).auth, token, two, later);
      && second.reply.Ok? && Live(second.auth.sessions, one) && Live(second.auth.sessions, two)
      && second.auth.origin[one] == second.auth.origin[two] && !ChainsAgree(second.auth)
  {
    RefreshKeepsChains(auth, token, true, one, now);
    var first := Rotate(auth, token, one, now).auth;
    assert Live(first.sessions, one);
    RotationKeepsChainsIff(first, token, two, later);
  }

  // ---------------------------------------------------------------- the tables as state

  class AuthStore {
    var users: map<Id, User>
    var emails: map<string, Id>
    var sessions: map<Id, Session>
    ghost var origin: map<Id, Id>
    const ttl: nat

    ghost function State(): Auth
      reads this
    {
      Auth(users, emails, sessions, origin, ttl)
    }

    constructor (ttl: nat)
      ensures State() == Auth(map[], map[], map[], map[], ttl)
    {
      users, emails, sessions, origin := map[], map[], map[], map[];
      this.ttl := ttl;
    }

    method StoreRefreshSession(userId: Id, newId: Id, ghost chain: Id, now: nat)
      returns (reply: Result<Token, AuthError>)
      modifies this`sessions, this`origin
      ensures Answer(State(), reply) == IssueSession(old(State()), userId, newId, chain, now)
    {
      if newId in sessions { return Err(RepositoryFailure); }
      var token := Token(userId, newId, now + ttl, now);
      sessions := sessions[newId := Session(userId, token, now + ttl, None)];
      origin := origin[newId := chain];
      return Ok(token);
    }

    method RevokeRefreshSession(id: Id, now: nat)
      modifies this`sessions
      ensures State() == Revoke(old(State()), id, now)
    {
      if id in sessions && sessions[id].revokedAt == None {
        sessions := sessions[id := sessions[id].(revokedAt := Some(now))];
      }
    }

    method RegisterUser(email: string, password: string, role: Role, userId: Id, newId: Id, now: nat)
      returns (reply: Result<Token, AuthError>)
      requires ChainsAgree(State())
      modifies this
      ensures ChainsAgree(State())
      ensures Answer(State(), reply) == Step(old(State()), Register(email, password, role, userId, newId, now))
    {
      StepKeepsChains(State(), Register(email, password, role, userId, newId, now));
      if role == PlatformAdmin || role == SchoolAdmin { return Err(NotRegisterable); }
      var normalized := NormalizeEmail(email);
      if normalized in emails { return Err(EmailAlreadyExists); }
      if userId in users { return Err(RepositoryFailure); }
      users := users[userId := User(normalized, password, role, true)];
      emails := emails[normalized := userId];
      reply := StoreRefreshSession(userId, newId, newId, now);
    }

    method LoginUser(email: string, password: string, newId: Id, now: nat) returns (reply: Result<Token, AuthError>)
      requires ChainsAgree(State())
      modifies this
      ensures ChainsAgree(State())
      ensures Answer(State(), reply) == Step(old(State()), Login(email, password, newId, now))
    {
      StepKeepsChains(State(), Login(email, password, newId, now));
      var normalized := NormalizeEmail(email);
      if normalized !in emails || emails[normalized] !in users { return Err(InvalidCredentials); }
      var userId := emails[normalized];
      if !users[userId].active { return Err(Unauthorized); }
      if users[userId].password != password { return Err(InvalidCredentials); }
      reply := StoreRefreshSession(userId, newId, newId, now);
    }

    method RefreshToken(token: Token, decodes: bool, newId: Id, now: nat) returns (reply: Result<Token, AuthError>)
      requires ChainsAgree(State())
      modifies this
      ensures ChainsAgree(State())
      ensures Answer(State(), reply) == Step(old(State()), Refresh(token, decodes, newId, now))
    {
      StepKeepsChains(State(), Refresh(token, decodes, newId, now));
      if !decodes || token.sessionId !in sessions { return Err(Unauthorized); }
      var existing := sessions[token.sessionId];
      if existing.userId != token.sub || existing.revokedAt != None { return Err(Unauthorized); }
      if existing.expiresAt <= now { return Err(Unauthorized); }
      if existing.token != token { return Err(Unauthorized); }
      RevokeRefreshSession(token.sessionId, now);
      if token.sub !in users || !users[token.sub].active { return Err(Unauthorized); }
      reply := StoreRefreshSession(token.sub, newId, origin[token.sessionId], now);
    }

    method LogoutToken(token: Token, decodes: bool, now: nat) returns (reply: Result<Token, AuthError>)
      requires ChainsAgree(State())
      modifies this
      ensures ChainsAgree(State())
      ensures Answer(State(), reply) == Step(old(State()), Logout(token, decodes, now))
    {
      StepKeepsChains(State(), Logout(token, decodes, now));
      if !decodes { return Err(Unauthorized); }
      RevokeRefreshSession(token.sessionId, now);
      return Ok(token);
    }
  }
}
