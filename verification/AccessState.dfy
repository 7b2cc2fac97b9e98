/** The authorization state of the Auth Provider: directory, policies, central sessions, authorization
    codes, access tokens, login challenges and the outbox, with every transaction as one function.
    Secrets are represented by the identifier of the row their unique hash selects. */
module AccessState {
  import opened LoginChallenges
  import opened Vocabulary

  type GroupId = nat
  type AppId = nat
  type SessionId = nat
  type CodeId = nat
  type TokenId = nat
  type RequestId = nat
  type Uri = nat
  type Verifier = nat
  type PkceChallenge = nat

  // ---------------------------------------------------------------- tables

  datatype Membership = Membership(user: UserId, group: GroupId)

  datatype Policy = Policy(app: AppId, group: GroupId)

  datatype Directory = Directory(groups: set<GroupId>, members: set<Membership>, policies: set<Policy>)

  /** The user is a member of a group that the application allows. */
  predicate HasPath(d: Directory, u: UserId, a: AppId) {
    exists m :: m in d.members && m.user == u && Policy(a, m.group) in d.policies
  }

  datatype Application = Application(active: bool, redirectUris: set<Uri>)

  datatype Status = Active | Expired | Revoked

  datatype Reason = SsoLogout | UserDeactivated | PasswordReset | AccessLost

  datatype Session = Session(
    user: UserId, status: Status, expiresAt: nat, lastActivityAt: nat, revokedAt: Option<nat>, reason: Option<Reason>)

  datatype Code = Code(
    user: UserId, app: AppId, session: SessionId, redirectUri: Uri, pkce: PkceChallenge, expiresAt: nat,
        usedAt: Option<nat>)

  /** `grant` is history: what the token was issued for. */
  datatype Grant = Grant(code: CodeId, redirectUri: Uri, verifier: Verifier)

  datatype Token = Token(
    user: UserId, app: AppId, session: SessionId, scopes: set<string>, status: Status, expiresAt: nat,
    revokedAt: Option<nat>, grant: Grant)

  /** An authorization request under way, between the statements of `authorize`. */
  datatype Stage = SessionSeen | SessionTouched | PolicyChecked | Finished

  datatype Request =
    | Asked(app: AppId, redirectUri: Uri, pkce: PkceChallenge)
    | Identified(app: AppId, redirectUri: Uri, pkce: PkceChallenge, user: UserId, session: SessionId, stage: Stage)

  datatype OutboxEvent =
    | SessionEnded(session: SessionId, user: UserId, reason: Reason)
    | PasswordChange(user: UserId)
    | AccessChange(user: UserId, app: AppId)

  /** The outbox is a table of rows with random keys: a multiset of events. */
  datatype State = State(
    now: nat,
    users: map<UserId, bool>,
    apps: map<AppId, Application>,
    dir: Directory,
    sessions: map<SessionId, Session>,
    codes: map<CodeId, Code>,
    tokens: map<TokenId, Token>,
    challenges: Challenges,
    requests: map<RequestId, Request>,
    outbox: multiset<OutboxEvent>)

  /** `s256` stands for the code challenge method of PKCE. */
  datatype Config = Config(s256: Verifier -> PkceChallenge, sessionTtlMs: nat, codeTtlMs: nat, tokenTtlMs: nat,
                           challengeTtlMs: nat)

  const INITIAL :=
    State(0, map[], map[], Directory({CONTROL_PANEL_ADMINS}, {}, {}), map[], map[], map[], map[], map[], multiset{})

  const CONTROL_PANEL_ADMINS: GroupId := 0
  const MAX_REDIRECT_URIS := 20
  const REQUIRED_SCOPE := "profile"
  const DEFAULT_SCOPES := {REQUIRED_SCOPE}

  predicate IsActive(users: map<UserId, bool>, u: UserId) { u in users && users[u] }

  // ---------------------------------------------------------------- central sessions: auth.service.ts

  predicate Usable(x: Session, now: nat) { x.status == Active && x.revokedAt.None? && x.expiresAt > now }

  /** The first half of the reader of a session cookie: the user, if the session read is accepted. An
      elapsed session is marked expired. */
  function CurrentSession(s: State, id: SessionId): (State, Option<UserId>) {
    if id !in s.sessions then (s, None)
    else
      var x := s.sessions[id];
      if Usable(x, s.now) && IsActive(s.users, x.user) then (s, Some(x.user))
      else if x.status == Active && x.revokedAt.None? && x.expiresAt <= s.now
      then (s.(sessions := s.sessions[id := x.(status := Expired)]), None)
      else (s, None)
  }

  /** The second half, and a part of every transaction that uses a session: the guarded update of its
      last activity, which finds the session ended if it was revoked since it was read. */
  function TouchSession(s: State, id: SessionId): (State, bool) {
    if id in s.sessions && Usable(s.sessions[id], s.now)
    then (s.(sessions := s.sessions[id := s.sessions[id].(lastActivityAt := s.now)]), true)
    else (s, false)
  }

  /** The password was checked earlier, so nothing but the existence of the user is known here. */
  function IssueSession(cfg: Config, s: State, id: SessionId, u: UserId): State {
    if u !in s.users || id in s.sessions then s
    else s.(sessions := s.sessions[id := Session(u, Active, s.now + cfg.sessionTtlMs, s.now, None, None)])
  }

  function RevokedSession(x: Session, reason: Reason, now: nat): Session {
    x.(status := Revoked, revokedAt := Some(now), reason := Some(reason))
  }

  function RevokedToken(x: Token, now: nat): Token { x.(status := Revoked, revokedAt := Some(now)) }

  predicate LiveToken(x: Token) { x.status == Active && x.revokedAt.None? }

  function Logout(s: State, id: SessionId): State {
    if id !in s.sessions || s.sessions[id].status != Active || s.sessions[id].revokedAt.Some? then s
    else
      s.(sessions := s.sessions[id := RevokedSession(s.sessions[id], SsoLogout, s.now)],
         tokens := map t | t in s.tokens ::
           if s.tokens[t].session == id && LiveToken(s.tokens[t]) then RevokedToken(s.tokens[t], s.now)
               else s.tokens[t],
         outbox := s.outbox + multiset{SessionEnded(id, s.sessions[id].user, SsoLogout)})
  }

  // ---------------------------------------------------------------- login challenges

  function StartChallenge(cfg: Config, s: State, c: ChallengeId, u: UserId, intent: Intent): State {
    if u !in s.users || c in s.challenges then s
    else s.(challenges := WithChallenge(s.challenges, c, u, intent, s.now + cfg.challengeTtlMs, s.now))
  }

  predicate ChallengeAccepted(s: State, c: ChallengeId) {
    c in s.challenges && s.challenges[c].usedAt.None? && s.challenges[c].expiresAt > s.now
    && IsActive(s.users, s.challenges[c].user)
  }

  /** The claim of the challenge and the issue of the session; `factorClaimed` is the outcome of the
      claim of the one-time factor in the same transaction (module MfaState). */
  function CompleteChallenge(cfg: Config, s: State, c: ChallengeId, id: SessionId, factorClaimed: bool): State {
    if !ChallengeAccepted(s, c) || !factorClaimed || id in s.sessions then s
    else IssueSession(cfg, s.(challenges := s.challenges[c := s.challenges[c].(usedAt := Some(s.now))]), id,
                      s.challenges[c].user)
  }

  // ---------------------------------------------------------------- authorization.service.ts

  function BeginAuthorize(s: State, r: RequestId, a: AppId, uri: Uri, pkce: PkceChallenge): State {
    if r in s.requests || a !in s.apps || uri !in s.apps[a].redirectUris || !s.apps[a].active then s
    else s.(requests := s.requests[r := Asked(a, uri, pkce)])
  }

  function Identify(s: State, r: RequestId, id: SessionId): State {
    if r !in s.requests || !s.requests[r].Asked? then s
    else
      var (t, user) := CurrentSession(s, id);
      var x := s.requests[r];
      match user
      case None => t
      case Some(u) => t.(requests := s.requests[r := Identified(x.app, x.redirectUri, x.pkce, u, id, SessionSeen)])
  }

  predicate IsAt(s: State, r: RequestId, stage: Stage) {
    r in s.requests && s.requests[r].Identified? && s.requests[r].stage == stage
  }

  function Advance(s: State, r: RequestId, stage: Stage): State
    requires r in s.requests && s.requests[r].Identified?
  {
    s.(requests := s.requests[r := s.requests[r].(stage := stage)])
  }

  function TouchRequest(s: State, r: RequestId): State {
    if !IsAt(s, r, SessionSeen) then s
    else
      var (t, touched) := TouchSession(s, s.requests[r].session);
      Advance(t, r, if touched then SessionTouched else Finished)
  }

  function CheckPolicy(s: State, r: RequestId): State {
    if !IsAt(s, r, SessionTouched) then s
    else Advance(s, r, if HasPath(s.dir, s.requests[r].user, s.requests[r].app) then PolicyChecked else Finished)
  }

  function InsertCode(cfg: Config, s: State, r: RequestId, c: CodeId): State {
    if !IsAt(s, r, PolicyChecked) || c in s.codes then s
    else
      var x := s.requests[r];
      Advance(s, r, Finished).(
        codes := s.codes[c := Code(x.user, x.app, x.session, x.redirectUri, x.pkce, s.now + cfg.codeTtlMs, None)])
  }

  // ---------------------------------------------------------------- token.service.ts

  predicate CodeAccepted(cfg: Config, s: State, c: CodeId, a: AppId, uri: Uri, v: Verifier) {
    && c in s.codes && s.codes[c].app == a && s.codes[c].redirectUri == uri && s.codes[c].usedAt.None?
    && s.codes[c].expiresAt > s.now && IsActive(s.users, s.codes[c].user) && a in s.apps && s.apps[a].active
    && s.codes[c].session in s.sessions && Usable(s.sessions[s.codes[c].session], s.now)
    && cfg.s256(v) == s.codes[c].pkce
  }

  /** The transaction of the exchange; `a` is the application whose credentials were verified. No
      policy is checked here. */
  function Exchange(cfg: Config, s: State, t: TokenId, c: CodeId, a: AppId, uri: Uri, v: Verifier): State {
    if !CodeAccepted(cfg, s, c, a, uri, v) || t in s.tokens then s
    else
      TouchSession(s, s.codes[c].session).0.(
        codes := s.codes[c := s.codes[c].(usedAt := Some(s.now))],
        tokens := s.tokens[t := NewToken(cfg, s, c, uri, v)])
  }

  function NewToken(cfg: Config, s: State, c: CodeId, uri: Uri, v: Verifier): Token
    requires c in s.codes
  {
    var x := s.codes[c];
    Token(x.user, x.app, x.session, DEFAULT_SCOPES, Active, s.now + cfg.tokenTtlMs, None, Grant(c, uri, v))
  }

  // ---------------------------------------------------------------- userinfo.service.ts

  predicate TokenAccepted(s: State, t: TokenId) {
    && t in s.tokens && LiveToken(s.tokens[t]) && s.tokens[t].expiresAt > s.now
    && IsActive(s.users, s.tokens[t].user) && s.tokens[t].app in s.apps && s.apps[s.tokens[t].app].active
    && s.tokens[t].session in s.sessions && Usable(s.sessions[s.tokens[t].session], s.now)
    && REQUIRED_SCOPE in s.tokens[t].scopes
  }

  /** The user of the token, if the profile may be read. */
  function GetProfile(s: State, t: TokenId): (State, Option<UserId>) {
    if t !in s.tokens then (s, None)
    else
      var x := s.tokens[t];
      if !TokenAccepted(s, t) then
        if LiveToken(x) && x.expiresAt <= s.now then (s.(tokens := s.tokens[t := x.(status := Expired)]), None)
            else (s, None)
      else if !HasPath(s.dir, x.user, x.app) then (s, None)
      else (TouchSession(s, x.session).0, Some(x.user))
  }

  // ---------------------------------------------------------------- admin-revocation.service.ts

  function RevokedSessions(m: map<SessionId, Session>, users: set<UserId>, reason: Reason,
                           now: nat): map<SessionId, Session> {
    map id | id in m ::
      if m[id].user in users && m[id].status == Active && m[id].revokedAt.None?
          then RevokedSession(m[id], reason, now) else m[id]
  }

  function RevokedTokens(m: map<TokenId, Token>, users: set<UserId>, now: nat): map<TokenId, Token> {
    map t | t in m :: if m[t].user in users && LiveToken(m[t]) then RevokedToken(m[t], now) else m[t]
  }

  function RevokeSecurityState(s: State, users: set<UserId>, reason: Reason): State {
    s.(sessions := RevokedSessions(s.sessions, users, reason, s.now),
       tokens := RevokedTokens(s.tokens, users, s.now),
       challenges := UsedChallenges(s.challenges, users, s.now))
  }

  /** The sessions of these users that a revocation ends. */
  function EndedBy(m: map<SessionId, Session>, users: set<UserId>): set<SessionId> {
    set id | id in m && m[id].user in users && m[id].status == Active && m[id].revokedAt.None?
  }

  function SessionEvents(m: map<SessionId, Session>, ids: set<SessionId>, reason: Reason): set<OutboxEvent> {
    set id | id in ids && id in m :: SessionEnded(id, m[id].user, reason)
  }

  function RevokeForDeactivation(s: State, users: set<UserId>): State {
    RevokeSecurityState(s, users, UserDeactivated).(
      outbox := s.outbox + multiset(SessionEvents(s.sessions, EndedBy(s.sessions, users), UserDeactivated)))
  }

  function PasswordEvents(users: set<UserId>): set<OutboxEvent> { set u | u in users :: PasswordChange(u) }

  function RevokeForPasswordChange(s: State, users: set<UserId>): State {
    RevokeSecurityState(s, users, PasswordReset).(outbox := s.outbox + multiset(PasswordEvents(users)))
  }

  datatype Pair = Pair(user: UserId, app: AppId)

  /** The candidate pairs without a path. */
  function LostPairs(d: Directory, users: set<UserId>, apps: set<AppId>): set<Pair> {
    set u, a | u in users && a in apps && !HasPath(d, u, a) :: Pair(u, a)
  }

  function LosingUsers(lost: set<Pair>): set<UserId> { set p | p in lost :: p.user }

  function AccessEvents(lost: set<Pair>): set<OutboxEvent> { set p | p in lost :: AccessChange(p.user, p.app) }

  /** `s.dir` is the directory after the change. */
  function RevokeLostAccess(s: State, users: set<UserId>, apps: set<AppId>): State {
    var lost := LostPairs(s.dir, users, apps);
    RevokeSecurityState(s, LosingUsers(lost), AccessLost).(outbox := s.outbox + multiset(AccessEvents(lost)))
  }

  // ---------------------------------------------------------------- administration

  function MembersOf(d: Directory, g: GroupId): set<UserId> { set m | m in d.members && m.group == g :: m.user }

  function AllowedBy(d: Directory, g: GroupId): set<AppId> { set p | p in d.policies && p.group == g :: p.app }

  function WithoutGroup(d: Directory, g: GroupId): Directory {
    Directory(d.groups - {g}, set m | m in d.members && m.group != g, set p | p in d.policies && p.group != g)
  }

  function DeleteGroup(s: State, g: GroupId): State {
    if g !in s.dir.groups || g == CONTROL_PANEL_ADMINS then s
    else RevokeLostAccess(s.(dir := WithoutGroup(s.dir, g)), MembersOf(s.dir, g), AllowedBy(s.dir, g))
  }

  /** `othersSeen` is the outcome of the check that another active administrator exists. */
  function RemoveMembership(s: State, u: UserId, g: GroupId, othersSeen: bool): State {
    if Membership(u, g) !in s.dir.members || (g == CONTROL_PANEL_ADMINS && !othersSeen) then s
    else RevokeLostAccess(s.(dir := s.dir.(members := s.dir.members - {Membership(u, g)})), {u}, AllowedBy(s.dir, g))
  }

  function RemovePolicy(s: State, a: AppId, g: GroupId): State {
    if a !in s.apps || Policy(a, g) !in s.dir.policies then s
    else RevokeLostAccess(s.(dir := s.dir.(policies := s.dir.policies - {Policy(a, g)})), MembersOf(s.dir, g), {a})
  }

  function AddMembership(s: State, u: UserId, g: GroupId): State {
    if u !in s.users || g !in s.dir.groups then s else s.(dir := s.dir.(members := s.dir.members + {Membership(u, g)}))
  }

  function AddPolicy(s: State, a: AppId, g: GroupId): State {
    if a !in s.apps || g !in s.dir.groups then s else s.(dir := s.dir.(policies := s.dir.policies + {Policy(a, g)}))
  }

  /** `seen` is the status read before the transaction; `refused` says that the user was the last active
      administrator when that was checked. */
  function UpdateStatus(s: State, u: UserId, active: bool, seen: bool, refused: bool): State {
    if u !in s.users || seen == active || (!active && refused) then s
    else if active then s.(users := s.users[u := true])
    else RevokeForDeactivation(s.(users := s.users[u := false]), {u})
  }

  function UpdatePassword(s: State, u: UserId): State {
    if u !in s.users then s else RevokeForPasswordChange(s, {u})
  }

  function UpdateApplication(s: State, a: AppId, active: bool, seen: bool): State {
    if a !in s.apps then s
    else
      var t := s.(apps := s.apps[a := s.apps[a].(active := active)]);
      if seen && !active
      then t.(tokens := map k | k in s.tokens ::
                if s.tokens[k].app == a && LiveToken(s.tokens[k]) then RevokedToken(s.tokens[k], s.now)
                    else s.tokens[k])
      else t
  }

  function AddRedirectUri(s: State, a: AppId, uri: Uri): State {
    if a !in s.apps || uri in s.apps[a].redirectUris || |s.apps[a].redirectUris| >= MAX_REDIRECT_URIS then s
    else s.(apps := s.apps[a := s.apps[a].(redirectUris := s.apps[a].redirectUris + {uri})])
  }

  function RemoveRedirectUri(s: State, a: AppId, uri: Uri): State {
    if a !in s.apps || uri !in s.apps[a].redirectUris || |s.apps[a].redirectUris| == 1 then s
    else
      s.(apps := s.apps[a := s.apps[a].(redirectUris := s.apps[a].redirectUris - {uri})],
         codes := map c | c in s.codes ::
           if s.codes[c].app == a && s.codes[c].redirectUri == uri && s.codes[c].usedAt.None?
           then s.codes[c].(usedAt := Some(s.now)) else s.codes[c])
  }

  // ---------------------------------------------------------------- runs

  datatype Op =
    | Elapse(ms: nat)
    | NewUser(u: UserId)
    | NewGroup(g: GroupId)
    | NewApplication(a: AppId, redirectUris: set<Uri>)
    | Join(u: UserId, g: GroupId)
    | Allow(a: AppId, g: GroupId)
    | DropGroup(g: GroupId)
    | Leave(u: UserId, g: GroupId, othersSeen: bool)
    | Disallow(a: AppId, g: GroupId)
    | SetStatus(u: UserId, active: bool, seen: bool, refused: bool)
    | SetPassword(u: UserId)
    | SetApplication(a: AppId, active: bool, seen: bool)
    | AddUri(a: AppId, uri: Uri)
    | RemoveUri(a: AppId, uri: Uri)
    | LogIn(id: SessionId, u: UserId)
    | Challenged(c: ChallengeId, u: UserId, intent: Intent)
    | LogInWithFactor(c: ChallengeId, id: SessionId, factorClaimed: bool)
    | ReadSession(id: SessionId)
    | TouchAlone(id: SessionId)
    | LogOut(id: SessionId)
    | Authorize(r: RequestId, a: AppId, uri: Uri, pkce: PkceChallenge)
    | See(r: RequestId, id: SessionId)
    | Touch(r: RequestId)
    | Check(r: RequestId)
    | Insert(r: RequestId, c: CodeId)
    | Redeem(t: TokenId, c: CodeId, a: AppId, uri: Uri, v: Verifier)
    | ReadProfile(t: TokenId)

  function Apply(cfg: Config, s: State, op: Op): State {
    match op
    case Elapse(ms) => s.(now := s.now + ms)
    case NewUser(u) => if u in s.users then s else s.(users := s.users[u := true])
    case NewGroup(g) => s.(dir := s.dir.(groups := s.dir.groups + {g}))
    case NewApplication(a, uris) => if a in s.apps then s else s.(apps := s.apps[a := Application(true, uris)])
    case Join(u, g) => AddMembership(s, u, g)
    case Allow(a, g) => AddPolicy(s, a, g)
    case DropGroup(g) => DeleteGroup(s, g)
    case Leave(u, g, othersSeen) => RemoveMembership(s, u, g, othersSeen)
    case Disallow(a, g) => RemovePolicy(s, a, g)
    case SetStatus(u, active, seen, refused) => UpdateStatus(s, u, active, seen, refused)
    case SetPassword(u) => UpdatePassword(s, u)
    case SetApplication(a, active, seen) => UpdateApplication(s, a, active, seen)
    case AddUri(a, uri) => AddRedirectUri(s, a, uri)
    case RemoveUri(a, uri) => RemoveRedirectUri(s, a, uri)
    case LogIn(id, u) => IssueSession(cfg, s, id, u)
    case Challenged(c, u, intent) => StartChallenge(cfg, s, c, u, intent)
    case LogInWithFactor(c, id, claimed) => CompleteChallenge(cfg, s, c, id, claimed)
    case ReadSession(id) => CurrentSession(s, id).0
    case TouchAlone(id) => TouchSession(s, id).0
    case LogOut(id) => Logout(s, id)
    case Authorize(r, a, uri, pkce) => BeginAuthorize(s, r, a, uri, pkce)
    case See(r, id) => Identify(s, r, id)
    case Touch(r) => TouchRequest(s, r)
    case Check(r) => CheckPolicy(s, r)
    case Insert(r, c) => InsertCode(cfg, s, r, c)
    case Redeem(t, c, a, uri, v) => Exchange(cfg, s, t, c, a, uri, v)
    case ReadProfile(t) => GetProfile(s, t).0
  }

  function Run(cfg: Config, s: State, ops: seq<Op>): State
    decreases ops
  {
    if ops == [] then s else Run(cfg, Apply(cfg, s, ops[0]), ops[1..])
  }
}
