/** What every transaction of the Auth Provider keeps, in any interleaving of logins, authorization
    requests, exchanges, logouts and administration. */
module AccessSafety {
  import opened LoginChallenges
  import opened Vocabulary
  import opened AccessState

  // ---------------------------------------------------------------- invariant

  predicate SessionOk(x: Session) {
    (x.status == Revoked <==> x.revokedAt.Some?) && (x.revokedAt.Some? <==> x.reason.Some?)
  }

  /** An unused code of a session that has not ended implies a path, although nobody checks it again. */
  predicate CodeOk(d: Directory, sessions: map<SessionId, Session>, x: Code) {
    && x.session in sessions && sessions[x.session].user == x.user
    && (x.usedAt.None? && sessions[x.session].status == Active ==> HasPath(d, x.user, x.app))
  }

  /** So does a request between its policy check and the insertion of its code. */
  predicate RequestOk(d: Directory, sessions: map<SessionId, Session>, x: Request) {
    x.Identified? ==>
      && x.session in sessions && sessions[x.session].user == x.user
      && (x.stage == PolicyChecked && sessions[x.session].status == Active ==> HasPath(d, x.user, x.app))
  }

  /** The token was issued for a used code, with its user, application and session, after the redirect
      URI and the PKCE verifier matched. */
  predicate GrantOk(cfg: Config, codes: map<CodeId, Code>, x: Token) {
    && x.grant.code in codes && codes[x.grant.code].usedAt.Some?
    && codes[x.grant.code].user == x.user && codes[x.grant.code].app == x.app
       && codes[x.grant.code].session == x.session
    && codes[x.grant.code].redirectUri == x.grant.redirectUri && codes[x.grant.code].pkce == cfg.s256(x.grant.verifier)
  }

  predicate ActiveTokenOk(d: Directory, users: map<UserId, bool>, sessions: map<SessionId, Session>, x: Token) {
    && x.session in sessions && sessions[x.session].user == x.user
    && (x.status == Active ==>
          x.revokedAt.None? && sessions[x.session].status != Revoked && IsActive(users, x.user)
              && HasPath(d, x.user, x.app))
  }

  predicate IsAnnounced(x: Session) {
    x.status == Revoked && (x.reason == Some(SsoLogout) || x.reason == Some(UserDeactivated))
  }

  predicate EventOk(sessions: map<SessionId, Session>, e: OutboxEvent) {
    e.SessionEnded? ==>
      && e.session in sessions && sessions[e.session].user == e.user && IsAnnounced(sessions[e.session])
      && sessions[e.session].reason == Some(e.reason)
  }

  predicate IsRecorded(outbox: multiset<OutboxEvent>, id: SessionId, x: Session) {
    IsAnnounced(x) ==> outbox[SessionEnded(id, x.user, x.reason.value)] == 1
  }

  ghost predicate OutboxOk(sessions: map<SessionId, Session>, outbox: multiset<OutboxEvent>) {
    && (forall e :: e in outbox ==> EventOk(sessions, e))
    && (forall id :: id in sessions ==> IsRecorded(outbox, id, sessions[id]))
  }

  ghost predicate OneTokenPerCode(tokens: map<TokenId, Token>) {
    forall t, u :: t in tokens && u in tokens && tokens[t].grant.code == tokens[u].grant.code ==> t == u
  }

  ghost predicate SessionsOk(m: map<SessionId, Session>) { forall id :: id in m ==> SessionOk(m[id]) }

  ghost predicate CodesOk(d: Directory, sessions: map<SessionId, Session>, m: map<CodeId, Code>) {
    forall c :: c in m ==> CodeOk(d, sessions, m[c])
  }

  ghost predicate RequestsOk(d: Directory, sessions: map<SessionId, Session>, m: map<RequestId, Request>) {
    forall r :: r in m ==> RequestOk(d, sessions, m[r])
  }

  ghost predicate GrantsOk(cfg: Config, codes: map<CodeId, Code>, m: map<TokenId, Token>) {
    forall t :: t in m ==> GrantOk(cfg, codes, m[t])
  }

  ghost predicate ActiveTokensOk(d: Directory, users: map<UserId, bool>, sessions: map<SessionId, Session>,
                                 m: map<TokenId, Token>) {
    forall t :: t in m ==> ActiveTokenOk(d, users, sessions, m[t])
  }

  ghost predicate Inv(cfg: Config, s: State) {
    && SessionsOk(s.sessions) && CodesOk(s.dir, s.sessions, s.codes) && RequestsOk(s.dir, s.sessions, s.requests)
    && GrantsOk(cfg, s.codes, s.tokens) && ActiveTokensOk(s.dir, s.users, s.sessions, s.tokens)
    && OneTokenPerCode(s.tokens) && OutboxOk(s.sessions, s.outbox)
  }

  // ---------------------------------------------------------------- what never changes back

  predicate SessionEvolves(x: Session, y: Session) {
    y.user == x.user && y.expiresAt == x.expiresAt && (x.status != Active ==> y == x)
  }

  predicate CodeEvolves(x: Code, y: Code) {
    y == x || (x.usedAt.None? && y.usedAt.Some? && y == x.(usedAt := y.usedAt))
  }

  predicate TokenEvolves(x: Token, y: Token) {
    y.user == x.user && y.app == x.app && y.session == x.session && y.scopes == x.scopes && y.grant == x.grant
    && (x.status != Active ==> y == x)
  }

  predicate ChallengeEvolves(x: Challenge, y: Challenge) { y.user == x.user && (x.usedAt.Some? ==> y == x) }

  /** A request keeps its parameters, and once identified its user and session. */
  predicate RequestEvolves(x: Request, y: Request) {
    && y.app == x.app && y.redirectUri == x.redirectUri && y.pkce == x.pkce
    && (x.Identified? ==> y.Identified? && y.user == x.user && y.session == x.session)
  }

  ghost predicate RequestsEvolve(m: map<RequestId, Request>, n: map<RequestId, Request>) {
    forall r :: r in m ==> r in n && RequestEvolves(m[r], n[r])
  }

  ghost predicate SessionsEvolve(m: map<SessionId, Session>, n: map<SessionId, Session>) {
    forall id :: id in m ==> id in n && SessionEvolves(m[id], n[id])
  }

  ghost predicate CodesEvolve(m: map<CodeId, Code>, n: map<CodeId, Code>) {
    forall c :: c in m ==> c in n && CodeEvolves(m[c], n[c])
  }

  ghost predicate TokensEvolve(m: map<TokenId, Token>, n: map<TokenId, Token>) {
    forall t :: t in m ==> t in n && TokenEvolves(m[t], n[t])
  }

  ghost predicate ChallengesEvolve(m: map<ChallengeId, Challenge>, n: map<ChallengeId, Challenge>) {
    forall c :: c in m ==> c in n && ChallengeEvolves(m[c], n[c])
  }

  ghost predicate Evolves(s: State, t: State) {
    && s.now <= t.now && SessionsEvolve(s.sessions, t.sessions) && CodesEvolve(s.codes, t.codes)
    && TokensEvolve(s.tokens, t.tokens) && ChallengesEvolve(s.challenges, t.challenges)
    && RequestsEvolve(s.requests, t.requests) && s.outbox <= t.outbox
  }

  lemma SameEvolves(s: State)
    ensures Evolves(s, s)
  {
  }

  lemma EvolvesTransitive(a: State, b: State, c: State)
    requires Evolves(a, b) && Evolves(b, c)
    ensures Evolves(a, c)
  {
  }

  // ---------------------------------------------------------------- frames

  /** No session of these users is usable. */
  ghost predicate Shut(m: map<SessionId, Session>, users: set<UserId>) {
    forall id :: id in m && m[id].user in users ==> m[id].status != Active
  }

  /** Only these users lost a path. */
  ghost predicate PathsKept(d: Directory, e: Directory, users: set<UserId>) {
    forall u, a :: HasPath(d, u, a) && u !in users ==> HasPath(e, u, a)
  }

  lemma CodesKept(d: Directory, m: map<SessionId, Session>, e: Directory, n: map<SessionId, Session>,
                  users: set<UserId>, codes: map<CodeId, Code>)
    requires CodesOk(d, m, codes) && SessionsEvolve(m, n) && Shut(n, users) && PathsKept(d, e, users)
    ensures CodesOk(e, n, codes)
  {
  }

  lemma RequestsKept(d: Directory, m: map<SessionId, Session>, e: Directory, n: map<SessionId, Session>,
                     users: set<UserId>, requests: map<RequestId, Request>)
    requires RequestsOk(d, m, requests) && SessionsEvolve(m, n) && Shut(n, users) && PathsKept(d, e, users)
    ensures RequestsOk(e, n, requests)
  {
  }

  lemma GrantsKept(cfg: Config, codes: map<CodeId, Code>, codes': map<CodeId, Code>, m: map<TokenId, Token>,
                   n: map<TokenId, Token>)
    requires GrantsOk(cfg, codes, m) && CodesEvolve(codes, codes') && TokensEvolve(m, n) && n.Keys == m.Keys
    requires OneTokenPerCode(m)
    ensures GrantsOk(cfg, codes', n) && OneTokenPerCode(n)
  {
  }

  /** The tokens that stay active belong to active users who lost no path, and to sessions that were not
      revoked. */
  ghost predicate StillGood(users: set<UserId>, active: map<UserId, bool>, sessions: map<SessionId, Session>,
                            tokens: map<TokenId, Token>) {
    forall t :: t in tokens && tokens[t].status == Active ==>
      && tokens[t].user !in users && IsActive(active, tokens[t].user) && tokens[t].revokedAt.None?
      && tokens[t].session in sessions && sessions[tokens[t].session].status != Revoked
  }

  lemma ActiveTokensKept(d: Directory, active: map<UserId, bool>, sessions: map<SessionId, Session>,
                         m: map<TokenId, Token>,
                         e: Directory, active': map<UserId, bool>, sessions': map<SessionId, Session>,
                             n: map<TokenId, Token>,
                         users: set<UserId>)
    requires ActiveTokensOk(d, active, sessions, m) && SessionsEvolve(sessions, sessions') && PathsKept(d, e, users)
    requires TokensEvolve(m, n) && n.Keys == m.Keys && StillGood(users, active', sessions', n)
    ensures ActiveTokensOk(e, active', sessions', n)
  {
  }

  lemma AlreadyGood(d: Directory, active: map<UserId, bool>, sessions: map<SessionId, Session>,
                    tokens: map<TokenId, Token>)
    requires ActiveTokensOk(d, active, sessions, tokens)
    ensures StillGood({}, active, sessions, tokens)
  {
  }

  /** The events added announce exactly the sessions that became announced. */
  ghost predicate Announces(m: map<SessionId, Session>, n: map<SessionId, Session>, extra: multiset<OutboxEvent>) {
    && (forall e :: e in extra ==> EventOk(n, e))
    && (forall id :: id in n && IsAnnounced(n[id]) ==>
          extra[SessionEnded(id, n[id].user, n[id].reason.value)] == if id in m && IsAnnounced(m[id]) then 0 else 1)
  }

  lemma OutboxKept(m: map<SessionId, Session>, n: map<SessionId, Session>, outbox: multiset<OutboxEvent>,
                   extra: multiset<OutboxEvent>)
    requires OutboxOk(m, outbox) && SessionsEvolve(m, n) && Announces(m, n, extra)
    ensures OutboxOk(n, outbox + extra)
  {
  }

  // ---------------------------------------------------------------- revocation of users

  lemma SessionsRevoked(m: map<SessionId, Session>, users: set<UserId>, reason: Reason, now: nat)
    requires SessionsOk(m)
    ensures var n := RevokedSessions(m, users, reason, now);
            SessionsOk(n) && SessionsEvolve(m, n) && Shut(n, users)
  {
  }

  lemma TokensRevoked(s: State, users: set<UserId>, active: map<UserId, bool>, reason: Reason)
    requires ActiveTokensOk(s.dir, s.users, s.sessions, s.tokens)
    requires forall u :: IsActive(s.users, u) && u !in users ==> IsActive(active, u)
    ensures var n := RevokedTokens(s.tokens, users, s.now);
            TokensEvolve(s.tokens, n) && StillGood(users, active, RevokedSessions(s.sessions, users, reason, s.now), n)
  {
  }

  /** Everything these users had is revoked; nobody else lost a path or was deactivated. */
  lemma RevocationKeeps(cfg: Config, s: State, dir: Directory, active: map<UserId, bool>, users: set<UserId>,
                        reason: Reason, extra: multiset<OutboxEvent>)
    requires Inv(cfg, s) && PathsKept(s.dir, dir, users)
    requires forall u :: IsActive(s.users, u) && u !in users ==> IsActive(active, u)
    requires Announces(s.sessions, RevokedSessions(s.sessions, users, reason, s.now), extra)
    ensures var t := RevokeSecurityState(s.(dir := dir, users := active), users, reason).(outbox := s.outbox + extra);
            Inv(cfg, t) && Evolves(s, t)
  {
    var t := RevokeSecurityState(s.(dir := dir, users := active), users, reason).(outbox := s.outbox + extra);
    SessionsRevoked(s.sessions, users, reason, s.now);
    TokensRevoked(s, users, active, reason);
    CodesKept(s.dir, s.sessions, dir, t.sessions, users, s.codes);
    RequestsKept(s.dir, s.sessions, dir, t.sessions, users, s.requests);
    GrantsKept(cfg, s.codes, s.codes, s.tokens, t.tokens);
    ActiveTokensKept(s.dir, s.users, s.sessions, s.tokens, dir, active, t.sessions, t.tokens, users);
    OutboxKept(s.sessions, t.sessions, s.outbox, extra);
  }

  lemma SilentRevocation(m: map<SessionId, Session>, users: set<UserId>, reason: Reason, now: nat,
                         extra: multiset<OutboxEvent>)
    requires SessionsOk(m) && (reason == PasswordReset || reason == AccessLost)
    requires forall e :: e in extra ==> !e.SessionEnded?
    ensures Announces(m, RevokedSessions(m, users, reason, now), extra)
  {
  }

  lemma AnnouncedRevocation(m: map<SessionId, Session>, users: set<UserId>, now: nat)
    requires SessionsOk(m)
    ensures Announces(m, RevokedSessions(m, users, UserDeactivated, now),
                      multiset(SessionEvents(m, EndedBy(m, users), UserDeactivated)))
  {
  }

  // ---------------------------------------------------------------- the directory

  lemma LostUsersLose(d: Directory, e: Directory, users: set<UserId>, apps: set<AppId>)
    requires forall u, a :: HasPath(d, u, a) && !HasPath(e, u, a) ==> u in users && a in apps
    ensures PathsKept(d, e, LosingUsers(LostPairs(e, users, apps)))
  {
    var lost := LostPairs(e, users, apps);
    forall u, a | HasPath(d, u, a) && u !in LosingUsers(lost) ensures HasPath(e, u, a) {
      assert !HasPath(e, u, a) ==> Pair(u, a) in lost;
      assert Pair(u, a) in lost ==> Pair(u, a).user in LosingUsers(lost);
    }
  }

  lemma LostAccessKeeps(cfg: Config, s: State, dir: Directory, users: set<UserId>, apps: set<AppId>)
    requires Inv(cfg, s)
    requires forall u, a :: HasPath(s.dir, u, a) && !HasPath(dir, u, a) ==> u in users && a in apps
    ensures var t := RevokeLostAccess(s.(dir := dir), users, apps); Inv(cfg, t) && Evolves(s, t)
  {
    var lost := LostPairs(dir, users, apps);
    LostUsersLose(s.dir, dir, users, apps);
    SilentRevocation(s.sessions, LosingUsers(lost), AccessLost, s.now, multiset(AccessEvents(lost)));
    RevocationKeeps(cfg, s, dir, s.users, LosingUsers(lost), AccessLost, multiset(AccessEvents(lost)));
  }

  lemma DeletedGroupPaths(d: Directory, g: GroupId, u: UserId, a: AppId)
    requires HasPath(d, u, a) && !HasPath(WithoutGroup(d, g), u, a)
    ensures u in MembersOf(d, g) && a in AllowedBy(d, g)
  {
  }

  lemma DeleteGroupKeeps(cfg: Config, s: State, g: GroupId)
    requires Inv(cfg, s)
    ensures Inv(cfg, DeleteGroup(s, g)) && Evolves(s, DeleteGroup(s, g))
  {
    if g !in s.dir.groups || g == CONTROL_PANEL_ADMINS {
      SameEvolves(s);
    } else {
      var dir := WithoutGroup(s.dir, g);
      forall u, a | HasPath(s.dir, u, a) && !HasPath(dir, u, a)
        ensures u in MembersOf(s.dir, g) && a in AllowedBy(s.dir, g) {
        DeletedGroupPaths(s.dir, g, u, a);
      }
      LostAccessKeeps(cfg, s, dir, MembersOf(s.dir, g), AllowedBy(s.dir, g));
    }
  }

  function WithoutMember(d: Directory, u: UserId, g: GroupId): Directory {
    d.(members := d.members - {Membership(u, g)})
  }

  function WithoutPolicy(d: Directory, a: AppId, g: GroupId): Directory { d.(policies := d.policies - {Policy(a, g)}) }

  lemma LeftGroupPaths(d: Directory, v: UserId, g: GroupId, u: UserId, a: AppId)
    requires HasPath(d, u, a) && !HasPath(WithoutMember(d, v, g), u, a)
    ensures u == v && a in AllowedBy(d, g)
  {
  }

  lemma DisallowedPaths(d: Directory, b: AppId, g: GroupId, u: UserId, a: AppId)
    requires HasPath(d, u, a) && !HasPath(WithoutPolicy(d, b, g), u, a)
    ensures u in MembersOf(d, g) && a == b
  {
  }

  lemma RemoveMembershipKeeps(cfg: Config, s: State, u: UserId, g: GroupId, othersSeen: bool)
    requires Inv(cfg, s)
    ensures var t := RemoveMembership(s, u, g, othersSeen); Inv(cfg, t) && Evolves(s, t)
  {
    if RemoveMembership(s, u, g, othersSeen) == s {
      SameEvolves(s);
    } else {
      var dir := WithoutMember(s.dir, u, g);
      forall v, a | HasPath(s.dir, v, a) && !HasPath(dir, v, a) ensures v in {u} && a in AllowedBy(s.dir, g) {
        LeftGroupPaths(s.dir, u, g, v, a);
      }
      LostAccessKeeps(cfg, s, dir, {u}, AllowedBy(s.dir, g));
    }
  }

  lemma RemovePolicyKeeps(cfg: Config, s: State, a: AppId, g: GroupId)
    requires Inv(cfg, s)
    ensures Inv(cfg, RemovePolicy(s, a, g)) && Evolves(s, RemovePolicy(s, a, g))
  {
    if RemovePolicy(s, a, g) == s {
      SameEvolves(s);
    } else {
      var dir := WithoutPolicy(s.dir, a, g);
      forall u, b | HasPath(s.dir, u, b) && !HasPath(dir, u, b) ensures u in MembersOf(s.dir, g) && b in {a} {
        DisallowedPaths(s.dir, a, g, u, b);
      }
      LostAccessKeeps(cfg, s, dir, MembersOf(s.dir, g), {a});
    }
  }

  // ---------------------------------------------------------------- writes to one row

  lemma SessionWritten(cfg: Config, s: State, id: SessionId, y: Session)
    requires Inv(cfg, s) && SessionOk(y) && y.status != Revoked
             && (id in s.sessions ==> SessionEvolves(s.sessions[id], y))
    ensures var t := s.(sessions := s.sessions[id := y]); Inv(cfg, t) && Evolves(s, t)
  {
    var n := s.sessions[id := y];
    CodesKept(s.dir, s.sessions, s.dir, n, {}, s.codes);
    RequestsKept(s.dir, s.sessions, s.dir, n, {}, s.requests);
    AlreadyGood(s.dir, s.users, s.sessions, s.tokens);
    ActiveTokensKept(s.dir, s.users, s.sessions, s.tokens, s.dir, s.users, n, s.tokens, {});
    assert Announces(s.sessions, n, multiset{});
    OutboxKept(s.sessions, n, s.outbox, multiset{});
    assert s.outbox + multiset{} == s.outbox;
  }

  lemma CodesWritten(cfg: Config, s: State, codes: map<CodeId, Code>)
    requires Inv(cfg, s) && CodesEvolve(s.codes, codes) && CodesOk(s.dir, s.sessions, codes)
    ensures Inv(cfg, s.(codes := codes)) && Evolves(s, s.(codes := codes))
  {
    GrantsKept(cfg, s.codes, codes, s.tokens, s.tokens);
  }

  lemma RequestWritten(cfg: Config, s: State, r: RequestId, y: Request)
    requires Inv(cfg, s) && RequestOk(s.dir, s.sessions, y) && (r in s.requests ==> RequestEvolves(s.requests[r], y))
    ensures var t := s.(requests := s.requests[r := y]); Inv(cfg, t) && Evolves(s, t)
  {
  }

  lemma TokensWritten(cfg: Config, s: State, tokens: map<TokenId, Token>)
    requires Inv(cfg, s) && TokensEvolve(s.tokens, tokens) && tokens.Keys == s.tokens.Keys
    requires forall t :: t in tokens && tokens[t].status == Active ==> tokens[t] == s.tokens[t]
    ensures Inv(cfg, s.(tokens := tokens)) && Evolves(s, s.(tokens := tokens))
  {
  }

  lemma ChallengesWritten(cfg: Config, s: State, challenges: map<ChallengeId, Challenge>)
    requires Inv(cfg, s) && ChallengesEvolve(s.challenges, challenges)
    ensures Inv(cfg, s.(challenges := challenges)) && Evolves(s, s.(challenges := challenges))
  {
  }

  lemma PathsGrow(cfg: Config, s: State, dir: Directory, active: map<UserId, bool>)
    requires Inv(cfg, s) && s.dir.members <= dir.members && s.dir.policies <= dir.policies
    requires forall u :: IsActive(s.users, u) ==> IsActive(active, u)
    ensures var t := s.(dir := dir, users := active); Inv(cfg, t) && Evolves(s, t)
  {
    forall u, a | HasPath(s.dir, u, a) ensures HasPath(dir, u, a) {
      var m :| m in s.dir.members && m.user == u && Policy(a, m.group) in s.dir.policies;
      assert m in dir.members && Policy(a, m.group) in dir.policies;
    }
    CodesKept(s.dir, s.sessions, dir, s.sessions, {}, s.codes);
    RequestsKept(s.dir, s.sessions, dir, s.sessions, {}, s.requests);
    AlreadyGood(s.dir, s.users, s.sessions, s.tokens);
    ActiveTokensKept(s.dir, s.users, s.sessions, s.tokens, dir, active, s.sessions, s.tokens, {});
  }

  // ---------------------------------------------------------------- sessions and challenges

  lemma CurrentSessionKeeps(cfg: Config, s: State, id: SessionId)
    requires Inv(cfg, s)
    ensures Inv(cfg, CurrentSession(s, id).0) && Evolves(s, CurrentSession(s, id).0)
  {
    if id in s.sessions && s.sessions[id].status == Active && s.sessions[id].revokedAt.None?
        && s.sessions[id].expiresAt <= s.now {
      assert SessionOk(s.sessions[id]);
      SessionWritten(cfg, s, id, s.sessions[id].(status := Expired));
    } else {
      SameEvolves(s);
    }
  }

  lemma IssueSessionKeeps(cfg: Config, s: State, id: SessionId, u: UserId)
    requires Inv(cfg, s)
    ensures Inv(cfg, IssueSession(cfg, s, id, u)) && Evolves(s, IssueSession(cfg, s, id, u))
  {
    if u !in s.users || id in s.sessions {
      SameEvolves(s);
    } else {
      SessionWritten(cfg, s, id, Session(u, Active, s.now + cfg.sessionTtlMs, s.now, None, None));
    }
  }

  lemma LogoutKeeps(cfg: Config, s: State, id: SessionId)
    requires Inv(cfg, s)
    ensures Inv(cfg, Logout(s, id)) && Evolves(s, Logout(s, id))
  {
    if id !in s.sessions || s.sessions[id].status != Active || s.sessions[id].revokedAt.Some? {
      SameEvolves(s);
    } else {
      var t := Logout(s, id);
      assert SessionOk(s.sessions[id]);
      CodesKept(s.dir, s.sessions, s.dir, t.sessions, {}, s.codes);
      RequestsKept(s.dir, s.sessions, s.dir, t.sessions, {}, s.requests);
      LogoutLeavesGood(s, id);
      GrantsKept(cfg, s.codes, s.codes, s.tokens, t.tokens);
      ActiveTokensKept(s.dir, s.users, s.sessions, s.tokens, s.dir, s.users, t.sessions, t.tokens, {});
      LogoutAnnounces(s, id);
      OutboxKept(s.sessions, t.sessions, s.outbox, multiset{SessionEnded(id, s.sessions[id].user, SsoLogout)});
    }
  }

  /** A logout leaves the session no active token, unless the session had expired before, which makes it
      change nothing. */
  lemma LogoutClosesTokens(s: State, id: SessionId)
    requires SessionsOk(s.sessions) && ActiveTokensOk(s.dir, s.users, s.sessions, s.tokens) && id in s.sessions
    ensures if s.sessions[id].status == Expired then Logout(s, id) == s
            else forall t :: t in Logout(s, id).tokens && Logout(s, id).tokens[t].session == id ==>
                   Logout(s, id).tokens[t].status != Active
  {
    assert SessionOk(s.sessions[id]);
    forall t | t in s.tokens && s.tokens[t].session == id && s.sessions[id].status != Expired
      ensures Logout(s, id).tokens[t].status != Active
    {
      assert ActiveTokenOk(s.dir, s.users, s.sessions, s.tokens[t]);
    }
  }

  lemma LogoutLeavesGood(s: State, id: SessionId)
    requires ActiveTokensOk(s.dir, s.users, s.sessions, s.tokens) && id in s.sessions && s.sessions[id].status == Active
    requires s.sessions[id].revokedAt.None?
    ensures StillGood({}, s.users, Logout(s, id).sessions, Logout(s, id).tokens)
    ensures TokensEvolve(s.tokens, Logout(s, id).tokens)
  {
    var t := Logout(s, id);
    AlreadyGood(s.dir, s.users, s.sessions, s.tokens);
    forall k | k in t.tokens && t.tokens[k].status == Active
      ensures IsActive(s.users, t.tokens[k].user) && t.tokens[k].revokedAt.None?
           && t.tokens[k].session in t.sessions && t.sessions[t.tokens[k].session].status != Revoked
    {
      assert t.tokens[k] == s.tokens[k];
    }
  }

  lemma LogoutAnnounces(s: State, id: SessionId)
    requires SessionsOk(s.sessions) && id in s.sessions && s.sessions[id].status == Active
             && s.sessions[id].revokedAt.None?
    ensures Announces(s.sessions, Logout(s, id).sessions, multiset{SessionEnded(id, s.sessions[id].user, SsoLogout)})
  {
  }

  lemma StartChallengeKeeps(cfg: Config, s: State, c: ChallengeId, u: UserId, intent: Intent)
    requires Inv(cfg, s)
    ensures Inv(cfg, StartChallenge(cfg, s, c, u, intent)) && Evolves(s, StartChallenge(cfg, s, c, u, intent))
  {
    if u !in s.users || c in s.challenges {
      SameEvolves(s);
    } else {
      ChallengesWritten(cfg, s, StartChallenge(cfg, s, c, u, intent).challenges);
    }
  }

  lemma CompleteChallengeKeeps(cfg: Config, s: State, c: ChallengeId, id: SessionId, claimed: bool)
    requires Inv(cfg, s)
    ensures var t := CompleteChallenge(cfg, s, c, id, claimed); Inv(cfg, t) && Evolves(s, t)
  {
    if !ChallengeAccepted(s, c) || !claimed || id in s.sessions {
      SameEvolves(s);
    } else {
      var m := s.(challenges := s.challenges[c := s.challenges[c].(usedAt := Some(s.now))]);
      ChallengesWritten(cfg, s, m.challenges);
      IssueSessionKeeps(cfg, m, id, s.challenges[c].user);
      EvolvesTransitive(s, m, IssueSession(cfg, m, id, s.challenges[c].user));
    }
  }

  // ---------------------------------------------------------------- authorization

  lemma IdentifyKeeps(cfg: Config, s: State, r: RequestId, id: SessionId)
    requires Inv(cfg, s)
    ensures Inv(cfg, Identify(s, r, id)) && Evolves(s, Identify(s, r, id))
  {
    if r !in s.requests || !s.requests[r].Asked? {
      SameEvolves(s);
    } else {
      var (t, user) := CurrentSession(s, id);
      CurrentSessionKeeps(cfg, s, id);
      if user.Some? {
        var x := s.requests[r];
        RequestWritten(cfg, s, r, Identified(x.app, x.redirectUri, x.pkce, user.value, id, SessionSeen));
      }
    }
  }

  lemma AdvanceKeeps(cfg: Config, s: State, r: RequestId, stage: Stage)
    requires Inv(cfg, s) && r in s.requests && s.requests[r].Identified?
    requires stage == PolicyChecked ==> HasPath(s.dir, s.requests[r].user, s.requests[r].app)
    ensures Inv(cfg, Advance(s, r, stage)) && Evolves(s, Advance(s, r, stage))
  {
  }

  lemma InsertCodeKeeps(cfg: Config, s: State, r: RequestId, c: CodeId)
    requires Inv(cfg, s)
    ensures Inv(cfg, InsertCode(cfg, s, r, c)) && Evolves(s, InsertCode(cfg, s, r, c))
  {
    if !IsAt(s, r, PolicyChecked) || c in s.codes {
      SameEvolves(s);
    } else {
      var x := s.requests[r];
      var y := Code(x.user, x.app, x.session, x.redirectUri, x.pkce, s.now + cfg.codeTtlMs, None);
      var m := s.(codes := s.codes[c := y]);
      assert RequestOk(s.dir, s.sessions, x);
      assert CodeOk(s.dir, s.sessions, y);
      CodesWritten(cfg, s, m.codes);
      AdvanceKeeps(cfg, m, r, Finished);
      EvolvesTransitive(s, m, Advance(m, r, Finished));
      assert InsertCode(cfg, s, r, c) == Advance(m, r, Finished);
    }
  }

  lemma TokenIssued(cfg: Config, s: State, t: TokenId, y: Token)
    requires Inv(cfg, s) && t !in s.tokens && GrantOk(cfg, s.codes, y) && ActiveTokenOk(s.dir, s.users, s.sessions, y)
    requires forall u :: u in s.tokens ==> s.tokens[u].grant.code != y.grant.code
    ensures var m := s.(tokens := s.tokens[t := y]); Inv(cfg, m) && Evolves(s, m)
  {
    var m := s.(tokens := s.tokens[t := y]);
    forall u | u in m.tokens
      ensures GrantOk(cfg, s.codes, m.tokens[u]) && ActiveTokenOk(s.dir, s.users, s.sessions, m.tokens[u])
    {
      if u != t {
        assert GrantOk(cfg, s.codes, s.tokens[u]) && ActiveTokenOk(s.dir, s.users, s.sessions, s.tokens[u]);
      }
    }
  }

  function WithUsedCode(s: State, c: CodeId): State
    requires c in s.codes
  {
    s.(codes := s.codes[c := s.codes[c].(usedAt := Some(s.now))])
  }

  /** The exchange never looks at the policies; that its code was unused and its session active is
      enough. */
  lemma RedeemedTokenOk(cfg: Config, s: State, c: CodeId, a: AppId, uri: Uri, v: Verifier)
    requires CodesOk(s.dir, s.sessions, s.codes) && CodeAccepted(cfg, s, c, a, uri, v)
    ensures GrantOk(cfg, WithUsedCode(s, c).codes, NewToken(cfg, s, c, uri, v))
    ensures ActiveTokenOk(s.dir, s.users, s.sessions, NewToken(cfg, s, c, uri, v))
  {
  }

  lemma UseCodeKeeps(cfg: Config, s: State, c: CodeId)
    requires Inv(cfg, s) && c in s.codes && s.codes[c].usedAt.None?
    ensures Inv(cfg, WithUsedCode(s, c)) && Evolves(s, WithUsedCode(s, c))
    ensures forall u :: u in s.tokens ==> s.tokens[u].grant.code != c
  {
    UsedCode(s, c);
    CodesWritten(cfg, s, WithUsedCode(s, c).codes);
    UnusedCodeHasNoToken(cfg, s, c);
  }

  lemma TouchSessionKeeps(cfg: Config, s: State, id: SessionId)
    requires Inv(cfg, s)
    ensures Inv(cfg, TouchSession(s, id).0) && Evolves(s, TouchSession(s, id).0)
  {
    if id in s.sessions && Usable(s.sessions[id], s.now) {
      assert SessionOk(s.sessions[id]);
      SessionWritten(cfg, s, id, s.sessions[id].(lastActivityAt := s.now));
    } else {
      SameEvolves(s);
    }
  }

  function Redeemed(cfg: Config, s: State, t: TokenId, c: CodeId, uri: Uri, v: Verifier): State
    requires c in s.codes
  {
    WithUsedCode(s, c).(tokens := s.tokens[t := NewToken(cfg, s, c, uri, v)])
  }

  lemma RedeemKeeps(cfg: Config, s: State, t: TokenId, c: CodeId, a: AppId, uri: Uri, v: Verifier)
    requires Inv(cfg, s) && CodeAccepted(cfg, s, c, a, uri, v) && t !in s.tokens
    ensures Inv(cfg, Redeemed(cfg, s, t, c, uri, v)) && Evolves(s, Redeemed(cfg, s, t, c, uri, v))
  {
    var m := WithUsedCode(s, c);
    var y := NewToken(cfg, s, c, uri, v);
    RedeemedTokenOk(cfg, s, c, a, uri, v);
    UseCodeKeeps(cfg, s, c);
    TokenIssued(cfg, m, t, y);
    EvolvesTransitive(s, m, m.(tokens := m.tokens[t := y]));
  }

  lemma AcceptedAfterTouch(cfg: Config, s: State, t: TokenId, c: CodeId, a: AppId, uri: Uri, v: Verifier)
    requires CodeAccepted(cfg, s, c, a, uri, v) && t !in s.tokens
    ensures var m := TouchSession(s, s.codes[c].session).0;
            && CodeAccepted(cfg, m, c, a, uri, v) && t !in m.tokens
            && Exchange(cfg, s, t, c, a, uri, v) == Redeemed(cfg, m, t, c, uri, v)
  {
  }

  lemma ExchangeKeeps(cfg: Config, s: State, t: TokenId, c: CodeId, a: AppId, uri: Uri, v: Verifier)
    requires Inv(cfg, s)
    ensures var m := Exchange(cfg, s, t, c, a, uri, v); Inv(cfg, m) && Evolves(s, m)
  {
    if !CodeAccepted(cfg, s, c, a, uri, v) || t in s.tokens {
      SameEvolves(s);
    } else {
      var m := TouchSession(s, s.codes[c].session).0;
      TouchSessionKeeps(cfg, s, s.codes[c].session);
      AcceptedAfterTouch(cfg, s, t, c, a, uri, v);
      RedeemKeeps(cfg, m, t, c, a, uri, v);
      EvolvesTransitive(s, m, Redeemed(cfg, m, t, c, uri, v));
    }
  }

  lemma UsedCode(s: State, c: CodeId)
    requires CodesOk(s.dir, s.sessions, s.codes) && c in s.codes && s.codes[c].usedAt.None?
    ensures var codes := s.codes[c := s.codes[c].(usedAt := Some(s.now))];
            CodesOk(s.dir, s.sessions, codes) && CodesEvolve(s.codes, codes)
  {
  }

  lemma UnusedCodeHasNoToken(cfg: Config, s: State, c: CodeId)
    requires GrantsOk(cfg, s.codes, s.tokens) && c in s.codes && s.codes[c].usedAt.None?
    ensures forall u :: u in s.tokens ==> s.tokens[u].grant.code != c
  {
  }

  lemma GetProfileKeeps(cfg: Config, s: State, t: TokenId)
    requires Inv(cfg, s)
    ensures Inv(cfg, GetProfile(s, t).0) && Evolves(s, GetProfile(s, t).0)
  {
    if t !in s.tokens {
      SameEvolves(s);
    } else if TokenAccepted(s, t) && HasPath(s.dir, s.tokens[t].user, s.tokens[t].app) {
      TouchSessionKeeps(cfg, s, s.tokens[t].session);
    } else if !TokenAccepted(s, t) && LiveToken(s.tokens[t]) && s.tokens[t].expiresAt <= s.now {
      TokensWritten(cfg, s, s.tokens[t := s.tokens[t].(status := Expired)]);
    } else {
      SameEvolves(s);
    }
  }

  // ---------------------------------------------------------------- administration

  lemma UpdateStatusKeeps(cfg: Config, s: State, u: UserId, active: bool, seen: bool, refused: bool)
    requires Inv(cfg, s)
    ensures var t := UpdateStatus(s, u, active, seen, refused); Inv(cfg, t) && Evolves(s, t)
  {
    if u !in s.users || seen == active || (!active && refused) {
      SameEvolves(s);
    } else if active {
      PathsGrow(cfg, s, s.dir, s.users[u := true]);
    } else {
      AnnouncedRevocation(s.sessions, {u}, s.now);
      RevocationKeeps(cfg, s, s.dir, s.users[u := false], {u}, UserDeactivated,
                      multiset(SessionEvents(s.sessions, EndedBy(s.sessions, {u}), UserDeactivated)));
    }
  }

  lemma UpdatePasswordKeeps(cfg: Config, s: State, u: UserId)
    requires Inv(cfg, s)
    ensures Inv(cfg, UpdatePassword(s, u)) && Evolves(s, UpdatePassword(s, u))
  {
    if u !in s.users {
      SameEvolves(s);
    } else {
      SilentRevocation(s.sessions, {u}, PasswordReset, s.now, multiset(PasswordEvents({u})));
      RevocationKeeps(cfg, s, s.dir, s.users, {u}, PasswordReset, multiset(PasswordEvents({u})));
    }
  }

  lemma UpdateApplicationKeeps(cfg: Config, s: State, a: AppId, active: bool, seen: bool)
    requires Inv(cfg, s)
    ensures Inv(cfg, UpdateApplication(s, a, active, seen)) && Evolves(s, UpdateApplication(s, a, active, seen))
  {
    if a in s.apps && seen && !active {
      TokensOfApplicationEnd(s, a);
      var tokens := UpdateApplication(s, a, false, true).tokens;
      TokensWritten(cfg, s, tokens);
      AppsWritten(cfg, s.(tokens := tokens), s.apps[a := s.apps[a].(active := active)]);
      EvolvesTransitive(s, s.(tokens := tokens), UpdateApplication(s, a, active, seen));
    } else if a in s.apps {
      AppsWritten(cfg, s, s.apps[a := s.apps[a].(active := active)]);
    } else {
      SameEvolves(s);
    }
  }

  lemma TokensOfApplicationEnd(s: State, a: AppId)
    requires a in s.apps
    ensures var tokens := UpdateApplication(s, a, false, true).tokens;
            && TokensEvolve(s.tokens, tokens) && tokens.Keys == s.tokens.Keys
            && forall t :: t in tokens && tokens[t].status == Active ==> tokens[t] == s.tokens[t]
  {
  }

  lemma AppsWritten(cfg: Config, s: State, apps: map<AppId, Application>)
    requires Inv(cfg, s) && apps.Keys == s.apps.Keys
    ensures Inv(cfg, s.(apps := apps)) && Evolves(s, s.(apps := apps))
  {
    SameEvolves(s);
  }

  lemma RemoveRedirectUriKeeps(cfg: Config, s: State, a: AppId, uri: Uri)
    requires Inv(cfg, s)
    ensures Inv(cfg, RemoveRedirectUri(s, a, uri)) && Evolves(s, RemoveRedirectUri(s, a, uri))
  {
    if RemoveRedirectUri(s, a, uri) == s {
      SameEvolves(s);
    } else {
      var codes := RemoveRedirectUri(s, a, uri).codes;
      forall c | c in codes ensures CodeOk(s.dir, s.sessions, codes[c]) {
        assert CodeOk(s.dir, s.sessions, s.codes[c]);
      }
      CodesWritten(cfg, s, codes);
    }
  }

  // ---------------------------------------------------------------- every step, every run

  lemma RevokingStep(cfg: Config, s: State, op: Op)
    requires Inv(cfg, s)
    requires op.DropGroup? || op.Leave? || op.Disallow? || op.SetStatus? || op.SetPassword? || op.LogOut?
    ensures Inv(cfg, Apply(cfg, s, op)) && Evolves(s, Apply(cfg, s, op))
  {
    match op
    case DropGroup(g) => DeleteGroupKeeps(cfg, s, g);
    case Leave(u, g, othersSeen) => RemoveMembershipKeeps(cfg, s, u, g, othersSeen);
    case Disallow(a, g) => RemovePolicyKeeps(cfg, s, a, g);
    case SetStatus(u, active, seen, refused) => UpdateStatusKeeps(cfg, s, u, active, seen, refused);
    case SetPassword(u) => UpdatePasswordKeeps(cfg, s, u);
    case LogOut(id) => LogoutKeeps(cfg, s, id);
  }

  lemma AuthorizeKeeps(cfg: Config, s: State, r: RequestId, a: AppId, uri: Uri, pkce: PkceChallenge)
    requires Inv(cfg, s)
    ensures Inv(cfg, BeginAuthorize(s, r, a, uri, pkce)) && Evolves(s, BeginAuthorize(s, r, a, uri, pkce))
  {
    SameEvolves(s);
    if r !in s.requests {
      RequestWritten(cfg, s, r, Asked(a, uri, pkce));
    }
  }

  predicate IsLoginStep(op: Op) { op.LogIn? || op.Challenged? || op.LogInWithFactor? }

  lemma LoginStep(cfg: Config, s: State, op: Op)
    requires Inv(cfg, s) && IsLoginStep(op)
    ensures Inv(cfg, Apply(cfg, s, op)) && Evolves(s, Apply(cfg, s, op))
  {
    match op
    case LogIn(id, u) => IssueSessionKeeps(cfg, s, id, u);
    case Challenged(c, u, intent) => StartChallengeKeeps(cfg, s, c, u, intent);
    case LogInWithFactor(c, id, claimed) => CompleteChallengeKeeps(cfg, s, c, id, claimed);
  }

  lemma ReadStep(cfg: Config, s: State, op: Op)
    requires Inv(cfg, s) && (op.ReadSession? || op.TouchAlone? || op.ReadProfile?)
    ensures Inv(cfg, Apply(cfg, s, op)) && Evolves(s, Apply(cfg, s, op))
  {
    match op
    case ReadSession(id) => CurrentSessionKeeps(cfg, s, id);
    case TouchAlone(id) => TouchSessionKeeps(cfg, s, id);
    case ReadProfile(t) => GetProfileKeeps(cfg, s, t);
  }

  predicate IsRequestStep(op: Op) { op.Authorize? || op.See? || op.Touch? || op.Check? }

  lemma RequestStep(cfg: Config, s: State, op: Op)
    requires Inv(cfg, s) && IsRequestStep(op)
    ensures Inv(cfg, Apply(cfg, s, op)) && Evolves(s, Apply(cfg, s, op))
  {
    match op
    case Authorize(r, a, uri, pkce) => AuthorizeKeeps(cfg, s, r, a, uri, pkce);
    case See(r, id) => IdentifyKeeps(cfg, s, r, id);
    case Touch(r) => TouchKeeps(cfg, s, r);
    case Check(r) => CheckKeeps(cfg, s, r);
  }

  lemma CodeStep(cfg: Config, s: State, op: Op)
    requires Inv(cfg, s) && (op.Insert? || op.Redeem?)
    ensures Inv(cfg, Apply(cfg, s, op)) && Evolves(s, Apply(cfg, s, op))
  {
    match op
    case Insert(r, c) => InsertCodeKeeps(cfg, s, r, c);
    case Redeem(t, c, a, uri, v) => ExchangeKeeps(cfg, s, t, c, a, uri, v);
  }

  lemma TouchKeeps(cfg: Config, s: State, r: RequestId)
    requires Inv(cfg, s)
    ensures Inv(cfg, TouchRequest(s, r)) && Evolves(s, TouchRequest(s, r))
  {
    if !IsAt(s, r, SessionSeen) {
      SameEvolves(s);
    } else {
      var (t, touched) := TouchSession(s, s.requests[r].session);
      TouchSessionKeeps(cfg, s, s.requests[r].session);
      AdvanceKeeps(cfg, t, r, if touched then SessionTouched else Finished);
      EvolvesTransitive(s, t, TouchRequest(s, r));
    }
  }

  lemma CheckKeeps(cfg: Config, s: State, r: RequestId)
    requires Inv(cfg, s)
    ensures Inv(cfg, CheckPolicy(s, r)) && Evolves(s, CheckPolicy(s, r))
  {
    if !IsAt(s, r, SessionTouched) {
      SameEvolves(s);
    } else {
      AdvanceKeeps(cfg, s, r, if HasPath(s.dir, s.requests[r].user, s.requests[r].app) then PolicyChecked
                   else Finished);
    }
  }

  lemma GrowingStep(cfg: Config, s: State, op: Op)
    requires Inv(cfg, s) && (op.NewUser? || op.NewGroup? || op.Join? || op.Allow?)
    ensures Inv(cfg, Apply(cfg, s, op)) && Evolves(s, Apply(cfg, s, op))
  {
    match op
    case NewUser(u) => PathsGrow(cfg, s, s.dir, if u in s.users then s.users else s.users[u := true]);
    case NewGroup(g) => PathsGrow(cfg, s, s.dir.(groups := s.dir.groups + {g}), s.users);
    case Join(u, g) => PathsGrow(cfg, s, AddMembership(s, u, g).dir, s.users);
    case Allow(a, g) => PathsGrow(cfg, s, AddPolicy(s, a, g).dir, s.users);
  }

  predicate IsApplicationStep(op: Op) {
    op.Elapse? || op.NewApplication? || op.SetApplication? || op.AddUri? || op.RemoveUri?
  }

  lemma ApplicationStep(cfg: Config, s: State, op: Op)
    requires Inv(cfg, s) && IsApplicationStep(op)
    ensures Inv(cfg, Apply(cfg, s, op)) && Evolves(s, Apply(cfg, s, op))
  {
    match op
    case Elapse(_) => SameEvolves(s);
    case NewApplication(_, _) => SameEvolves(s);
    case SetApplication(a, active, seen) => UpdateApplicationKeeps(cfg, s, a, active, seen);
    case AddUri(_, _) => SameEvolves(s);
    case RemoveUri(a, uri) => RemoveRedirectUriKeeps(cfg, s, a, uri);
  }

  lemma StepKeeps(cfg: Config, s: State, op: Op)
    requires Inv(cfg, s)
    ensures Inv(cfg, Apply(cfg, s, op)) && Evolves(s, Apply(cfg, s, op))
  {
    if IsLoginStep(op) {
      LoginStep(cfg, s, op);
    } else if op.ReadSession? || op.TouchAlone? || op.ReadProfile? {
      ReadStep(cfg, s, op);
    } else if IsRequestStep(op) {
      RequestStep(cfg, s, op);
    } else if op.Insert? || op.Redeem? {
      CodeStep(cfg, s, op);
    } else if IsApplicationStep(op) {
      ApplicationStep(cfg, s, op);
    } else if op.DropGroup? || op.Leave? || op.Disallow? || op.SetStatus? || op.SetPassword? || op.LogOut? {
      RevokingStep(cfg, s, op);
    } else {
      GrowingStep(cfg, s, op);
    }
  }

  lemma {:induction false} RunKeeps(cfg: Config, s: State, ops: seq<Op>)
    requires Inv(cfg, s)
    ensures Inv(cfg, Run(cfg, s, ops)) && Evolves(s, Run(cfg, s, ops))
    decreases ops
  {
    SameEvolves(s);
    if ops != [] {
      var m := Apply(cfg, s, ops[0]);
      StepKeeps(cfg, s, ops[0]);
      RunKeeps(cfg, m, ops[1..]);
      EvolvesTransitive(s, m, Run(cfg, s, ops));
    }
  }

  lemma InitiallyInv(cfg: Config)
    ensures Inv(cfg, INITIAL)
  {
  }
}
