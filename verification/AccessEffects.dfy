/** When each transaction of the Auth Provider does what it is for, in terms of the rows it finds, and
    what it then leaves. */
module AccessEffects {
  import opened LoginChallenges
  import opened Vocabulary
  import opened Sequences
  import opened AccessState

  // ---------------------------------------------------------------- central sessions

  /** The session may be used: by its own row and by that of its user. */
  predicate IsInUse(s: State, id: SessionId) {
    && id in s.sessions && s.sessions[id].status == Active && s.sessions[id].revokedAt.None?
    && s.now < s.sessions[id].expiresAt
    && s.sessions[id].user in s.users && s.users[s.sessions[id].user]
  }

  /** A session cookie is accepted exactly for a session in use. Reading it changes exactly a session that
      has elapsed and was still marked active, and marks it expired. */
  lemma SessionReadExactly(s: State, id: SessionId)
    ensures var (t, user) := CurrentSession(s, id);
            && (user.Some? <==> IsInUse(s, id)) && (user.Some? ==> user.value == s.sessions[id].user)
            && (t != s <==> id in s.sessions && s.sessions[id].status == Active && s.sessions[id].revokedAt.None?
                            && s.sessions[id].expiresAt <= s.now)
            && (t != s ==> t == s.(sessions := s.sessions[id := s.sessions[id].(status := Expired)]))
  {
    var t := CurrentSession(s, id).0;
    assert id in s.sessions && t.sessions[id].status != s.sessions[id].status ==> t != s;
  }

  /** A touch finds exactly a session that is active, not revoked and not elapsed, and writes the time. */
  lemma TouchExactly(s: State, id: SessionId)
    ensures var (t, touched) := TouchSession(s, id);
            && (touched <==> id in s.sessions && s.sessions[id].status == Active && s.sessions[id].revokedAt.None?
                             && s.now < s.sessions[id].expiresAt)
            && t == if touched then s.(sessions := s.sessions[id := s.sessions[id].(lastActivityAt := s.now)]) else s
  {
  }

  /** A session is issued to any existing user, for its lifetime from now; a challenge is opened in the same
      way and replaces the open ones of the user. */
  lemma OpenedExactly(cfg: Config, s: State, u: UserId, id: SessionId, c: ChallengeId, intent: Intent)
    requires id !in s.sessions && c !in s.challenges
    ensures IssueSession(cfg, s, id, u)
         == if u !in s.users then s
            else s.(sessions := s.sessions[id := Session(u, Active, s.now + cfg.sessionTtlMs, s.now, None, None)])
    ensures var t := StartChallenge(cfg, s, c, u, intent);
            if u !in s.users then t == s
            else && t == s.(challenges := t.challenges) && t.challenges.Keys == s.challenges.Keys + {c}
                 && t.challenges[c] == Challenge(u, intent, 0, s.now + cfg.challengeTtlMs, None)
                 && forall d :: d in s.challenges ==>
                      var x, y := s.challenges[d], t.challenges[d];
                      if x.user == u && x.usedAt.None? then y == x.(usedAt := Some(s.now)) else y == x
  {
  }

  /** Completing a challenge issues one session for its user exactly if the challenge is unused and has not
      elapsed, its user is active and exists, and the factor was claimed; the challenge is then used. */
  lemma LoginExactly(cfg: Config, s: State, c: ChallengeId, id: SessionId, factorClaimed: bool)
    requires id !in s.sessions
    ensures var t := CompleteChallenge(cfg, s, c, id, factorClaimed);
            var accepted := factorClaimed && c in s.challenges && s.challenges[c].usedAt.None?
                            && s.now < s.challenges[c].expiresAt
                            && s.challenges[c].user in s.users && s.users[s.challenges[c].user];
            && (id in t.sessions <==> accepted) && (!accepted ==> t == s)
            && (accepted ==>
                  && t.sessions == s.sessions[id := t.sessions[id]] && t.sessions[id].user == s.challenges[c].user
                  && t.challenges == s.challenges[c := s.challenges[c].(usedAt := Some(s.now))]
                  && t.outbox == s.outbox && t.tokens == s.tokens && t.codes == s.codes
                  && forall later: nat ::
                       Usable(t.sessions[id], later) <==> later < s.now + cfg.sessionTtlMs)
  {
  }

  // ---------------------------------------------------------------- authorization codes

  /** A request begins exactly for an active application that has the redirect URI. */
  lemma BeginsExactly(s: State, r: RequestId, a: AppId, uri: Uri, pkce: PkceChallenge)
    requires r !in s.requests
    ensures BeginAuthorize(s, r, a, uri, pkce)
         == if a in s.apps && s.apps[a].active && uri in s.apps[a].redirectUris
            then s.(requests := s.requests[r := Asked(a, uri, pkce)]) else s
  {
  }

  /** It goes on exactly with a session in use. */
  lemma SeesExactly(s: State, r: RequestId, id: SessionId)
    requires r in s.requests && s.requests[r].Asked?
    ensures var t := Identify(s, r, id);
            var x := s.requests[r];
            if IsInUse(s, id)
            then t == s.(requests := s.requests[r := Identified(x.app, x.redirectUri, x.pkce, s.sessions[id].user, id,
                                                                SessionSeen)])
            else t == s.(sessions := t.sessions)
  {
  }

  /** If the session was not ended since then. */
  lemma TouchesExactly(s: State, r: RequestId)
    requires IsAt(s, r, SessionSeen)
    ensures var t := TouchRequest(s, r);
            var id := s.requests[r].session;
            var usable := id in s.sessions && s.sessions[id].status == Active && s.sessions[id].revokedAt.None?
                          && s.now < s.sessions[id].expiresAt;
            && t == s.(sessions := t.sessions, requests := t.requests)
            && t.requests
               == s.requests[r := s.requests[r].(stage := if usable then SessionTouched else Stage.Finished)]
  {
  }

  lemma IdentifiesExactly(s: State, r: RequestId, id: SessionId)
    requires r in s.requests && s.requests[r].Asked?
    ensures var t := TouchRequest(Identify(s, r, id), r);
            var x := s.requests[r];
            && t.codes == s.codes && t.dir == s.dir && t.now == s.now
            && t.requests == if !IsInUse(s, id) then s.requests
                             else s.requests[r := Identified(x.app, x.redirectUri, x.pkce, s.sessions[id].user, id,
                                                             SessionTouched)]
  {
    SeesExactly(s, r, id);
    if IsInUse(s, id) {
      TouchesExactly(Identify(s, r, id), r);
    }
  }

  /** And it ends with a code exactly if a policy lets the user in. */
  lemma InsertsExactly(cfg: Config, s: State, r: RequestId, c: CodeId)
    requires IsAt(s, r, SessionTouched) && c !in s.codes
    ensures var t := InsertCode(cfg, CheckPolicy(s, r), r, c);
            var x := s.requests[r];
            t.codes == if !HasPath(s.dir, x.user, x.app) then s.codes
                       else s.codes[c := Code(x.user, x.app, x.session, x.redirectUri, x.pkce, s.now + cfg.codeTtlMs,
                                              None)]
  {
  }

  /** Without a touched session nothing is inserted. */
  lemma InsertsNothing(cfg: Config, s: State, r: RequestId, c: CodeId)
    requires r in s.requests ==> s.requests[r].Asked?
    ensures InsertCode(cfg, CheckPolicy(s, r), r, c) == s
  {
  }

  /** An authorization request that nobody disturbs inserts a code exactly if its application is active and
      has the redirect URI, its session is in use, and a policy allows its user in. The code then carries
      all of that and its own lifetime. */
  lemma CodeIssuedExactly(cfg: Config, s: State, r: RequestId, a: AppId, uri: Uri, pkce: PkceChallenge, id: SessionId,
                          c: CodeId)
    requires r !in s.requests && c !in s.codes
    ensures var t := Undisturbed(cfg, s, r, a, uri, pkce, id, c);
            var allowed := a in s.apps && s.apps[a].active && uri in s.apps[a].redirectUris && IsInUse(s, id)
                           && HasPath(s.dir, s.sessions[id].user, a);
            t.codes == if !allowed then s.codes
                       else s.codes[c := Code(s.sessions[id].user, a, id, uri, pkce, s.now + cfg.codeTtlMs, None)]
  {
    var asked := BeginAuthorize(s, r, a, uri, pkce);
    var touched := TouchRequest(Identify(asked, r, id), r);
    BeginsExactly(s, r, a, uri, pkce);
    if r in asked.requests {
      IdentifiesExactly(asked, r, id);
      assert IsInUse(asked, id) <==> IsInUse(s, id);
      if IsInUse(s, id) {
        InsertsExactly(cfg, touched, r, c);
      } else {
        InsertsNothing(cfg, touched, r, c);
      }
    } else {
      assert touched == s;
      InsertsNothing(cfg, touched, r, c);
    }
  }

  /** The steps of one request, one after the other. */
  function Undisturbed(cfg: Config, s: State, r: RequestId, a: AppId, uri: Uri, pkce: PkceChallenge, id: SessionId,
                       c: CodeId): State {
    InsertCode(cfg, CheckPolicy(TouchRequest(Identify(BeginAuthorize(s, r, a, uri, pkce), r, id), r), r), r, c)
  }

  /** What the client shows fits the code: it is the application the code was issued to, with the redirect
      URI of the request and a verifier for its challenge. */
  predicate FitsCode(cfg: Config, x: Code, a: AppId, uri: Uri, v: Verifier) {
    x.app == a && x.redirectUri == uri && x.pkce == cfg.s256(v)
  }

  /** An exchange changes anything exactly if the code exists, is unused and has not elapsed, was issued to
      the very application that authenticated, for this redirect URI and a challenge that the verifier
      meets, and user, application and session are in use. It then uses up the code and creates one token,
      of that application and of the code's user and session. */
  lemma ExchangeExactly(cfg: Config, s: State, t: TokenId, c: CodeId, a: AppId, uri: Uri, v: Verifier)
    ensures var n := Exchange(cfg, s, t, c, a, uri, v);
            var granted := t !in s.tokens && c in s.codes && s.codes[c].usedAt.None? && s.now < s.codes[c].expiresAt
                           && FitsCode(cfg, s.codes[c], a, uri, v) && a in s.apps && s.apps[a].active
                           && s.codes[c].user in s.users && s.users[s.codes[c].user]
                           && s.codes[c].session in s.sessions && s.sessions[s.codes[c].session].status == Active
                           && s.sessions[s.codes[c].session].revokedAt.None?
                           && s.now < s.sessions[s.codes[c].session].expiresAt;
            && (n != s <==> granted)
            && (granted ==>
                  && t in n.tokens && n.tokens == s.tokens[t := n.tokens[t]]
                  && n.tokens[t].app == a && n.tokens[t].user == s.codes[c].user
                  && n.tokens[t].session == s.codes[c].session && n.tokens[t].scopes == {"profile"}
                  && n.tokens[t].status == Active && n.tokens[t].revokedAt.None?
                  && n.tokens[t].expiresAt == s.now + cfg.tokenTtlMs
                  && n.codes == s.codes[c := s.codes[c].(usedAt := Some(s.now))]
                  && n.outbox == s.outbox && n.dir == s.dir && n.users == s.users && n.challenges == s.challenges)
  {
    var n := Exchange(cfg, s, t, c, a, uri, v);
    if t in n.tokens && t !in s.tokens {
      assert n.tokens != s.tokens;
    }
  }

  /** The profile is answered exactly for a token that is active, not revoked and not elapsed, whose user,
      application and session are in use, whose scopes hold "profile", and whose user has a path. */
  lemma ProfileExactly(s: State, t: TokenId)
    ensures var user := GetProfile(s, t).1;
            && (user.Some? <==>
                  && t in s.tokens && s.tokens[t].status == Active && s.tokens[t].revokedAt.None?
                  && s.now < s.tokens[t].expiresAt
                  && s.tokens[t].user in s.users && s.users[s.tokens[t].user]
                  && s.tokens[t].app in s.apps && s.apps[s.tokens[t].app].active
                  && s.tokens[t].session in s.sessions && s.sessions[s.tokens[t].session].status == Active
                  && s.sessions[s.tokens[t].session].revokedAt.None?
                     && s.now < s.sessions[s.tokens[t].session].expiresAt
                  && "profile" in s.tokens[t].scopes && HasPath(s.dir, s.tokens[t].user, s.tokens[t].app))
            && (user.Some? ==> user.value == s.tokens[t].user)
  {
  }

  /** A refused reading changes exactly a token that has elapsed and was still marked active. */
  lemma ElapsedTokenIsMarked(s: State, t: TokenId)
    requires t in s.tokens && GetProfile(s, t).1.None?
    ensures var n := GetProfile(s, t).0;
            if s.tokens[t].status == Active && s.tokens[t].revokedAt.None? && s.tokens[t].expiresAt <= s.now
            then n == s.(tokens := s.tokens[t := s.tokens[t].(status := Expired)]) else n == s
  {
  }

  // ---------------------------------------------------------------- revocation of users

  /** A revocation of users changes exactly their open rows: sessions and tokens are revoked now, for this
      reason, and challenges used up. Nothing else changes. */
  lemma RevocationExactly(s: State, users: set<UserId>, reason: Reason)
    ensures var t := RevokeSecurityState(s, users, reason);
            && t == s.(sessions := t.sessions, tokens := t.tokens, challenges := t.challenges)
            && t.sessions.Keys == s.sessions.Keys && t.tokens.Keys == s.tokens.Keys
            && t.challenges.Keys == s.challenges.Keys
            && (forall id :: id in s.sessions ==>
                  var x, y := s.sessions[id], t.sessions[id];
                  if x.user in users && x.status == Active && x.revokedAt.None?
                  then y == x.(status := Revoked, revokedAt := Some(s.now), reason := Some(reason)) else y == x)
            && (forall k :: k in s.tokens ==>
                  var x, y := s.tokens[k], t.tokens[k];
                  if x.user in users && x.status == Active && x.revokedAt.None?
                  then y == x.(status := Revoked, revokedAt := Some(s.now)) else y == x)
            && (forall c :: c in s.challenges ==>
                  var x, y := s.challenges[c], t.challenges[c];
                  if x.user in users && x.usedAt.None? then y == x.(usedAt := Some(s.now)) else y == x)
  {
  }

  /** A password change announces itself once; the tables change as for any revocation of the user. */
  lemma PasswordChangeAnnounces(s: State, u: UserId)
    ensures var t := UpdatePassword(s, u);
            if u !in s.users then t == s
            else && t.outbox == s.outbox + multiset{PasswordChange(u)}
                 && t.(outbox := s.outbox) == RevokeSecurityState(s, {u}, PasswordReset)
  {
    assert (set v | v in {u} :: PasswordChange(v)) == {PasswordChange(u)};
    assert multiset({PasswordChange(u)}) == multiset{PasswordChange(u)};
  }

  /** For a list of users: one event for each of them, however often it is named, and none for others. */
  lemma EachUserAnnouncedOnce(s: State, userIds: seq<UserId>, x: OutboxEvent)
    ensures RevokeForPasswordChange(s, Members(userIds)).outbox[x]
         == s.outbox[x] + if x.PasswordChange? && x.user in userIds then 1 else 0
  {
    var events := set v | v in Members(userIds) :: PasswordChange(v);
    assert x in events <==> x.PasswordChange? && x.user in userIds;
  }

  /** A change of status does anything exactly if the user exists, the status read before was another one,
      and it does not deactivate the last administrator. An activation changes the status only. A
      deactivation also revokes the user and announces each session it ends, once, and nothing else. */
  lemma StatusChangeExactly(s: State, u: UserId, active: bool, seen: bool, refused: bool)
    ensures var t := UpdateStatus(s, u, active, seen, refused);
            if u !in s.users || active == seen || (refused && !active) then t == s
            else if active then t == s.(users := s.users[u := true])
            else && t.users == s.users[u := false]
                 && t.(users := s.users, outbox := s.outbox) == RevokeSecurityState(s, {u}, UserDeactivated)
                 && forall x :: t.outbox[x] == s.outbox[x] + if EndsSession(s, u, x) then 1 else 0
  {
  }

  /** The announcement of a session of the user that is open now. */
  predicate EndsSession(s: State, u: UserId, x: OutboxEvent) {
    && x.SessionEnded? && x.session in s.sessions && s.sessions[x.session].status == Active
    && s.sessions[x.session].revokedAt.None? && s.sessions[x.session].user == u
    && x.user == u && x.reason == UserDeactivated
  }

  /** A logout changes anything exactly if the session is active and not revoked. It revokes that session,
      the active tokens of it and no others, and announces the session once. */
  lemma LogoutExactly(s: State, id: SessionId)
    ensures var t := Logout(s, id);
            if !(id in s.sessions && s.sessions[id].status == Active && s.sessions[id].revokedAt.None?) then t == s
            else && t == s.(sessions := t.sessions, tokens := t.tokens, outbox := t.outbox)
                 && t.sessions == s.sessions[id := s.sessions[id].(status := Revoked, revokedAt := Some(s.now),
                                                                   reason := Some(SsoLogout))]
                 && t.outbox == s.outbox + multiset{SessionEnded(id, s.sessions[id].user, SsoLogout)}
                 && t.tokens.Keys == s.tokens.Keys
                 && forall k :: k in s.tokens ==>
                      var x, y := s.tokens[k], t.tokens[k];
                      if x.session == id && x.status == Active && x.revokedAt.None?
                      then y == x.(status := Revoked, revokedAt := Some(s.now)) else y == x
  {
  }

  // ---------------------------------------------------------------- the directory

  /** A group is deleted with its memberships and policies, and no others, unless it is that of the
      administrators. */
  lemma GroupDeletedExactly(s: State, g: GroupId)
    ensures DeleteGroup(s, g).dir
         == if g !in s.dir.groups || g == 0 then s.dir
            else Directory(s.dir.groups - {g}, set m | m in s.dir.members && m.group != g,
                           set p | p in s.dir.policies && p.group != g)
  {
  }

  /** One membership or policy is removed; the last administrator stays one. */
  lemma RemovedExactly(s: State, u: UserId, g: GroupId, a: AppId, othersSeen: bool)
    ensures RemoveMembership(s, u, g, othersSeen).dir
         == if g == 0 && !othersSeen then s.dir else s.dir.(members := s.dir.members - {Membership(u, g)})
    ensures RemovePolicy(s, a, g).dir
         == if a !in s.apps then s.dir else s.dir.(policies := s.dir.policies - {Policy(a, g)})
  {
    assert Membership(u, g) !in s.dir.members ==> s.dir.members - {Membership(u, g)} == s.dir.members;
    assert Policy(a, g) !in s.dir.policies ==> s.dir.policies - {Policy(a, g)} == s.dir.policies;
  }

  /** One membership or policy is added, between rows that exist. */
  lemma AddedExactly(s: State, u: UserId, g: GroupId, a: AppId)
    ensures AddMembership(s, u, g)
         == if u !in s.users || g !in s.dir.groups then s
            else s.(dir := s.dir.(members := s.dir.members + {Membership(u, g)}))
    ensures AddPolicy(s, a, g)
         == if a !in s.apps || g !in s.dir.groups then s
            else s.(dir := s.dir.(policies := s.dir.policies + {Policy(a, g)}))
  {
  }

  // ---------------------------------------------------------------- applications

  /** A change of an application revokes the active tokens of that application exactly if it deactivates it
      and the read before saw it active. */
  lemma ApplicationChangeExactly(s: State, a: AppId, active: bool, seen: bool)
    ensures var t := UpdateApplication(s, a, active, seen);
            if a !in s.apps then t == s
            else && t == s.(apps := t.apps, tokens := t.tokens)
                 && t.apps == s.apps[a := s.apps[a].(active := active)] && t.tokens.Keys == s.tokens.Keys
                 && forall k :: k in s.tokens ==>
                      var x, y := s.tokens[k], t.tokens[k];
                      if seen && !active && x.app == a && x.status == Active && x.revokedAt.None?
                      then y == x.(status := Revoked, revokedAt := Some(s.now)) else y == x
  {
  }

  /** A redirect URI is removed exactly if the application has it and another one, and with it every unused
      code issued to that application for it; an application never has more than 20. */
  lemma RedirectUrisExactly(s: State, a: AppId, uri: Uri)
    ensures var t := RemoveRedirectUri(s, a, uri);
            if a !in s.apps || uri !in s.apps[a].redirectUris || s.apps[a].redirectUris == {uri} then t == s
            else && t == s.(apps := t.apps, codes := t.codes) && t.codes.Keys == s.codes.Keys
                 && t.apps == s.apps[a := s.apps[a].(redirectUris := s.apps[a].redirectUris - {uri})]
                 && forall c :: c in s.codes ==>
                      var x, y := s.codes[c], t.codes[c];
                      if x.app == a && x.redirectUri == uri && x.usedAt.None? then y == x.(usedAt := Some(s.now))
                          else y == x
    ensures var t := AddRedirectUri(s, a, uri);
            if a !in s.apps || uri in s.apps[a].redirectUris || |s.apps[a].redirectUris| >= 20 then t == s
            else t == s.(apps := s.apps[a := s.apps[a].(redirectUris := s.apps[a].redirectUris + {uri})])
  {
    if a in s.apps && uri in s.apps[a].redirectUris {
      var rest := s.apps[a].redirectUris - {uri};
      assert s.apps[a].redirectUris == rest + {uri};
      assert |s.apps[a].redirectUris| == |rest| + 1;
    }
  }
}
