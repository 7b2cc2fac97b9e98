/** The tables of the Auth Provider and the transactions that change them, statement by statement. */
module AuthProvider {
  import opened LoginChallenges
  import opened Vocabulary
  import opened Sequences
  import opened AccessState

  lemma MappedPairs(lost: seq<Pair>, events: seq<OutboxEvent>)
    requires Distinct(lost) && |events| == |lost|
    requires forall i :: 0 <= i < |lost| ==> events[i] == AccessChange(lost[i].user, lost[i].app)
    ensures multiset(events) == multiset(AccessEvents(Members(lost)))
  {
    assert Distinct(events);
    DistinctMultiset(events);
    forall e | e in AccessEvents(Members(lost)) ensures e in Members(events) {
      var p :| p in Members(lost) && e == AccessChange(p.user, p.app);
      var i :| 0 <= i < |lost| && lost[i] == p;
      assert events[i] == e;
    }
    forall e | e in Members(events) ensures e in AccessEvents(Members(lost)) {
      var i :| 0 <= i < |events| && events[i] == e;
      assert lost[i] in Members(lost);
    }
    assert Members(events) == AccessEvents(Members(lost));
  }

  lemma MappedUsers(users: seq<UserId>, events: seq<OutboxEvent>)
    requires Distinct(users) && |events| == |users|
    requires forall i :: 0 <= i < |users| ==> events[i] == PasswordChange(users[i])
    ensures multiset(events) == multiset(PasswordEvents(Members(users)))
  {
    assert Distinct(events);
    DistinctMultiset(events);
    forall e | e in PasswordEvents(Members(users)) ensures e in Members(events) {
      var i :| 0 <= i < |users| && users[i] == e.user;
      assert events[i] == e;
    }
    forall e | e in Members(events) ensures e in PasswordEvents(Members(users)) {
      var i :| 0 <= i < |events| && events[i] == e;
      assert users[i] in Members(users);
    }
    assert Members(events) == PasswordEvents(Members(users));
  }

  lemma MappedSessions(m: map<SessionId, Session>, ids: seq<SessionId>, reason: Reason, events: seq<OutboxEvent>)
    requires Distinct(ids) && Members(ids) <= m.Keys && |events| == |ids|
    requires forall i :: 0 <= i < |ids| ==> ids[i] in m && events[i] == SessionEnded(ids[i], m[ids[i]].user, reason)
    ensures multiset(events) == multiset(SessionEvents(m, Members(ids), reason))
  {
    assert Distinct(events);
    DistinctMultiset(events);
    forall e | e in SessionEvents(m, Members(ids), reason) ensures e in Members(events) {
      var i :| 0 <= i < |ids| && ids[i] == e.session;
      assert events[i] == e;
    }
    forall e | e in Members(events) ensures e in SessionEvents(m, Members(ids), reason) {
      var i :| 0 <= i < |events| && events[i] == e;
      assert ids[i] in Members(ids);
    }
    assert Members(events) == SessionEvents(m, Members(ids), reason);
  }

  /** The lost pairs found among the candidates that were looked at so far. */
  function FoundSoFar(d: Directory, users: seq<UserId>, apps: seq<AppId>, i: nat, j: nat): set<Pair>
    requires i <= |users| && j <= |apps|
  {
    LostPairs(d, Members(users[..i]), Members(apps))
    + if i < |users| then LostPairs(d, {users[i]}, Members(apps[..j])) else {}
  }

  lemma NextApplication(d: Directory, users: seq<UserId>, apps: seq<AppId>, i: nat, j: nat)
    requires i < |users| && j < |apps|
    ensures FoundSoFar(d, users, apps, i, j + 1)
         == FoundSoFar(d, users, apps, i, j) + if HasPath(d, users[i], apps[j]) then {} else {Pair(users[i], apps[j])}
  {
  }

  lemma NextUser(d: Directory, users: seq<UserId>, apps: seq<AppId>, i: nat)
    requires i < |users|
    ensures FoundSoFar(d, users, apps, i, |apps|) == FoundSoFar(d, users, apps, i + 1, 0)
  {
  }

  lemma NotYetFound(d: Directory, users: seq<UserId>, apps: seq<AppId>, i: nat, j: nat)
    requires Distinct(users) && Distinct(apps) && i < |users| && j < |apps|
    ensures Pair(users[i], apps[j]) !in FoundSoFar(d, users, apps, i, j)
  {
  }

  /** What other requests make of the tables that `authorize` uses, while it waits. */
  datatype Race = Race(
    now: nat, users: map<UserId, bool>, apps: map<AppId, Application>, dir: Directory,
    sessions: map<SessionId, Session>, codes: map<CodeId, Code>)

  function Raced(s: State, race: Option<Race>): State {
    if race.None? then s
    else
      var r := race.value;
      s.(now := r.now, users := r.users, apps := r.apps, dir := r.dir, sessions := r.sessions, codes := r.codes)
  }

  /** The steps of one authorization request, with other requests between any two of them. */
  function AuthorizeSteps(cfg: Config, s: State, r: RequestId, a: AppId, uri: Uri, pkce: PkceChallenge, id: SessionId,
                          c: CodeId, beforeSession: Option<Race>, beforeTouch: Option<Race>,
                          beforePolicy: Option<Race>, beforeInsert: Option<Race>): State {
    var asked := BeginAuthorize(s, r, a, uri, pkce);
    if r !in asked.requests then s
    else
      var seen := Identify(Raced(asked, beforeSession), r, id);
      if !IsAt(seen, r, SessionSeen) then seen
      else
        var touched := TouchRequest(Raced(seen, beforeTouch), r);
        if !IsAt(touched, r, SessionTouched) then touched
        else
          var checked := CheckPolicy(Raced(touched, beforePolicy), r);
          if !IsAt(checked, r, PolicyChecked) then checked
          else InsertCode(cfg, Raced(checked, beforeInsert), r, c)
  }

  class Database {
    var users: map<UserId, bool>
    var apps: map<AppId, Application>
    var dir: Directory
    var sessions: map<SessionId, Session>
    var codes: map<CodeId, Code>
    var tokens: map<TokenId, Token>
    var challenges: map<ChallengeId, Challenge>
    var requests: map<RequestId, Request>
    var outbox: seq<OutboxEvent>
    var now: nat
    const config: Config

    constructor (config: Config)
      ensures View() == INITIAL && this.config == config
    {
      this.config := config;
      users, apps, dir := map[], map[], Directory({CONTROL_PANEL_ADMINS}, {}, {});
      sessions, codes, tokens, challenges, requests := map[], map[], map[], map[], map[];
      outbox, now := [], 0;
    }

    ghost function View(): State
      reads this
    {
      State(now, users, apps, dir, sessions, codes, tokens, challenges, requests, multiset(outbox))
    }

    // -------------------------------------------------------------- admin-revocation.service.ts

    method EnqueueMany(events: seq<OutboxEvent>)
      modifies this`outbox
      ensures outbox == old(outbox) + events
    {
      if |events| == 0 {
        assert outbox == outbox + events;
        return;
      }
      outbox := outbox + events;
    }

    /** Returns the sessions it revoked, each once. */
    method RevokeSecurityState(userIds: set<UserId>, reason: Reason) returns (revoked: seq<SessionId>)
      modifies this`sessions, this`tokens, this`challenges
      ensures View() == AccessState.RevokeSecurityState(old(View()), userIds, reason)
      ensures Distinct(revoked) && Members(revoked) == EndedBy(old(sessions), userIds)
    {
      if |userIds| == 0 {
        NobodyToRevoke(View(), reason);
        return [];
      }
      var ended := EndedBy(sessions, userIds);
      revoked := [];
      while ended != {}
        invariant Distinct(revoked) && Members(revoked) + ended == EndedBy(sessions, userIds)
                  && Members(revoked) !! ended
        decreases ended
      {
        var id :| id in ended;
        ghost var before := revoked;
        revoked, ended := revoked + [id], ended - {id};
        assert Members(revoked) == Members(before) + {id};
      }
      sessions := RevokedSessions(sessions, userIds, reason, now);
      tokens := RevokedTokens(tokens, userIds, now);
      challenges := UsedChallenges(challenges, userIds, now);
    }

    lemma NobodyToRevoke(s: State, reason: Reason)
      ensures AccessState.RevokeSecurityState(s, {}, reason) == s && EndedBy(s.sessions, {}) == {}
    {
    }

    method RevokeUsersForDeactivation(userIds: set<UserId>)
      modifies this
      ensures View() == RevokeForDeactivation(old(View()), userIds)
    {
      var revoked := RevokeSecurityState(userIds, UserDeactivated);
      assert forall i :: 0 <= i < |revoked| ==> revoked[i] in Members(revoked);
      var events := seq(|revoked|, i requires 0 <= i < |revoked| && revoked[i] in sessions reads this =>
        SessionEnded(revoked[i], sessions[revoked[i]].user, UserDeactivated));
      MappedSessions(old(sessions), revoked, UserDeactivated, events);
      EnqueueMany(events);
    }

    method RevokeUsersForPasswordChange(userIds: seq<UserId>)
      modifies this
      ensures View() == RevokeForPasswordChange(old(View()), Members(userIds))
    {
      var uniqueUserIds := Unique(userIds);
      if |uniqueUserIds| == 0 {
        NobodyToRevoke(View(), PasswordReset);
        assert Members(userIds) == {} && PasswordEvents({}) == {};
        return;
      }
      var _ := RevokeSecurityState(Members(uniqueUserIds), PasswordReset);
      var events := seq(|uniqueUserIds|, i requires 0 <= i < |uniqueUserIds| => PasswordChange(uniqueUserIds[i]));
      MappedUsers(uniqueUserIds, events);
      EnqueueMany(events);
    }

    /** Every candidate user against every candidate application: the pairs without a remaining policy. */
    method FindLostAccess(uniqueUserIds: seq<UserId>, uniqueApplicationIds: seq<AppId>) returns (lostAccess: seq<Pair>)
      requires Distinct(uniqueUserIds) && Distinct(uniqueApplicationIds)
      ensures Distinct(lostAccess)
      ensures Members(lostAccess) == LostPairs(dir, Members(uniqueUserIds), Members(uniqueApplicationIds))
    {
      lostAccess := [];
      for i := 0 to |uniqueUserIds|
        invariant Distinct(lostAccess)
                  && Members(lostAccess) == FoundSoFar(dir, uniqueUserIds, uniqueApplicationIds, i, 0)
      {
        for j := 0 to |uniqueApplicationIds|
          invariant Distinct(lostAccess)
                    && Members(lostAccess) == FoundSoFar(dir, uniqueUserIds, uniqueApplicationIds, i, j)
        {
          var pair := Pair(uniqueUserIds[i], uniqueApplicationIds[j]);
          NotYetFound(dir, uniqueUserIds, uniqueApplicationIds, i, j);
          NextApplication(dir, uniqueUserIds, uniqueApplicationIds, i, j);
          if !HasPath(dir, pair.user, pair.app) {
            ghost var before := lostAccess;
            lostAccess := lostAccess + [pair];
            assert Members(lostAccess) == Members(before) + {pair};
          }
        }
        NextUser(dir, uniqueUserIds, uniqueApplicationIds, i);
      }
      assert uniqueUserIds[..|uniqueUserIds|] == uniqueUserIds;
    }

    /** Called inside the transaction that changed the directory. */
    method RevokeUsersWhoLostAccess(candidateUserIds: seq<UserId>, applicationIds: seq<AppId>)
      returns (revokedUserIds: set<UserId>)
      modifies this
      ensures View() == RevokeLostAccess(old(View()), Members(candidateUserIds), Members(applicationIds))
      ensures revokedUserIds == LosingUsers(LostPairs(dir, Members(candidateUserIds), Members(applicationIds)))
    {
      var uniqueUserIds := Unique(candidateUserIds);
      var uniqueApplicationIds := Unique(applicationIds);
      var lostAccess := FindLostAccess(uniqueUserIds, uniqueApplicationIds);
      revokedUserIds := LosingUsers(Members(lostAccess));
      var _ := RevokeSecurityState(revokedUserIds, AccessLost);
      var events := seq(|lostAccess|, i
                        requires 0 <= i < |lostAccess| => AccessChange(lostAccess[i].user, lostAccess[i].app));
      MappedPairs(lostAccess, events);
      EnqueueMany(events);
    }

    // -------------------------------------------------------------- admin-groups, admin-users, admin-applications

    method DeleteGroup(g: GroupId, memberIds: seq<UserId>, allowedIds: seq<AppId>) returns (done: bool)
      requires Members(memberIds) == MembersOf(dir, g) && Members(allowedIds) == AllowedBy(dir, g)
      modifies this
      ensures View() == AccessState.DeleteGroup(old(View()), g)
      ensures done <==> g in old(dir.groups) && g != CONTROL_PANEL_ADMINS
    {
      if g !in dir.groups || g == CONTROL_PANEL_ADMINS {
        return false;
      }
      dir := dir.(members := set m | m in dir.members && m.group != g);
      dir := dir.(policies := set p | p in dir.policies && p.group != g);
      dir := dir.(groups := dir.groups - {g});
      var _ := RevokeUsersWhoLostAccess(memberIds, allowedIds);
      return true;
    }

    method RemoveGroupMembership(u: UserId, g: GroupId, allowedIds: seq<AppId>, othersSeen: bool)
      returns (done: bool, accessLost: bool)
      requires Members(allowedIds) == AllowedBy(dir, g)
      modifies this
      ensures View() == RemoveMembership(old(View()), u, g, othersSeen)
      ensures accessLost <==> done && exists a :: a in AllowedBy(old(dir), g) && !HasPath(dir, u, a)
    {
      if Membership(u, g) !in dir.members || (g == CONTROL_PANEL_ADMINS && !othersSeen) {
        return false, false;
      }
      dir := dir.(members := dir.members - {Membership(u, g)});
      var revokedUserIds := RevokeUsersWhoLostAccess([u], allowedIds);
      assert Members([u]) == {u};
      ghost var lost := LostPairs(dir, {u}, Members(allowedIds));
      assert forall a :: a in Members(allowedIds) && !HasPath(dir, u, a) ==>
             Pair(u, a) in lost && Pair(u, a).user in LosingUsers(lost);
      return true, u in revokedUserIds;
    }

    method RemovePolicy(a: AppId, g: GroupId, memberIds: seq<UserId>) returns (done: bool)
      requires Members(memberIds) == MembersOf(dir, g)
      modifies this
      ensures View() == AccessState.RemovePolicy(old(View()), a, g)
      ensures done <==> a in old(apps) && Policy(a, g) in old(dir.policies)
    {
      if a !in apps || Policy(a, g) !in dir.policies {
        return false;
      }
      dir := dir.(policies := dir.policies - {Policy(a, g)});
      var _ := RevokeUsersWhoLostAccess(memberIds, [a]);
      assert Members([a]) == {a};
      return true;
    }

    method UpdateStatus(u: UserId, active: bool, seen: bool, refused: bool)
      modifies this
      ensures View() == AccessState.UpdateStatus(old(View()), u, active, seen, refused)
    {
      if u !in users || seen == active || (!active && refused) {
        return;
      }
      users := users[u := active];
      if !active {
        RevokeUsersForDeactivation({u});
      }
    }

    method UpdatePassword(u: UserId)
      modifies this
      ensures View() == AccessState.UpdatePassword(old(View()), u)
    {
      if u in users {
        RevokeUsersForPasswordChange([u]);
        assert Members([u]) == {u};
      }
    }

    // -------------------------------------------------------------- auth.service.ts

    /** The first statements of the reader of a session cookie. */
    method ReadCurrentSession(id: SessionId) returns (user: Option<UserId>)
      modifies this`sessions
      ensures (View(), user) == CurrentSession(old(View()), id)
    {
      if id !in sessions {
        return None;
      }
      var x := sessions[id];
      if x.status != Active || x.revokedAt.Some? || x.expiresAt <= now || !IsActive(users, x.user) {
        if x.status == Active && x.revokedAt.None? && x.expiresAt <= now {
          sessions := sessions[id := x.(status := Expired)];
        }
        return None;
      }
      return Some(x.user);
    }

    /** The guarded update of the last activity. */
    method TouchSession(id: SessionId) returns (count: nat)
      modifies this`sessions
      ensures (View(), count == 1) == AccessState.TouchSession(old(View()), id) && count <= 1
    {
      if id !in sessions || !Usable(sessions[id], now) {
        return 0;
      }
      sessions := sessions[id := sessions[id].(lastActivityAt := now)];
      return 1;
    }

    /** Other requests may run between the read and the guarded update. */
    method GetCurrentSession(id: SessionId, beforeTouch: Option<Race>) returns (user: Option<UserId>)
      modifies this
      ensures var (m, seen) := CurrentSession(old(View()), id);
              if seen.None? then View() == m && user.None?
              else && (View(), user.Some?) == AccessState.TouchSession(Raced(m, beforeTouch), id)
                   && (user.Some? ==> user == seen)
    {
      user := ReadCurrentSession(id);
      if user.None? {
        return;
      }
      OthersRun(beforeTouch);
      var touchedSession := TouchSession(id);
      if touchedSession != 1 {
        return None;
      }
    }

    method Logout(id: SessionId)
      modifies this
      ensures View() == AccessState.Logout(old(View()), id)
    {
      if id !in sessions {
        return;
      }
      var x := sessions[id];
      if x.status != Active || x.revokedAt.Some? {
        return;
      }
      sessions := sessions[id := RevokedSession(x, SsoLogout, now)];
      tokens := map t | t in tokens ::
        if tokens[t].session == id && LiveToken(tokens[t]) then RevokedToken(tokens[t], now) else tokens[t];
      EnqueueMany([SessionEnded(id, x.user, SsoLogout)]);
    }

    // -------------------------------------------------------------- authorization.service.ts

    method OthersRun(race: Option<Race>)
      modifies this
      ensures View() == Raced(old(View()), race)
    {
      if race.Some? {
        var r := race.value;
        now, users, apps, dir, sessions, codes := r.now, r.users, r.apps, r.dir, r.sessions, r.codes;
      }
    }

    method FindApplication(r: RequestId, a: AppId, uri: Uri, pkce: PkceChallenge) returns (trusted: bool)
      requires r !in requests
      modifies this`requests
      ensures View() == BeginAuthorize(old(View()), r, a, uri, pkce)
      ensures trusted <==> r in requests
      ensures trusted ==> requests[r] == Asked(a, uri, pkce)
    {
      if a !in apps || uri !in apps[a].redirectUris || !apps[a].active {
        return false;
      }
      requests := requests[r := Asked(a, uri, pkce)];
      return true;
    }

    method ReadSession(r: RequestId, id: SessionId) returns (user: Option<UserId>)
      requires r in requests && requests[r].Asked?
      modifies this`requests, this`sessions
      ensures View() == Identify(old(View()), r, id)
      ensures user.Some? <==> IsAt(View(), r, SessionSeen)
      ensures user.Some? ==> requests[r].user == user.value && requests[r].session == id
    {
      user := ReadCurrentSession(id);
      if user.Some? {
        var x := requests[r];
        requests := requests[r := Identified(x.app, x.redirectUri, x.pkce, user.value, id, SessionSeen)];
      }
    }

    /** The session may have ended since it was read. */
    method TouchSessionOf(r: RequestId) returns (touched: bool)
      requires IsAt(View(), r, SessionSeen)
      modifies this`requests, this`sessions
      ensures View() == TouchRequest(old(View()), r) && (touched <==> IsAt(View(), r, SessionTouched))
    {
      var count := TouchSession(requests[r].session);
      touched := count == 1;
      requests := requests[r := requests[r].(stage := if touched then SessionTouched else Finished)];
    }

    method FindPolicy(r: RequestId) returns (matching: bool)
      requires IsAt(View(), r, SessionTouched)
      modifies this`requests
      ensures View() == CheckPolicy(old(View()), r) && (matching <==> IsAt(View(), r, PolicyChecked))
    {
      matching := HasPath(dir, requests[r].user, requests[r].app);
      requests := requests[r := requests[r].(stage := if matching then PolicyChecked else Finished)];
    }

    /** `r` names this request in the history of requests and `c` is the row of a new random code; the
        parsing of the parameters is not modelled. */
    method Authorize(r: RequestId, a: AppId, uri: Uri, pkce: PkceChallenge, id: SessionId, c: CodeId,
                     beforeSession: Option<Race>, beforeTouch: Option<Race>, beforePolicy: Option<Race>,
                     beforeInsert: Option<Race>)
      returns (issued: bool)
      requires r !in requests
      modifies this
      ensures View() == AuthorizeSteps(config, old(View()), r, a, uri, pkce, id, c, beforeSession, beforeTouch,
                                       beforePolicy, beforeInsert)
      ensures issued ==> c in codes && codes[c].usedAt.None?
    {
      var trusted := FindApplication(r, a, uri, pkce);
      if !trusted {
        return false;
      }
      OthersRun(beforeSession);
      var user := ReadSession(r, id);
      if user.None? {
        return false;
      }
      OthersRun(beforeTouch);
      var touched := TouchSessionOf(r);
      if !touched {
        return false;
      }
      OthersRun(beforePolicy);
      var matching := FindPolicy(r);
      if !matching {
        return false;
      }
      OthersRun(beforeInsert);
      issued := CreateCode(r, c);
    }

    /** The insertion fails if the row exists. */
    method CreateCode(r: RequestId, c: CodeId) returns (created: bool)
      requires IsAt(View(), r, PolicyChecked)
      modifies this`requests, this`codes
      ensures View() == InsertCode(config, old(View()), r, c) && created == (c !in old(codes))
      ensures created ==> c in codes && codes[c].usedAt.None?
    {
      if c in codes {
        return false;
      }
      var x := requests[r];
      codes := codes[c := Code(x.user, x.app, x.session, x.redirectUri, x.pkce, now + config.codeTtlMs, None)];
      requests := requests[r := x.(stage := Finished)];
      return true;
    }

    // -------------------------------------------------------------- token.service.ts, userinfo.service.ts

    /** The guarded claim of a code. */
    method ClaimCode(c: CodeId, a: AppId) returns (count: nat)
      modifies this`codes
      ensures count <= 1
      ensures count == 1 <==> c in old(codes) && old(codes[c]).app == a && old(codes[c]).usedAt.None?
                              && old(codes[c]).expiresAt > now
      ensures codes == if count == 1 then old(codes)[c := old(codes[c]).(usedAt := Some(now))] else old(codes)
    {
      if c !in codes || codes[c].app != a || codes[c].usedAt.Some? || codes[c].expiresAt <= now {
        return 0;
      }
      codes := codes[c := codes[c].(usedAt := Some(now))];
      return 1;
    }

    /** `t` is the row of a new random token. Inside one transaction the two guarded updates find what
        was just read. */
    method Exchange(t: TokenId, c: CodeId, a: AppId, uri: Uri, v: Verifier) returns (granted: bool)
      requires t !in tokens
      modifies this`sessions, this`codes, this`tokens
      ensures View() == AccessState.Exchange(config, old(View()), t, c, a, uri, v)
      ensures granted <==> CodeAccepted(config, old(View()), c, a, uri, v)
    {
      if c !in codes {
        return false;
      }
      var x := codes[c];
      if x.app != a || x.redirectUri != uri || x.usedAt.Some? || x.expiresAt <= now || !IsActive(users, x.user)
         || a !in apps || !apps[a].active || x.session !in sessions || !Usable(sessions[x.session], now)
         || config.s256(v) != x.pkce
      {
        return false;
      }
      var activeSession := TouchSession(x.session);
      var claimedCode := ClaimCode(c, a);
      assert activeSession == 1 && claimedCode == 1;
      tokens := tokens[t := Token(x.user, a, x.session, DEFAULT_SCOPES, Active, now + config.tokenTtlMs, None,
                                  Grant(c, uri, v))];
      return true;
    }

    method GetProfile(t: TokenId) returns (user: Option<UserId>)
      modifies this`sessions, this`tokens
      ensures (View(), user) == AccessState.GetProfile(old(View()), t)
    {
      if t !in tokens {
        return None;
      }
      var x := tokens[t];
      if x.status != Active || x.revokedAt.Some? || x.expiresAt <= now || !IsActive(users, x.user) || x.app !in apps
         || !apps[x.app].active || x.session !in sessions || !Usable(sessions[x.session], now)
         || REQUIRED_SCOPE !in x.scopes
      {
        if x.status == Active && x.revokedAt.None? && x.expiresAt <= now {
          tokens := tokens[t := x.(status := Expired)];
        }
        return None;
      }
      if !HasPath(dir, x.user, x.app) {
        return None;
      }
      var activeSession := TouchSession(x.session);
      var activeToken := ConfirmToken(t);
      assert activeSession == 1 && activeToken == 1;
      return Some(x.user);
    }

    /** The guarded update that writes ACTIVE over ACTIVE: only its count matters. */
    method ConfirmToken(t: TokenId) returns (count: nat)
      modifies this`tokens
      ensures tokens == old(tokens) && count <= 1
      ensures count == 1 <==> t in tokens && tokens[t].status == Active && tokens[t].revokedAt.None?
                              && tokens[t].expiresAt > now
    {
      if t !in tokens || tokens[t].status != Active || tokens[t].revokedAt.Some? || tokens[t].expiresAt <= now {
        return 0;
      }
      tokens := tokens[t := tokens[t].(status := Active)];
      return 1;
    }
  }
}
