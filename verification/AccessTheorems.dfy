/** What the authorization state guarantees in every reachable state, and forever after a revocation. */
module AccessTheorems {
  import opened LoginChallenges
  import opened Vocabulary
  import opened AccessState
  import opened AccessSafety

  lemma Reach(cfg: Config, ops: seq<Op>, more: seq<Op>)
    ensures var s := Run(cfg, INITIAL, ops);
            Inv(cfg, s) && Inv(cfg, Run(cfg, s, more)) && Evolves(s, Run(cfg, s, more))
  {
    InitiallyInv(cfg);
    RunKeeps(cfg, INITIAL, ops);
    RunKeeps(cfg, Run(cfg, INITIAL, ops), more);
  }

  // ---------------------------------------------------------------- policy safety

  /** An active token means a current ALLOW path, an active user and a session that was not revoked,
      although the exchange checks no policy. */
  lemma ActiveTokenMeansAccess(cfg: Config, ops: seq<Op>, t: TokenId)
    ensures var s := Run(cfg, INITIAL, ops);
            t in s.tokens && s.tokens[t].status == Active ==>
              && HasPath(s.dir, s.tokens[t].user, s.tokens[t].app) && IsActive(s.users, s.tokens[t].user)
              && s.tokens[t].session in s.sessions && s.sessions[s.tokens[t].session].status != Revoked
              && s.sessions[s.tokens[t].session].user == s.tokens[t].user
  {
    Reach(cfg, ops, []);
    var s := Run(cfg, INITIAL, ops);
    if t in s.tokens {
      assert ActiveTokenOk(s.dir, s.users, s.sessions, s.tokens[t]);
    }
  }

  /** The policy check of the profile reader never refuses: the checks before it already imply it. */
  lemma ProfilePolicyCheckIsImplied(cfg: Config, ops: seq<Op>, t: TokenId)
    ensures var s := Run(cfg, INITIAL, ops);
            GetProfile(s, t).1 == if TokenAccepted(s, t) then Some(s.tokens[t].user) else None
  {
    ActiveTokenMeansAccess(cfg, ops, t);
  }

  // ---------------------------------------------------------------- single-use codes

  /** At most one token is ever issued for a code, for the code's user, application and session, and
      only when redirect URI and verifier matched; the code stays used. */
  lemma CodesAreSingleUse(cfg: Config, ops: seq<Op>, t: TokenId)
    ensures var s := Run(cfg, INITIAL, ops);
            t in s.tokens ==>
              && (forall u :: u in s.tokens && s.tokens[u].grant.code == s.tokens[t].grant.code ==> u == t)
              && GrantOk(cfg, s.codes, s.tokens[t])
              && (forall k, a, uri, v :: Exchange(cfg, s, k, s.tokens[t].grant.code, a, uri, v) == s)
  {
    Reach(cfg, ops, []);
    var s := Run(cfg, INITIAL, ops);
    if t in s.tokens {
      assert GrantOk(cfg, s.codes, s.tokens[t]);
    }
  }

  /** Once a redirect URI is removed, no code issued for it before is ever redeemed, not even after the
      URI is registered again. */
  lemma RemovedUriVoidsCodes(cfg: Config, s: State, a: AppId, uri: Uri, c: CodeId, more: seq<Op>, b: AppId, v: Verifier)
    requires Inv(cfg, s) && c in s.codes && s.codes[c].app == a && s.codes[c].redirectUri == uri
    requires a in s.apps && uri in s.apps[a].redirectUris && |s.apps[a].redirectUris| != 1
    ensures !CodeAccepted(cfg, Run(cfg, RemoveRedirectUri(s, a, uri), more), c, b, uri, v)
  {
    var m := RemoveRedirectUri(s, a, uri);
    RemoveRedirectUriKeeps(cfg, s, a, uri);
    RunKeeps(cfg, m, more);
    assert CodeEvolves(m.codes[c], Run(cfg, m, more).codes[c]);
  }

  lemma ApplicationEndsToken(cfg: Config, s: State, a: AppId, t: TokenId)
    requires Inv(cfg, s) && a in s.apps && t in s.tokens && s.tokens[t].app == a
    ensures t in UpdateApplication(s, a, false, true).tokens
    ensures UpdateApplication(s, a, false, true).tokens[t].status != Active
  {
    assert ActiveTokenOk(s.dir, s.users, s.sessions, s.tokens[t]);
  }

  lemma EndedTokenIsRefused(m: State, n: State, t: TokenId)
    requires TokensEvolve(m.tokens, n.tokens) && t in m.tokens && m.tokens[t].status != Active
    ensures GetProfile(n, t).1 == None
  {
    assert TokenEvolves(m.tokens[t], n.tokens[t]);
  }

  /** Deactivating an application voids every token issued for it, even after it is active again,
      provided the read before the transaction saw the application active. */
  lemma DeactivatedApplicationVoidsTokens(cfg: Config, s: State, a: AppId, more: seq<Op>, t: TokenId)
    requires Inv(cfg, s) && a in s.apps && t in s.tokens && s.tokens[t].app == a
    ensures GetProfile(Run(cfg, UpdateApplication(s, a, false, true), more), t).1 == None
  {
    var m := UpdateApplication(s, a, false, true);
    ApplicationEndsToken(cfg, s, a, t);
    UpdateApplicationKeeps(cfg, s, a, false, true);
    RunKeeps(cfg, m, more);
    EndedTokenIsRefused(m, Run(cfg, m, more), t);
  }

  /** And only then: a token accepted before the deactivation is refused after a reactivation if and only
      if that read saw the application active. A read that raced with an activation leaves it valid. */
  lemma StaleReadKeepsTokens(cfg: Config, s: State, a: AppId, seen: bool, seenAgain: bool, t: TokenId)
    requires Inv(cfg, s) && TokenAccepted(s, t) && s.tokens[t].app == a
    ensures var inactive := UpdateApplication(s, a, false, seen);
            GetProfile(UpdateApplication(inactive, a, true, seenAgain), t).1.None? <==> seen
  {
    var inactive := UpdateApplication(s, a, false, seen);
    if seen {
      DeactivatedApplicationVoidsTokens(cfg, s, a, [SetApplication(a, true, seenAgain)], t);
      OneMore(cfg, inactive, SetApplication(a, true, seenAgain));
    } else {
      assert ActiveTokenOk(s.dir, s.users, s.sessions, s.tokens[t]);
    }
  }

  lemma OneMore(cfg: Config, s: State, op: Op)
    ensures Run(cfg, s, [op]) == Apply(cfg, s, op)
  {
    assert Run(cfg, s, [op]) == Run(cfg, Apply(cfg, s, op), []);
  }

  // ---------------------------------------------------------------- no revival

  /** None of this user's sessions, tokens and challenges is open. */
  ghost predicate AllClosed(s: State, u: UserId) {
    && (forall id :: id in s.sessions && s.sessions[id].user == u ==> s.sessions[id].status != Active)
    && (forall t :: t in s.tokens && s.tokens[t].user == u ==> s.tokens[t].status != Active)
    && (forall c :: c in s.challenges && s.challenges[c].user == u ==> s.challenges[c].usedAt.Some?)
  }

  lemma RevocationCloses(s: State, users: set<UserId>, reason: Reason, u: UserId)
    requires SessionsOk(s.sessions) && ActiveTokensOk(s.dir, s.users, s.sessions, s.tokens) && u in users
    ensures AllClosed(RevokeSecurityState(s, users, reason), u)
  {
    var t := RevokeSecurityState(s, users, reason);
    forall id | id in t.sessions && t.sessions[id].user == u ensures t.sessions[id].status != Active {
      assert SessionOk(s.sessions[id]);
    }
    forall k | k in t.tokens && t.tokens[k].user == u ensures t.tokens[k].status != Active {
      assert ActiveTokenOk(s.dir, s.users, s.sessions, s.tokens[k]);
    }
  }

  lemma DeactivationCloses(cfg: Config, s: State, u: UserId)
    requires Inv(cfg, s) && u in s.users
    ensures AllClosed(UpdateStatus(s, u, false, true, false), u)
  {
    RevocationCloses(s, {u}, UserDeactivated, u);
    var t := UpdateStatus(s, u, false, true, false);
    var r := RevokeSecurityState(s, {u}, UserDeactivated);
    assert t.sessions == r.sessions && t.tokens == r.tokens && t.challenges == r.challenges;
  }

  lemma PasswordChangeCloses(cfg: Config, s: State, u: UserId)
    requires Inv(cfg, s) && u in s.users
    ensures AllClosed(UpdatePassword(s, u), u)
  {
    RevocationCloses(s, {u}, PasswordReset, u);
    var t := UpdatePassword(s, u);
    var r := RevokeSecurityState(s, {u}, PasswordReset);
    assert t.sessions == r.sessions && t.tokens == r.tokens && t.challenges == r.challenges;
  }

  predicate RemovesAccess(op: Op) { op.DropGroup? || op.Leave? || op.Disallow? }

  /** Losing the path to any application closes everything. */
  lemma AccessLossCloses(cfg: Config, s: State, op: Op, u: UserId, a: AppId)
    requires Inv(cfg, s) && RemovesAccess(op)
    requires HasPath(s.dir, u, a) && !HasPath(Apply(cfg, s, op).dir, u, a)
    ensures AllClosed(Apply(cfg, s, op), u)
  {
    ExactAccessDiff(cfg, s, op);
    var change := ChangeOf(s, op);
    assert Pair(u, a) in change.lost && Pair(u, a).user in LosingUsers(change.lost);
    RevocationCloses(s, LosingUsers(change.lost), AccessLost, u);
    var t := Apply(cfg, s, op);
    var r := RevokeSecurityState(s, LosingUsers(change.lost), AccessLost);
    assert t.sessions == r.sessions && t.tokens == r.tokens && t.challenges == r.challenges;
  }

  /** Nothing of the user that existed when everything was closed is ever accepted again, whatever
      happens: reactivation and restored policies included. */
  lemma NothingIsRevived(cfg: Config, s: State, u: UserId, more: seq<Op>)
    requires Inv(cfg, s) && AllClosed(s, u)
    ensures var t := Run(cfg, s, more);
            && (forall id :: id in s.sessions && s.sessions[id].user == u ==> CurrentSession(t, id).1 == None)
            && (forall k :: k in s.tokens && s.tokens[k].user == u ==> GetProfile(t, k).1 == None)
            && (forall c, a, uri, v :: c in s.codes && s.codes[c].user == u ==> !CodeAccepted(cfg, t, c, a, uri, v))
            && (forall c :: c in s.challenges && s.challenges[c].user == u ==> !ChallengeAccepted(t, c))
  {
    RunKeeps(cfg, s, more);
    var t := Run(cfg, s, more);
    forall id | id in s.sessions && s.sessions[id].user == u ensures CurrentSession(t, id).1 == None {
      assert SessionEvolves(s.sessions[id], t.sessions[id]);
    }
    forall k | k in s.tokens && s.tokens[k].user == u ensures GetProfile(t, k).1 == None {
      assert TokenEvolves(s.tokens[k], t.tokens[k]);
    }
    forall c, a, uri, v | c in s.codes && s.codes[c].user == u ensures !CodeAccepted(cfg, t, c, a, uri, v) {
      ClosedCode(cfg, s, u, c, t);
    }
    forall c | c in s.challenges && s.challenges[c].user == u ensures !ChallengeAccepted(t, c) {
      assert ChallengeEvolves(s.challenges[c], t.challenges[c]);
    }
  }

  lemma ClosedCode(cfg: Config, s: State, u: UserId, c: CodeId, t: State)
    requires CodesOk(s.dir, s.sessions, s.codes) && AllClosed(s, u) && c in s.codes && s.codes[c].user == u
    requires SessionsEvolve(s.sessions, t.sessions) && CodesEvolve(s.codes, t.codes)
    ensures forall a, uri, v :: !CodeAccepted(cfg, t, c, a, uri, v)
  {
    assert CodeOk(s.dir, s.sessions, s.codes[c]);
    assert CodeEvolves(s.codes[c], t.codes[c]);
    assert SessionEvolves(s.sessions[s.codes[c].session], t.sessions[s.codes[c].session]);
  }

  /** Nor does a request that was under way then ever yield a code that can be redeemed, however much
      later it inserts it. */
  lemma PendingRequestYieldsNothing(cfg: Config, s: State, u: UserId, r: RequestId, more: seq<Op>, c: CodeId,
                                    later: seq<Op>, a: AppId, uri: Uri, v: Verifier)
    requires Inv(cfg, s) && AllClosed(s, u) && r in s.requests && s.requests[r].Identified? && s.requests[r].user == u
    ensures var t := Run(cfg, s, more);
            c !in t.codes && c in InsertCode(cfg, t, r, c).codes ==>
              !CodeAccepted(cfg, Run(cfg, InsertCode(cfg, t, r, c), later), c, a, uri, v)
  {
    var t := Run(cfg, s, more);
    RunKeeps(cfg, s, more);
    if c !in t.codes && c in InsertCode(cfg, t, r, c).codes {
      var m := InsertCode(cfg, t, r, c);
      InsertCodeKeeps(cfg, t, r, c);
      EvolvesTransitive(s, t, m);
      RunKeeps(cfg, m, later);
      RequestOfClosedUser(s, u, r, t);
      CodeOfClosedSession(cfg, s, m, Run(cfg, m, later), c);
    }
  }

  lemma RequestOfClosedUser(s: State, u: UserId, r: RequestId, t: State)
    requires RequestsOk(s.dir, s.sessions, s.requests) && AllClosed(s, u) && RequestsEvolve(s.requests, t.requests)
    requires r in s.requests && s.requests[r].Identified? && s.requests[r].user == u
    ensures r in t.requests && t.requests[r].Identified? && t.requests[r].session in s.sessions
    ensures s.sessions[t.requests[r].session].status != Active
  {
    assert RequestOk(s.dir, s.sessions, s.requests[r]) && RequestEvolves(s.requests[r], t.requests[r]);
  }

  /** A code of a session that was over before is never accepted. */
  lemma CodeOfClosedSession(cfg: Config, s: State, m: State, t: State, c: CodeId)
    requires SessionsEvolve(s.sessions, m.sessions) && SessionsEvolve(m.sessions, t.sessions)
             && CodesEvolve(m.codes, t.codes)
    requires c in m.codes && m.codes[c].session in s.sessions && s.sessions[m.codes[c].session].status != Active
    ensures forall a, uri, v :: !CodeAccepted(cfg, t, c, a, uri, v)
  {
    var id := m.codes[c].session;
    assert SessionEvolves(s.sessions[id], m.sessions[id]) && SessionEvolves(m.sessions[id], t.sessions[id]);
    assert CodeEvolves(m.codes[c], t.codes[c]);
  }

  // ---------------------------------------------------------------- exact access diff

  datatype Change = Change(dir: Directory, lost: set<Pair>)

  /** The directory after an operation that removes access, and the pairs it reports as lost. */
  function ChangeOf(s: State, op: Op): Change
    requires RemovesAccess(op)
  {
    match op
    case DropGroup(g) =>
      if g !in s.dir.groups || g == CONTROL_PANEL_ADMINS then Change(s.dir, {})
      else Change(WithoutGroup(s.dir, g), LostPairs(WithoutGroup(s.dir, g), MembersOf(s.dir, g), AllowedBy(s.dir, g)))
    case Leave(u, g, othersSeen) =>
      if Membership(u, g) !in s.dir.members || (g == CONTROL_PANEL_ADMINS && !othersSeen) then Change(s.dir, {})
      else Change(WithoutMember(s.dir, u, g), LostPairs(WithoutMember(s.dir, u, g), {u}, AllowedBy(s.dir, g)))
    case Disallow(a, g) =>
      if a !in s.apps || Policy(a, g) !in s.dir.policies then Change(s.dir, {})
      else Change(WithoutPolicy(s.dir, a, g), LostPairs(WithoutPolicy(s.dir, a, g), MembersOf(s.dir, g), {a}))
  }

  /** The pairs that had a path before and have none after. */
  ghost predicate IsDiff(d: Directory, e: Directory, lost: set<Pair>) {
    forall u, a :: Pair(u, a) in lost <==> HasPath(d, u, a) && !HasPath(e, u, a)
  }

  lemma DroppedGroupDiff(d: Directory, g: GroupId)
    ensures IsDiff(d, WithoutGroup(d, g), LostPairs(WithoutGroup(d, g), MembersOf(d, g), AllowedBy(d, g)))
  {
  }

  lemma LeftGroupDiff(d: Directory, v: UserId, g: GroupId)
    requires Membership(v, g) in d.members
    ensures IsDiff(d, WithoutMember(d, v, g), LostPairs(WithoutMember(d, v, g), {v}, AllowedBy(d, g)))
  {
  }

  lemma DisallowedDiff(d: Directory, b: AppId, g: GroupId)
    requires Policy(b, g) in d.policies
    ensures IsDiff(d, WithoutPolicy(d, b, g), LostPairs(WithoutPolicy(d, b, g), MembersOf(d, g), {b}))
  {
  }

  lemma ChangeIsDiff(s: State, op: Op)
    requires RemovesAccess(op)
    ensures IsDiff(s.dir, ChangeOf(s, op).dir, ChangeOf(s, op).lost)
  {
  }

  /** The step announces these pairs, each once, and revokes everything of their users, and no more. */
  ghost predicate Performs(s: State, t: State, change: Change) {
    && t.dir == change.dir && t.outbox == s.outbox + multiset(AccessEvents(change.lost))
    && t.sessions == RevokedSessions(s.sessions, LosingUsers(change.lost), AccessLost, s.now)
    && t.tokens == RevokedTokens(s.tokens, LosingUsers(change.lost), s.now)
    && t.challenges == UsedChallenges(s.challenges, LosingUsers(change.lost), s.now)
    && t.codes == s.codes && t.users == s.users && t.apps == s.apps && t.requests == s.requests
  }

  lemma NobodyRevoked(s: State)
    ensures Performs(s, s, Change(s.dir, {}))
  {
  }

  lemma LostAccessPerforms(s: State, dir: Directory, users: set<UserId>, apps: set<AppId>)
    ensures Performs(s, RevokeLostAccess(s.(dir := dir), users, apps), Change(dir, LostPairs(dir, users, apps)))
  {
  }

  /** Removing a group, a membership or a policy announces exactly the pairs of user and application that
      had an ALLOW path before and have none after, each once, and revokes exactly the users of those
      pairs. */
  lemma ExactAccessDiff(cfg: Config, s: State, op: Op)
    requires RemovesAccess(op)
    ensures IsDiff(s.dir, Apply(cfg, s, op).dir, ChangeOf(s, op).lost)
    ensures Performs(s, Apply(cfg, s, op), ChangeOf(s, op))
  {
    ChangeIsDiff(s, op);
    NobodyRevoked(s);
    match op
    case DropGroup(g) => LostAccessPerforms(s, WithoutGroup(s.dir, g), MembersOf(s.dir, g), AllowedBy(s.dir, g));
    case Leave(u, g, _) => LostAccessPerforms(s, WithoutMember(s.dir, u, g), {u}, AllowedBy(s.dir, g));
    case Disallow(a, g) => LostAccessPerforms(s, WithoutPolicy(s.dir, a, g), MembersOf(s.dir, g), {a});
  }

  /** In numbers: the count of the event for a pair grows by one if the pair lost its last path, and by
      none otherwise. */
  lemma EachLostPairOnce(cfg: Config, s: State, op: Op, u: UserId, a: AppId)
    requires RemovesAccess(op)
    ensures var t := Apply(cfg, s, op);
            var gone := if HasPath(s.dir, u, a) && !HasPath(t.dir, u, a) then 1 else 0;
            t.outbox[AccessChange(u, a)] == s.outbox[AccessChange(u, a)] + gone
  {
    ExactAccessDiff(cfg, s, op);
    var lost := ChangeOf(s, op).lost;
    assert AccessChange(u, a) in AccessEvents(lost) <==> Pair(u, a) in lost;
  }

  // ---------------------------------------------------------------- outbox conservation

  /** Over any run a central session is announced at most once, and exactly when it was revoked by a
      logout or a deactivation. */
  lemma SessionsAnnouncedExactly(cfg: Config, ops: seq<Op>, id: SessionId)
    ensures var s := Run(cfg, INITIAL, ops);
            && (id in s.sessions && IsAnnounced(s.sessions[id]) ==>
                  s.outbox[SessionEnded(id, s.sessions[id].user, s.sessions[id].reason.value)] == 1)
            && (forall e :: e in s.outbox && e.SessionEnded? && e.session == id ==>
                  && id in s.sessions && IsAnnounced(s.sessions[id])
                  && e == SessionEnded(id, s.sessions[id].user, s.sessions[id].reason.value))
  {
    Reach(cfg, ops, []);
    var s := Run(cfg, INITIAL, ops);
    if id in s.sessions {
      assert IsRecorded(s.outbox, id, s.sessions[id]);
    }
    forall e | e in s.outbox && e.SessionEnded? && e.session == id
      ensures id in s.sessions && IsAnnounced(s.sessions[id])
           && e == SessionEnded(id, s.sessions[id].user, s.sessions[id].reason.value)
    {
      assert EventOk(s.sessions, e);
    }
  }
}
