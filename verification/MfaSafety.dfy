/** Within one enrolment every factor is accepted once, over any run of enrolments, logins, regenerations
    and removals; what a code verified for a replaced secret can still do; and what stays removed. */
module MfaSafety {
  import opened Vocabulary
  import opened LoginChallenges
  import opened MfaState

  // ---------------------------------------------------------------- invariant

  /** The row of a user remembers the latest step accepted for its secret; before it is enabled, none
      was. */
  predicate UseOk(s: State, e: Use) {
    match e
    case StepUse(_, held, step) =>
      held in s.secrets
      && forall u :: u in s.totp && s.totp[u].secret == held ==>
         s.totp[u].lastUsed.Some? && step <= s.totp[u].lastUsed.value
    case CodeUse(id) => id in s.issued && (id in s.codes ==> s.codes[id].usedAt.Some?)
  }

  ghost predicate RowsOk(totp: map<UserId, Totp>, secrets: set<SecretId>) {
    && (forall u :: u in totp ==> totp[u].secret in secrets && (totp[u].enabledAt.Some? <==> totp[u].lastUsed.Some?))
    && (forall u, v :: u in totp && v in totp && totp[u].secret == totp[v].secret ==> u == v)
  }

  /** Recovery codes exist only while the second factor is enabled. */
  ghost predicate CodesOk(s: State) {
    forall c :: c in s.codes ==> c in s.issued && IsEnabled(s, s.codes[c].user)
  }

  ghost predicate OneOpenChallenge(m: map<ChallengeId, Challenge>) {
    forall c, d :: c in m && d in m && m[c].user == m[d].user && m[c].usedAt.None? && m[d].usedAt.None? ==> c == d
  }

  ghost predicate AttemptsOk(m: map<ChallengeId, Challenge>, maxAttempts: nat) {
    forall c :: c in m ==> m[c].attempts <= maxAttempts
  }

  /** What an acceptance uses up: a time step of the enrolment that the row holds, or a recovery code. */
  datatype Slot = StepSlot(held: SecretId, step: nat) | CodeSlot(id: RecoveryId)

  function SlotOf(e: Use): Slot {
    match e
    case StepUse(_, held, step) => StepSlot(held, step)
    case CodeUse(id) => CodeSlot(id)
  }

  ghost predicate UsedOnce(uses: seq<Use>) {
    forall i, j :: 0 <= i < j < |uses| ==> SlotOf(uses[i]) != SlotOf(uses[j])
  }

  ghost predicate UsesOk(s: State) { forall i :: 0 <= i < |s.uses| ==> UseOk(s, s.uses[i]) }

  ghost predicate Inv(maxAttempts: nat, s: State) {
    && UsedOnce(s.uses) && UsesOk(s) && RowsOk(s.totp, s.secrets) && CodesOk(s)
    && OneOpenChallenge(s.challenges) && AttemptsOk(s.challenges, maxAttempts)
  }

  // ---------------------------------------------------------------- factors

  lemma FreshUse(s: State, e: Use)
    requires UsedOnce(s.uses) && forall i :: 0 <= i < |s.uses| ==> SlotOf(s.uses[i]) != SlotOf(e)
    ensures UsedOnce(s.uses + [e])
  {
  }

  /** A claim accepts a factor that was never accepted before. */
  lemma ClaimIsFirst(maxAttempts: nat, s: State, u: UserId, f: Factor, at: nat)
    requires Inv(maxAttempts, s) && ClaimFactor(s, u, f, at).Some?
    ensures var t := ClaimFactor(s, u, f, at).value;
            Inv(maxAttempts, t) && IsEnabled(t, u) && t.challenges == s.challenges && t.sessions == s.sessions
  {
    var t := ClaimFactor(s, u, f, at).value;
    var e := t.uses[|s.uses|];
    forall i | 0 <= i < |s.uses| ensures SlotOf(s.uses[i]) != SlotOf(e) && UseOk(t, s.uses[i]) {
      assert UseOk(s, s.uses[i]);
    }
    FreshUse(s, e);
    assert UseOk(t, e);
  }

  lemma StartEnrolmentKeeps(maxAttempts: nat, s: State, u: UserId, secret: SecretId)
    requires Inv(maxAttempts, s)
    ensures Inv(maxAttempts, StartEnrolment(s, u, secret))
  {
  }

  lemma ReplacedCodesKeep(maxAttempts: nat, s: State, u: UserId, newCodes: set<RecoveryId>)
    requires Inv(maxAttempts, s) && IsEnabled(s, u) && AreFresh(s, newCodes)
    ensures Inv(maxAttempts, ReplacedCodes(s, u, newCodes))
  {
  }

  lemma ConfirmKeeps(maxAttempts: nat, s: State, u: UserId, verified: SecretId, step: nat, newCodes: set<RecoveryId>,
                     at: nat)
    requires Inv(maxAttempts, s) && ConfirmEnrolment(s, u, verified, step, newCodes, at).Some?
    ensures Inv(maxAttempts, ConfirmEnrolment(s, u, verified, step, newCodes, at).value)
  {
    var e := StepUse(verified, s.totp[u].secret, step);
    var m := s.(totp := s.totp[u := s.totp[u].(enabledAt := Some(at), lastUsed := Some(step))], uses := s.uses + [e]);
    forall i | 0 <= i < |s.uses| ensures SlotOf(s.uses[i]) != SlotOf(e) && UseOk(m, s.uses[i]) {
      assert UseOk(s, s.uses[i]);
    }
    FreshUse(s, e);
    assert UseOk(m, e);
    ReplacedCodesKeep(maxAttempts, m, u, newCodes);
  }

  // ---------------------------------------------------------------- challenges

  lemma ChallengesChanged(maxAttempts: nat, s: State, m: map<ChallengeId, Challenge>)
    requires Inv(maxAttempts, s) && OneOpenChallenge(m) && AttemptsOk(m, maxAttempts)
    ensures Inv(maxAttempts, s.(challenges := m))
  {
  }

  /** This challenge is open, and the user has no other. */
  predicate IsOnlyOpen(m: Challenges, c: ChallengeId, u: UserId) {
    && c in m && m[c].user == u && m[c].usedAt.None?
    && forall d :: d in m && m[d].user == u && m[d].usedAt.None? ==> d == c
  }

  lemma OnlyOpenOnceAdded(m: Challenges, c: ChallengeId, u: UserId, intent: Intent, expiresAt: nat, at: nat)
    requires OneOpenChallenge(m)
    ensures var n := WithChallenge(m, c, u, intent, expiresAt, at); OneOpenChallenge(n) && IsOnlyOpen(n, c, u)
  {
  }

  lemma AttemptsOkOnceAdded(m: Challenges, c: ChallengeId, u: UserId, intent: Intent, expiresAt: nat, at: nat,
                            maxAttempts: nat)
    requires AttemptsOk(m, maxAttempts)
    ensures AttemptsOk(WithChallenge(m, c, u, intent, expiresAt, at), maxAttempts)
  {
  }

  lemma StartChallengeKeeps(maxAttempts: nat, s: State, c: ChallengeId, u: UserId, intent: Intent, expiresAt: nat,
                            at: nat)
    requires Inv(maxAttempts, s)
    ensures var t := StartChallenge(s, c, u, intent, expiresAt, at);
            && Inv(maxAttempts, t)
            && (c !in s.challenges ==> IsOnlyOpen(t.challenges, c, u))
  {
    if c !in s.challenges {
      OnlyOpenOnceAdded(s.challenges, c, u, intent, expiresAt, at);
      AttemptsOkOnceAdded(s.challenges, c, u, intent, expiresAt, at, maxAttempts);
      ChallengesChanged(maxAttempts, s, WithChallenge(s.challenges, c, u, intent, expiresAt, at));
    }
  }

  /** A login uses the challenge, consumes one factor and creates one session, or it changes nothing. */
  lemma CompleteAllOrNothing(maxAttempts: nat, s: State, c: ChallengeId, f: Factor, id: SessionId, at: nat)
    requires Inv(maxAttempts, s)
    ensures match Complete(s, c, f, id, maxAttempts, at)
            case None => true
            case Some(t) =>
              && Inv(maxAttempts, t) && c in s.challenges && id !in s.sessions
              && s.challenges[c].usedAt.None? && t.challenges[c] == s.challenges[c].(usedAt := Some(at))
              && t.sessions == s.sessions[id := s.challenges[c].user]
              && |t.uses| == |s.uses| + 1 && t.uses[..|s.uses|] == s.uses
              && (forall i :: 0 <= i < |s.uses| ==> SlotOf(s.uses[i]) != SlotOf(t.uses[|s.uses|]))
              && s.challenges[c].attempts < maxAttempts && at < s.challenges[c].expiresAt
              && s.challenges[c].user in s.active && IsEnabled(s, s.challenges[c].user)
              && (s.challenges[c].intent == Admin ==> s.challenges[c].user in s.admins)
  {
    var r := Complete(s, c, f, id, maxAttempts, at);
    if r.Some? {
      var u := s.challenges[c].user;
      var m := ClaimChallenge(s, c, maxAttempts, at).value;
      ChallengesChanged(maxAttempts, s, m.challenges);
      var n := ClaimFactor(m, u, f, at).value;
      ClaimIsFirst(maxAttempts, m, u, f, at);
      SessionsChanged(maxAttempts, n, r.value.sessions);
      LastIsNew(n.uses);
      ClaimNeedsEnabled(maxAttempts, m, u, f, at);
    }
  }

  lemma ClaimNeedsEnabled(maxAttempts: nat, s: State, u: UserId, f: Factor, at: nat)
    requires Inv(maxAttempts, s) && ClaimFactor(s, u, f, at).Some?
    ensures IsEnabled(s, u)
    ensures ClaimFactor(s, u, f, at).value.uses[..|s.uses|] == s.uses
  {
  }

  lemma LastIsNew(q: seq<Use>)
    requires UsedOnce(q) && |q| > 0
    ensures forall i :: 0 <= i < |q| - 1 ==> SlotOf(q[i]) != SlotOf(q[|q| - 1])
  {
  }

  lemma SessionsChanged(maxAttempts: nat, s: State, sessions: map<SessionId, UserId>)
    requires Inv(maxAttempts, s)
    ensures Inv(maxAttempts, s.(sessions := sessions))
  {
  }

  // ---------------------------------------------------------------- management

  lemma RegenerateKeeps(maxAttempts: nat, s: State, u: UserId, f: Factor, newCodes: set<RecoveryId>, at: nat)
    requires Inv(maxAttempts, s) && RegenerateCodes(s, u, f, newCodes, at).Some?
    ensures Inv(maxAttempts, RegenerateCodes(s, u, f, newCodes, at).value)
  {
    ClaimIsFirst(maxAttempts, s, u, f, at);
    ReplacedCodesKeep(maxAttempts, ClaimFactor(s, u, f, at).value, u, newCodes);
  }

  lemma RemovalKeeps(maxAttempts: nat, s: State, u: UserId, at: nat)
    requires Inv(maxAttempts, s)
    ensures Inv(maxAttempts, s.(codes := WithoutCodes(s.codes, u), totp := s.totp - {u},
                                challenges := UsedChallenges(s.challenges, {u}, at)))
  {
    var m := s.(challenges := UsedChallenges(s.challenges, {u}, at));
    ChallengesChanged(maxAttempts, s, m.challenges);
    var t := m.(codes := WithoutCodes(s.codes, u), totp := s.totp - {u});
    forall i | 0 <= i < |t.uses| ensures UseOk(t, t.uses[i]) {
      assert UseOk(s, s.uses[i]);
    }
  }

  lemma DisableKeeps(maxAttempts: nat, s: State, u: UserId, f: Factor, at: nat)
    requires Inv(maxAttempts, s) && Disable(s, u, f, at).Some?
    ensures Inv(maxAttempts, Disable(s, u, f, at).value)
  {
    ClaimIsFirst(maxAttempts, s, u, f, at);
    RemovalKeeps(maxAttempts, ClaimFactor(s, u, f, at).value, u, at);
  }

  // ---------------------------------------------------------------- every run

  /** History only grows. */
  predicate Grows(s: State, t: State) { s.uses <= t.uses }

  lemma UsesGrow(maxAttempts: nat, s: State, op: Op)
    ensures Grows(s, Apply(maxAttempts, s, op))
  {
  }

  lemma ActivateKeeps(maxAttempts: nat, s: State, active: set<UserId>, admins: set<UserId>)
    requires Inv(maxAttempts, s)
    ensures Inv(maxAttempts, s.(active := active, admins := admins))
  {
  }

  lemma StepKeeps(maxAttempts: nat, s: State, op: Op)
    requires Inv(maxAttempts, s)
    ensures Inv(maxAttempts, Apply(maxAttempts, s, op))
  {
    var t := Apply(maxAttempts, s, op);
    match op
    case Activate(_, _, _) => ActivateKeeps(maxAttempts, s, t.active, t.admins);
    case CloseChallenges(_, _) => ChallengesChanged(maxAttempts, s, t.challenges);
    case Enrol(u, secret) => StartEnrolmentKeeps(maxAttempts, s, u, secret);
    case Confirm(u, verified, step, newCodes, at) =>
      if ConfirmEnrolment(s, u, verified, step, newCodes, at).Some? {
        ConfirmKeeps(maxAttempts, s, u, verified, step, newCodes, at);
      }
    case Challenged(c, u, intent, expiresAt, at) => StartChallengeKeeps(maxAttempts, s, c, u, intent, expiresAt, at);
    case LogIn(c, f, id, at) => CompleteAllOrNothing(maxAttempts, s, c, f, id, at);
    case Fail(_, _) => ChallengesChanged(maxAttempts, s, t.challenges);
    case Regenerate(u, f, newCodes, at) =>
      if RegenerateCodes(s, u, f, newCodes, at).Some? { RegenerateKeeps(maxAttempts, s, u, f, newCodes, at); }
    case TurnOff(u, f, at) => if Disable(s, u, f, at).Some? { DisableKeeps(maxAttempts, s, u, f, at); }
  }

  lemma {:induction false} RunKeeps(maxAttempts: nat, s: State, ops: seq<Op>)
    requires Inv(maxAttempts, s)
    ensures Inv(maxAttempts, Run(maxAttempts, s, ops)) && Grows(s, Run(maxAttempts, s, ops))
    decreases ops
  {
    if ops != [] {
      StepKeeps(maxAttempts, s, ops[0]);
      UsesGrow(maxAttempts, s, ops[0]);
      RunKeeps(maxAttempts, Apply(maxAttempts, s, ops[0]), ops[1..]);
    }
  }

  /** Over any run of confirmations, logins, regenerations and removals no time step is accepted twice
      while the row holds one secret, and no recovery code is accepted twice; no user has two open
      challenges, and no challenge counts more failures than the limit. */
  lemma FactorsAreOneTime(maxAttempts: nat, ops: seq<Op>)
    ensures var s := Run(maxAttempts, INITIAL, ops);
            && UsedOnce(s.uses) && OneOpenChallenge(s.challenges) && AttemptsOk(s.challenges, maxAttempts)
  {
    RunKeeps(maxAttempts, INITIAL, ops);
  }

  lemma Reach(maxAttempts: nat, ops: seq<Op>, more: seq<Op>)
    ensures var s := Run(maxAttempts, INITIAL, ops);
            var t := Run(maxAttempts, s, more);
            Inv(maxAttempts, t) && s.uses <= t.uses
  {
    RunKeeps(maxAttempts, INITIAL, ops);
    RunKeeps(maxAttempts, Run(maxAttempts, INITIAL, ops), more);
  }

  /** No entry point accepts this step from this user: no claim, which is what a login, a regeneration and
      a removal make, and no confirmation of an enrolment. */
  ghost predicate StepIsRefused(t: State, u: UserId, f: Factor, at: nat)
    requires f.TimeStep?
  {
    && ClaimFactor(t, u, f, at).None?
    && forall newCodes :: ConfirmEnrolment(t, u, f.secret, f.step, newCodes, at).None?
  }

  lemma UsedStepIsRefused(maxAttempts: nat, t: State, u: UserId, e: Use, verified: SecretId, at: nat)
    requires Inv(maxAttempts, t) && e in t.uses && e.StepUse? && u in t.totp && t.totp[u].secret == e.held
    ensures StepIsRefused(t, u, TimeStep(verified, e.step), at)
  {
    assert UseOk(t, e);
  }

  /** A step accepted once for the secret that a row holds is refused in every later state in which the
      row still holds that secret, by every entry point and for whatever secret it was verified; a
      recovery code accepted once is always refused. */
  lemma AcceptedIsRefused(maxAttempts: nat, ops: seq<Op>, more: seq<Op>, e: Use, u: UserId, verified: SecretId, at: nat)
    ensures var s := Run(maxAttempts, INITIAL, ops);
            var t := Run(maxAttempts, s, more);
            e in s.uses ==>
              match e
              case StepUse(_, held, step) =>
                u in t.totp && t.totp[u].secret == held ==> StepIsRefused(t, u, TimeStep(verified, step), at)
              case CodeUse(id) => ClaimFactor(t, u, RecoveryCode(id), at).None?
  {
    Reach(maxAttempts, ops, more);
    var s := Run(maxAttempts, INITIAL, ops);
    var t := Run(maxAttempts, s, more);
    if e in s.uses {
      assert e in t.uses;
      assert UseOk(t, e);
      if e.StepUse? && u in t.totp && t.totp[u].secret == e.held {
        UsedStepIsRefused(maxAttempts, t, u, e, verified, at);
      }
    }
  }

  // ---------------------------------------------------------------- codes verified for a replaced secret

  /** The row is enabled under another secret and has not reached the step. */
  predicate HoldsAnotherBelow(t: State, u: UserId, held: SecretId, step: nat) {
    IsEnabled(t, u) && t.totp[u].secret != held && t.totp[u].lastUsed.Some? && t.totp[u].lastUsed.value < step
  }

  /** An enrolment waits for its confirmation. */
  predicate IsPending(t: State, u: UserId) { u in t.totp && t.totp[u].enabledAt.None? }

  predicate MayLogIn(maxAttempts: nat, t: State, u: UserId, c: ChallengeId, id: SessionId, at: nat) {
    && ClaimChallenge(t, c, maxAttempts, at).Some? && t.challenges[c].user == u && id !in t.sessions
    && (t.challenges[c].intent == Admin ==> u in t.admins)
  }

  /** The exact condition under which a code accepted before is accepted again, for every entry point: a
      regeneration, a removal and a login whose challenge is open accept it if and only if the row is
      enabled under another secret by now and has not reached the step; a confirmation if and only if an
      enrolment is pending, which then is of another secret. The updates name only the user, so they
      cannot tell. */
  lemma AcceptedAgainExactly(maxAttempts: nat, ops: seq<Op>, more: seq<Op>, e: Use, u: UserId, at: nat,
                             newCodes: set<RecoveryId>, c: ChallengeId, id: SessionId)
    requires e.StepUse? && e in Run(maxAttempts, INITIAL, ops).uses
    ensures var t := Run(maxAttempts, Run(maxAttempts, INITIAL, ops), more);
            var f := TimeStep(e.verified, e.step);
            && (Disable(t, u, f, at).Some? <==> HoldsAnotherBelow(t, u, e.held, e.step))
            && (AreFresh(t, newCodes) ==>
                  (RegenerateCodes(t, u, f, newCodes, at).Some? <==> HoldsAnotherBelow(t, u, e.held, e.step)))
            && (MayLogIn(maxAttempts, t, u, c, id, at) ==>
                  (Complete(t, c, f, id, maxAttempts, at).Some? <==> HoldsAnotherBelow(t, u, e.held, e.step)))
            && (AreFresh(t, newCodes) ==>
                  (ConfirmEnrolment(t, u, e.verified, e.step, newCodes, at).Some? <==> IsPending(t, u)))
            && (IsPending(t, u) ==> t.totp[u].secret != e.held)
  {
    Reach(maxAttempts, ops, more);
    AcceptedIsRefused(maxAttempts, ops, more, e, u, e.verified, at);
    var t := Run(maxAttempts, Run(maxAttempts, INITIAL, ops), more);
    assert UseOk(t, e);
    ClaimsAlike(maxAttempts, t, u, TimeStep(e.verified, e.step), newCodes, c, id, at);
    assert ClaimFactor(t, u, TimeStep(e.verified, e.step), at).Some? <==> HoldsAnotherBelow(t, u, e.held, e.step);
  }

  /** Regeneration, removal and login accept a time step alike: if and only if the claim does. */
  lemma ClaimsAlike(maxAttempts: nat, t: State, u: UserId, f: Factor, newCodes: set<RecoveryId>, c: ChallengeId,
                    id: SessionId, at: nat)
    requires f.TimeStep?
    ensures var claimed := ClaimFactor(t, u, f, at).Some?;
            && (Disable(t, u, f, at).Some? <==> claimed)
            && (AreFresh(t, newCodes) ==> (RegenerateCodes(t, u, f, newCodes, at).Some? <==> claimed))
            && (MayLogIn(maxAttempts, t, u, c, id, at) ==> (Complete(t, c, f, id, maxAttempts, at).Some? <==> claimed))
  {
  }

  /** The code for step 5 of secret 1 regenerates recovery codes, the factor is disabled with a recovery
      code and enrolled again. */
  const TWICE: seq<Op> := [
    Enrol(0, 1), Confirm(0, 1, 3, {10}, 0), Regenerate(0, TimeStep(1, 5), {11}, 0),
    TurnOff(0, RecoveryCode(11), 0), Enrol(0, 2), Confirm(0, 2, 4, {12}, 0)]

  function Enrolled(secret: SecretId, last: nat, codes: map<RecoveryId, Recovery>, uses: seq<Use>,
                    secrets: set<SecretId>, issued: set<RecoveryId>): State {
    State({}, {}, map[0 := Totp(secret, Some(0), Some(last))], codes, map[], map[], uses, secrets, issued)
  }

  lemma {:induction false} RunAppends(maxAttempts: nat, s: State, a: seq<Op>, b: seq<Op>)
    ensures Run(maxAttempts, s, a + b) == Run(maxAttempts, Run(maxAttempts, s, a), b)
    decreases a
  {
    if a == [] {
      assert a + b == b;
    } else {
      assert (a + b)[1..] == a[1..] + b;
      RunAppends(maxAttempts, Apply(maxAttempts, s, a[0]), a[1..], b);
    }
  }

  lemma RunTwo(maxAttempts: nat, s: State, a: Op, b: Op)
    ensures Run(maxAttempts, s, [a, b]) == Apply(maxAttempts, Apply(maxAttempts, s, a), b)
  {
    assert [a, b][1..] == [b] && [b][1..] == [];
    assert Run(maxAttempts, Apply(maxAttempts, s, a), [b])
           == Run(maxAttempts, Apply(maxAttempts, Apply(maxAttempts, s, a), b), []);
  }

  const FIRST := StepUse(1, 1, 3)
  const AGAIN := StepUse(1, 1, 5)
  const DISABLING := CodeUse(11)
  const SECOND := StepUse(2, 2, 4)
  const DISABLED := State({}, {}, map[], map[], map[], map[], [FIRST, AGAIN, DISABLING], {1}, {10, 11})

  lemma FirstEnrolment(maxAttempts: nat)
    ensures Run(maxAttempts, INITIAL, TWICE[..2]) == Enrolled(1, 3, map[10 := Recovery(0, None)], [FIRST], {1}, {10})
  {
    RunTwo(maxAttempts, INITIAL, TWICE[0], TWICE[1]);
    assert TWICE[..2] == [TWICE[0], TWICE[1]];
  }

  lemma StepAccepted(maxAttempts: nat)
    ensures Run(maxAttempts, Enrolled(1, 3, map[10 := Recovery(0, None)], [FIRST], {1}, {10}), TWICE[2..4]) == DISABLED
  {
    var s := Enrolled(1, 3, map[10 := Recovery(0, None)], [FIRST], {1}, {10});
    RunTwo(maxAttempts, s, TWICE[2], TWICE[3]);
    assert TWICE[2..4] == [TWICE[2], TWICE[3]];
    var m := Apply(maxAttempts, s, TWICE[2]);
    assert m == Enrolled(1, 5, map[11 := Recovery(0, None)], [FIRST, AGAIN], {1}, {10, 11});
    assert Apply(maxAttempts, m, TWICE[3]).codes == map[];
  }

  lemma SecondEnrolment(maxAttempts: nat)
    ensures Run(maxAttempts, DISABLED, TWICE[4..])
         == Enrolled(2, 4, map[12 := Recovery(0, None)], [FIRST, AGAIN, DISABLING, SECOND], {1, 2}, {10, 11, 12})
  {
    RunTwo(maxAttempts, DISABLED, TWICE[4], TWICE[5]);
    assert TWICE[4..] == [TWICE[4], TWICE[5]];
  }

  /** It happens: a regeneration that had verified the same code before is carried out only after that. */
  lemma StepAcceptedTwice(maxAttempts: nat)
    ensures var t := Run(maxAttempts, INITIAL, TWICE);
            AGAIN in t.uses && RegenerateCodes(t, 0, TimeStep(1, 5), {13}, 0).Some?
  {
    FirstEnrolment(maxAttempts);
    StepAccepted(maxAttempts);
    SecondEnrolment(maxAttempts);
    RunAppends(maxAttempts, INITIAL, TWICE[..2], TWICE[2..4]);
    RunAppends(maxAttempts, INITIAL, TWICE[..4], TWICE[4..]);
    assert TWICE[..2] + TWICE[2..4] == TWICE[..4] && TWICE[..4] + TWICE[4..] == TWICE;
  }

  /** A confirmation that had verified the code of secret 1 waits while another one accepts the same code,
      the factor is disabled, and secret 2 is enrolled. */
  const CONFIRMED: seq<Op> := [Enrol(0, 1), Confirm(0, 1, 5, {10}, 0), TurnOff(0, RecoveryCode(10), 0), Enrol(0, 2)]

  lemma FirstConfirmed(maxAttempts: nat)
    ensures Run(maxAttempts, INITIAL, CONFIRMED[..2])
            == Enrolled(1, 5, map[10 := Recovery(0, None)], [AGAIN], {1}, {10})
  {
    RunTwo(maxAttempts, INITIAL, CONFIRMED[0], CONFIRMED[1]);
    assert CONFIRMED[..2] == [CONFIRMED[0], CONFIRMED[1]];
  }

  const PENDING :=
    State({}, {}, map[0 := Totp(2, None, None)], map[], map[], map[], [AGAIN, CodeUse(10)], {1, 2}, {10})

  lemma SecondPending(maxAttempts: nat)
    ensures Run(maxAttempts, Enrolled(1, 5, map[10 := Recovery(0, None)], [AGAIN], {1}, {10}), CONFIRMED[2..])
            == PENDING
  {
    var s := Enrolled(1, 5, map[10 := Recovery(0, None)], [AGAIN], {1}, {10});
    RunTwo(maxAttempts, s, CONFIRMED[2], CONFIRMED[3]);
    assert CONFIRMED[2..] == [CONFIRMED[2], CONFIRMED[3]];
    var m := Apply(maxAttempts, s, CONFIRMED[2]);
    assert m.codes == map[] && m.totp == map[];
  }

  /** It then accepts the code a second time, although no claim would, and enables secret 2, for which
      nobody has shown a code. */
  lemma StepConfirmedTwice(maxAttempts: nat)
    ensures var t := Run(maxAttempts, INITIAL, CONFIRMED);
            var r := ConfirmEnrolment(t, 0, 1, 5, {11}, 0);
            && AGAIN in t.uses && ClaimFactor(t, 0, TimeStep(1, 5), 0).None?
            && r.Some? && IsEnabled(r.value, 0) && r.value.totp[0].secret == 2 && !IsProven(r.value, 2)
  {
    FirstConfirmed(maxAttempts);
    SecondPending(maxAttempts);
    RunAppends(maxAttempts, INITIAL, CONFIRMED[..2], CONFIRMED[2..]);
    assert CONFIRMED[..2] + CONFIRMED[2..] == CONFIRMED;
    assert PENDING.uses[0] == AGAIN;
    assert ConfirmEnrolment(PENDING, 0, 1, 5, {11}, 0).value.uses == [AGAIN, CodeUse(10), StepUse(1, 2, 5)];
  }

  // ---------------------------------------------------------------- secrets that nobody verified

  /** Some code was verified for this secret and accepted while a row held it. */
  ghost predicate IsProven(s: State, secret: SecretId) { exists step :: StepUse(secret, secret, step) in s.uses }

  lemma PendingIsUnused(maxAttempts: nat, t: State, u: UserId)
    requires Inv(maxAttempts, t) && IsPending(t, u)
    ensures forall e :: e in t.uses && e.StepUse? ==> e.held != t.totp[u].secret
  {
    forall e | e in t.uses && e.StepUse? ensures e.held != t.totp[u].secret {
      assert UseOk(t, e);
    }
  }

  /** The exact condition under which a confirmation enables a secret that nobody verified: it had
      verified its code for another secret than the row holds by then. */
  lemma UnprovenExactly(maxAttempts: nat, ops: seq<Op>, u: UserId, verified: SecretId, step: nat,
                        newCodes: set<RecoveryId>, at: nat)
    requires ConfirmEnrolment(Run(maxAttempts, INITIAL, ops), u, verified, step, newCodes, at).Some?
    ensures var t := Run(maxAttempts, INITIAL, ops);
            var r := ConfirmEnrolment(t, u, verified, step, newCodes, at).value;
            && IsEnabled(r, u) && r.totp[u].secret == t.totp[u].secret
            && (!IsProven(r, r.totp[u].secret) <==> t.totp[u].secret != verified)
  {
    RunKeeps(maxAttempts, INITIAL, ops);
    var t := Run(maxAttempts, INITIAL, ops);
    var r := ConfirmEnrolment(t, u, verified, step, newCodes, at).value;
    var held := t.totp[u].secret;
    var last := r.uses[|t.uses|];
    assert last in r.uses && last == StepUse(verified, held, step);
    PendingIsUnused(maxAttempts, t, u);
  }

  /** Every confirmation of the run that succeeds finds the secret it verified its code for. */
  predicate ConfirmsOwn(maxAttempts: nat, s: State, ops: seq<Op>)
    decreases ops
  {
    ops == []
    || ((ops[0].Confirm? && IsPending(s, ops[0].u) ==> s.totp[ops[0].u].secret == ops[0].verified)
        && ConfirmsOwn(maxAttempts, Apply(maxAttempts, s, ops[0]), ops[1..]))
  }

  ghost predicate AllProven(s: State) { forall u :: IsEnabled(s, u) ==> IsProven(s, s.totp[u].secret) }

  /** A step that enables a row is a confirmation, which records its use. */
  lemma EnabledByConfirmation(maxAttempts: nat, s: State, op: Op, u: UserId)
    requires !IsEnabled(s, u) && IsEnabled(Apply(maxAttempts, s, op), u)
    ensures op.Confirm? && IsPending(s, u) && op.u == u
    ensures var held := Apply(maxAttempts, s, op).totp[u].secret;
            held == s.totp[u].secret && Apply(maxAttempts, s, op).uses == s.uses + [StepUse(op.verified, held, op.step)]
  {
  }

  lemma EnabledKeepsSecret(maxAttempts: nat, s: State, op: Op, u: UserId)
    requires IsEnabled(s, u) && IsEnabled(Apply(maxAttempts, s, op), u)
    ensures Apply(maxAttempts, s, op).totp[u].secret == s.totp[u].secret
  {
  }

  lemma ProvenStep(maxAttempts: nat, s: State, op: Op)
    requires AllProven(s)
    requires op.Confirm? && IsPending(s, op.u) ==> s.totp[op.u].secret == op.verified
    ensures AllProven(Apply(maxAttempts, s, op))
  {
    var t := Apply(maxAttempts, s, op);
    UsesGrow(maxAttempts, s, op);
    forall u | IsEnabled(t, u) ensures IsProven(t, t.totp[u].secret) {
      if IsEnabled(s, u) {
        EnabledKeepsSecret(maxAttempts, s, op, u);
        ProvenStays(s, t, s.totp[u].secret);
      } else {
        EnabledByConfirmation(maxAttempts, s, op, u);
        assert t.uses[|s.uses|] == StepUse(op.verified, op.verified, op.step);
      }
    }
  }

  lemma ProvenStays(s: State, t: State, secret: SecretId)
    requires IsProven(s, secret) && Grows(s, t)
    ensures IsProven(t, secret)
  {
    var step :| StepUse(secret, secret, step) in s.uses;
    assert StepUse(secret, secret, step) in t.uses;
  }

  /** In every run without such a confirmation, whoever has the second factor enabled has shown a code for
      the very secret. */
  lemma {:induction false} EnabledMeansProven(maxAttempts: nat, s: State, ops: seq<Op>)
    requires AllProven(s) && ConfirmsOwn(maxAttempts, s, ops)
    ensures AllProven(Run(maxAttempts, s, ops))
    decreases ops
  {
    if ops != [] {
      ProvenStep(maxAttempts, s, ops[0]);
      EnabledMeansProven(maxAttempts, Apply(maxAttempts, s, ops[0]), ops[1..]);
    }
  }

  // ---------------------------------------------------------------- logins are not affected

  /** While the challenge is open, its user keeps the secret that was enabled when it was read. */
  predicate HoldsWhileOpen(s: State, c: ChallengeId, u: UserId, secret: SecretId) {
    && c in s.challenges && s.challenges[c].user == u
    && (s.challenges[c].usedAt.None? ==> IsEnabled(s, u) && s.totp[u].secret == secret)
  }

  lemma HoldsStep(maxAttempts: nat, s: State, op: Op, c: ChallengeId, u: UserId, secret: SecretId)
    requires HoldsWhileOpen(s, c, u, secret)
    ensures HoldsWhileOpen(Apply(maxAttempts, s, op), c, u, secret)
  {
  }

  lemma {:induction false} HoldsRun(maxAttempts: nat, s: State, ops: seq<Op>, c: ChallengeId, u: UserId,
                                    secret: SecretId)
    requires HoldsWhileOpen(s, c, u, secret)
    ensures HoldsWhileOpen(Run(maxAttempts, s, ops), c, u, secret)
    decreases ops
  {
    if ops != [] {
      HoldsStep(maxAttempts, s, ops[0], c, u, secret);
      HoldsRun(maxAttempts, Apply(maxAttempts, s, ops[0]), ops[1..], c, u, secret);
    }
  }

  /** However long a login waits between verifying a code and its transaction, the secret it was verified
      for is the one the row still holds if the login succeeds, because disabling closes the challenge. */
  lemma LoginClaimsVerifiedSecret(maxAttempts: nat, s: State, c: ChallengeId, more: seq<Op>, step: nat, id: SessionId,
                                  at: nat)
    requires c in s.challenges && IsEnabled(s, s.challenges[c].user)
    ensures var secret := s.totp[s.challenges[c].user].secret;
            var m := Run(maxAttempts, s, more);
            var r := Complete(m, c, TimeStep(secret, step), id, maxAttempts, at);
            r.Some? ==> r.value.uses == m.uses + [StepUse(secret, secret, step)]
  {
    var u := s.challenges[c].user;
    HoldsRun(maxAttempts, s, more, c, u, s.totp[u].secret);
  }

  // ---------------------------------------------------------------- what was removed stays removed

  /** The recovery code was issued and no longer exists. */
  predicate IsRetiredCode(s: State, id: RecoveryId) { id in s.issued && id !in s.codes }

  /** The secret was enrolled and no user has it any more. */
  predicate IsRetiredSecret(s: State, secret: SecretId) {
    secret in s.secrets && forall u :: u in s.totp ==> s.totp[u].secret != secret
  }

  lemma UsedChallengeStays(maxAttempts: nat, s: State, op: Op, c: ChallengeId)
    requires c in s.challenges && s.challenges[c].usedAt.Some?
    ensures var t := Apply(maxAttempts, s, op); c in t.challenges && t.challenges[c] == s.challenges[c]
  {
  }

  /** A used challenge never changes again, so no login completes it. */
  lemma {:induction false} UsedChallengeForever(maxAttempts: nat, s: State, ops: seq<Op>, c: ChallengeId)
    requires c in s.challenges && s.challenges[c].usedAt.Some?
    ensures var t := Run(maxAttempts, s, ops); c in t.challenges && t.challenges[c] == s.challenges[c]
    decreases ops
  {
    if ops != [] {
      UsedChallengeStays(maxAttempts, s, ops[0], c);
      UsedChallengeForever(maxAttempts, Apply(maxAttempts, s, ops[0]), ops[1..], c);
    }
  }

  lemma RetiredStays(maxAttempts: nat, s: State, op: Op, id: RecoveryId, secret: SecretId)
    ensures IsRetiredCode(s, id) ==> IsRetiredCode(Apply(maxAttempts, s, op), id)
    ensures IsRetiredSecret(s, secret) ==> IsRetiredSecret(Apply(maxAttempts, s, op), secret)
  {
  }

  lemma {:induction false} RetiredForever(maxAttempts: nat, s: State, ops: seq<Op>, id: RecoveryId, secret: SecretId)
    ensures IsRetiredCode(s, id) ==> IsRetiredCode(Run(maxAttempts, s, ops), id)
    ensures IsRetiredSecret(s, secret) ==> IsRetiredSecret(Run(maxAttempts, s, ops), secret)
    decreases ops
  {
    if ops != [] {
      RetiredStays(maxAttempts, s, ops[0], id, secret);
      RetiredForever(maxAttempts, Apply(maxAttempts, s, ops[0]), ops[1..], id, secret);
    }
  }

  /** Regenerating recovery codes leaves the user exactly the new ones, all unused, and voids every older
      one in every later state. */
  lemma RegenerationVoidsOldCodes(maxAttempts: nat, s: State, u: UserId, f: Factor, newCodes: set<RecoveryId>, at: nat,
                                  more: seq<Op>, id: RecoveryId, v: UserId, later: nat)
    requires Inv(maxAttempts, s) && RegenerateCodes(s, u, f, newCodes, at).Some?
    ensures var t := RegenerateCodes(s, u, f, newCodes, at).value;
            && (forall c :: c in t.codes && t.codes[c].user == u <==> c in newCodes)
            && (forall c :: c in newCodes ==> t.codes[c].usedAt.None?)
            && (id in s.codes && s.codes[id].user == u ==>
                  ClaimFactor(Run(maxAttempts, t, more), v, RecoveryCode(id), later).None?)
  {
    var m := ClaimFactor(s, u, f, at).value;
    ClaimIsFirst(maxAttempts, s, u, f, at);
    var t := RegenerateCodes(s, u, f, newCodes, at).value;
    if id in s.codes && s.codes[id].user == u {
      assert id in m.issued && id !in newCodes;
      RetiredForever(maxAttempts, t, more, id, 0);
    }
  }

  /** Disabling the second factor voids every recovery code and every open challenge of the user in every
      later state, and no user ever holds the secret again. */
  lemma DisablingVoidsFactors(maxAttempts: nat, s: State, u: UserId, f: Factor, at: nat, more: seq<Op>)
    requires Inv(maxAttempts, s) && Disable(s, u, f, at).Some?
    ensures var t := Disable(s, u, f, at).value;
            var r := Run(maxAttempts, t, more);
            && !IsEnabled(t, u) && u in s.totp
            && (forall v :: v in r.totp ==> r.totp[v].secret != s.totp[u].secret)
            && (forall id, v, later :: id in s.codes && s.codes[id].user == u ==>
                  ClaimFactor(r, v, RecoveryCode(id), later).None?)
            && (forall c, g, id, later :: c in s.challenges && s.challenges[c].user == u ==>
                  Complete(r, c, g, id, maxAttempts, later).None?)
  {
    var m := ClaimFactor(s, u, f, at).value;
    ClaimIsFirst(maxAttempts, s, u, f, at);
    var t := Disable(s, u, f, at).value;
    var r := Run(maxAttempts, t, more);
    assert m.totp[u].secret == s.totp[u].secret;
    assert IsRetiredSecret(t, s.totp[u].secret);
    RetiredForever(maxAttempts, t, more, 0, s.totp[u].secret);
    forall id, v, later | id in s.codes && s.codes[id].user == u
      ensures ClaimFactor(r, v, RecoveryCode(id), later).None? {
      RetiredForever(maxAttempts, t, more, id, s.totp[u].secret);
    }
    forall c, g, id, later | c in s.challenges && s.challenges[c].user == u
      ensures Complete(r, c, g, id, maxAttempts, later).None?
    {
      UsedChallengeForever(maxAttempts, t, more, c);
    }
  }
}
