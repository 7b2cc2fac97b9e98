/** When each operation on one-time factors succeeds, in terms of the rows it finds, and what it leaves. */
module MfaEffects {
  import opened Vocabulary
  import opened LoginChallenges
  import opened MfaState
  import opened MfaServices

  /** The user has the second factor enabled, and this is a later step than the last one accepted. */
  predicate IsLaterStep(s: State, u: UserId, step: nat) {
    && u in s.totp && s.totp[u].enabledAt.Some?
    && (s.totp[u].lastUsed.Some? ==> s.totp[u].lastUsed.value < step)
  }

  predicate IsUnusedCode(s: State, u: UserId, id: RecoveryId) {
    id in s.codes && s.codes[id].user == u && s.codes[id].usedAt.None?
  }

  /** A claim succeeds exactly for a later step or an unused recovery code of the user; the row then
      remembers the step, or the code is used. */
  lemma ClaimExactly(s: State, u: UserId, f: Factor, at: nat)
    ensures var t := ClaimFactor(s, u, f, at);
            && (t.Some? <==> match f
                             case TimeStep(_, step) => IsLaterStep(s, u, step)
                             case RecoveryCode(id) => IsUnusedCode(s, u, id))
            && (t.Some? ==>
                  t.value.(uses := s.uses)
                    == match f
                       case TimeStep(_, step) => s.(totp := s.totp[u := s.totp[u].(lastUsed := Some(step))])
                       case RecoveryCode(id) => s.(codes := s.codes[id := s.codes[id].(usedAt := Some(at))]))
  {
  }

  /** What was presented is a code for a later step, or an unused recovery code. */
  predicate IsGood(s: State, u: UserId, p: Presented) {
    match p
    case Digits(Some(step)) => IsLaterStep(s, u, step)
    case Text(Some(id)) => IsUnusedCode(s, u, id)
    case _ => false
  }

  /** The reads before a transaction recognise exactly a good code of an enabled factor, as what it is. */
  lemma RecognisedExactly(s: State, u: UserId, p: Presented)
    requires u in s.totp && s.totp[u].enabledAt.Some?
    ensures var f := Recognised(s, u, p);
            && (f.Some? <==> IsGood(s, u, p))
            && (f.Some? ==> match p
                            case Digits(step) => step.Some? && f.value == TimeStep(s.totp[u].secret, step.value)
                            case Text(id) => id.Some? && f.value == RecoveryCode(id.value))
  {
  }

  /** A login that nobody disturbs succeeds exactly for a challenge that is unused, has not elapsed, has
      tries left and is of an allowed intent, whose user is active, may administer if it is for that, has
      the second factor enabled, and presents a good code. It then uses the challenge and adds one session
      of the user. */
  lemma LoginExactly(s: State, c: ChallengeId, p: Presented, allowed: set<Intent>, id: SessionId, maxAttempts: nat,
                     at: nat)
    requires c in s.challenges && id !in s.sessions
    ensures var login := CompleteLogin(s, c, p, allowed, id, maxAttempts, at, None);
            var x := s.challenges[c];
            && (login.accepted <==>
                  && x.usedAt.None? && at < x.expiresAt && x.attempts < maxAttempts && x.intent in allowed
                  && x.user in s.active && (x.intent == Admin ==> x.user in s.admins)
                  && x.user in s.totp && s.totp[x.user].enabledAt.Some? && IsGood(s, x.user, p))
            && (login.accepted ==>
                  && login.state.challenges == s.challenges[c := x.(usedAt := Some(at))]
                  && login.state.sessions == s.sessions[id := x.user]
                  && match p
                     case Digits(step) =>
                       login.state.totp == s.totp[x.user := s.totp[x.user].(lastUsed := step)]
                       && login.state.codes == s.codes
                     case Text(code) =>
                       login.state.totp == s.totp && code.Some? && code.value in s.codes
                       && login.state.codes
                          == s.codes[code.value := s.codes[code.value].(usedAt := Some(at))])
  {
  }

  /** A new challenge is of this user, for this intent and lifetime, with no attempts, and closes the open
      ones of the user; those of other users stay. */
  lemma ChallengeExactly(s: State, c: ChallengeId, u: UserId, intent: Intent, expiresAt: nat, at: nat)
    requires c !in s.challenges
    ensures var t := StartChallenge(s, c, u, intent, expiresAt, at);
            && t == s.(challenges := t.challenges) && t.challenges.Keys == s.challenges.Keys + {c}
            && t.challenges[c] == Challenge(u, intent, 0, expiresAt, None)
            && forall d :: d in s.challenges ==>
                 t.challenges[d] == if s.challenges[d].user == u && s.challenges[d].usedAt.None?
                                    then s.challenges[d].(usedAt := Some(at)) else s.challenges[d]
  {
  }

  /** The codes of the user are exactly these, unused; those of other users stay. */
  ghost predicate HasExactlyCodes(s: State, t: State, u: UserId, newCodes: set<RecoveryId>) {
    forall id :: id in t.codes <==> id in newCodes || (id in s.codes && s.codes[id].user != u)
  }

  /** An enrolment starts exactly if the second factor is not enabled, and is then pending with this secret. */
  lemma EnrolmentExactly(s: State, u: UserId, secret: SecretId)
    requires secret !in s.secrets
    ensures var t := StartEnrolment(s, u, secret);
            if u in s.totp && s.totp[u].enabledAt.Some? then t == s
            else t.(secrets := s.secrets) == s.(totp := s.totp[u := Totp(secret, None, None)])
  {
  }

  /** A confirmation succeeds exactly for a pending enrolment; it enables the factor, remembers the step and
      replaces the recovery codes of the user. */
  lemma ConfirmExactly(s: State, u: UserId, verified: SecretId, step: nat, newCodes: set<RecoveryId>, at: nat)
    requires AreFresh(s, newCodes)
    requires forall id :: id in s.codes ==> id in s.issued
    ensures var t := ConfirmEnrolment(s, u, verified, step, newCodes, at);
            && (t.Some? <==> u in s.totp && s.totp[u].enabledAt.None?)
            && (t.Some? ==>
                  && t.value.totp == s.totp[u := Totp(s.totp[u].secret, Some(at), Some(step))]
                  && t.value.challenges == s.challenges && t.value.sessions == s.sessions
                  && HasExactlyCodes(s, t.value, u, newCodes)
                  && (forall id :: id in newCodes ==> t.value.codes[id] == Recovery(u, None))
                  && (forall id :: id in s.codes && s.codes[id].user != u ==> t.value.codes[id] == s.codes[id]))
  {
  }

  /** A regeneration succeeds exactly with a good factor, which it consumes, and replaces the codes. */
  lemma RegenerationExactly(s: State, u: UserId, f: Factor, newCodes: set<RecoveryId>, at: nat)
    requires AreFresh(s, newCodes)
    requires forall id :: id in s.codes ==> id in s.issued
    ensures var t := RegenerateCodes(s, u, f, newCodes, at);
            && (t.Some? <==> match f
                             case TimeStep(_, step) => IsLaterStep(s, u, step)
                             case RecoveryCode(id) => IsUnusedCode(s, u, id))
            && (t.Some? ==>
                  && HasExactlyCodes(s, t.value, u, newCodes)
                  && (forall id :: id in newCodes ==> t.value.codes[id] == Recovery(u, None))
                  && (forall id :: id in s.codes && s.codes[id].user != u ==> t.value.codes[id] == s.codes[id])
                  && t.value.totp == (if f.TimeStep? then s.totp[u := s.totp[u].(lastUsed := Some(f.step))] else s.totp)
                  && t.value.challenges == s.challenges && t.value.sessions == s.sessions)
  {
    ClaimExactly(s, u, f, at);
  }

  /** The second factor is disabled exactly with a good factor while it is enabled; the row, the recovery
      codes and the open challenges of the user are gone, those of others stay. */
  lemma DisablingExactly(s: State, u: UserId, f: Factor, at: nat)
    ensures var t := Disable(s, u, f, at);
            && (t.Some? <==>
                  && u in s.totp && s.totp[u].enabledAt.Some?
                  && match f
                     case TimeStep(_, step) => IsLaterStep(s, u, step)
                     case RecoveryCode(id) => IsUnusedCode(s, u, id))
            && (t.Some? ==>
                  && t.value.totp == s.totp - {u} && HasExactlyCodes(s, t.value, u, {})
                  && (forall id :: id in s.codes && s.codes[id].user != u ==> t.value.codes[id] == s.codes[id])
                  && t.value.challenges.Keys == s.challenges.Keys
                  && (forall c :: c in s.challenges ==>
                        t.value.challenges[c] == if s.challenges[c].user == u && s.challenges[c].usedAt.None?
                                                 then s.challenges[c].(usedAt := Some(at)) else s.challenges[c])
                  && t.value.sessions == s.sessions)
  {
    ClaimExactly(s, u, f, at);
    if ClaimFactor(s, u, f, at).Some? {
      var m := ClaimFactor(s, u, f, at).value;
      assert m.totp - {u} == s.totp - {u};
    }
  }
}
