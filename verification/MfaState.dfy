/** One-time factors of the Auth Provider: enrolment, login challenges, recovery codes, and the claims
    that make every time step and every recovery code usable once. Each function is one transaction;
    what was read before it may be stale. */
module MfaState {
  import opened LoginChallenges
  import opened Vocabulary

  type SecretId = nat
  type RecoveryId = nat
  type SessionId = nat

  datatype Totp = Totp(secret: SecretId, enabledAt: Option<nat>, lastUsed: Option<nat>)

  datatype Recovery = Recovery(user: UserId, usedAt: Option<nat>)

  /** A factor as the reads before a transaction recognised it: a time step with the secret for which the
      code was verified, or a recovery code. */
  datatype Factor = TimeStep(secret: SecretId, step: nat) | RecoveryCode(id: RecoveryId)

  /** An accepted factor. A time step is claimed against the secret that the row holds by then. */
  datatype Use = StepUse(verified: SecretId, held: SecretId, step: nat) | CodeUse(id: RecoveryId)

  /** `uses`, `secrets` and `issued` are history: accepted factors in order, secrets ever enrolled, and
      recovery codes ever issued. */
  datatype State = State(
    active: set<UserId>,
    admins: set<UserId>,
    totp: map<UserId, Totp>,
    codes: map<RecoveryId, Recovery>,
    challenges: Challenges,
    sessions: map<SessionId, UserId>,
    uses: seq<Use>,
    secrets: set<SecretId>,
    issued: set<RecoveryId>)

  const INITIAL := State({}, {}, map[], map[], map[], map[], [], {}, {})

  predicate IsEnabled(s: State, u: UserId) { u in s.totp && s.totp[u].enabledAt.Some? }

  // ---------------------------------------------------------------- mfa-enrollment.service.ts

  /** `secret` is freshly generated. */
  function StartEnrolment(s: State, u: UserId, secret: SecretId): State {
    if IsEnabled(s, u) || secret in s.secrets then s
    else s.(totp := s.totp[u := Totp(secret, None, None)], secrets := s.secrets + {secret})
  }

  function WithoutCodes(codes: map<RecoveryId, Recovery>, u: UserId): map<RecoveryId, Recovery> {
    map c | c in codes && codes[c].user != u :: codes[c]
  }

  function ReplacedCodes(s: State, u: UserId, newCodes: set<RecoveryId>): State {
    s.(codes := WithoutCodes(s.codes, u) + (map c | c in newCodes :: Recovery(u, None)), issued := s.issued + newCodes)
  }

  /** `newCodes` are the codes just generated. */
  predicate AreFresh(s: State, newCodes: set<RecoveryId>) { newCodes !! s.issued }

  /** `verified` is the secret that was read before the transaction. */
  function ConfirmEnrolment(s: State, u: UserId, verified: SecretId, step: nat, newCodes: set<RecoveryId>, at: nat):
    Option<State> {
    if u !in s.totp || s.totp[u].enabledAt.Some? || !AreFresh(s, newCodes) then None
    else
      Some(ReplacedCodes(s.(totp := s.totp[u := s.totp[u].(enabledAt := Some(at), lastUsed := Some(step))],
                            uses := s.uses + [StepUse(verified, s.totp[u].secret, step)]), u, newCodes))
  }

  // ---------------------------------------------------------------- claiming a factor

  function ClaimFactor(s: State, u: UserId, f: Factor, at: nat): Option<State> {
    match f
    case TimeStep(secret, step) =>
      if IsEnabled(s, u) && (s.totp[u].lastUsed.None? || s.totp[u].lastUsed.value < step)
      then Some(s.(totp := s.totp[u := s.totp[u].(lastUsed := Some(step))],
                   uses := s.uses + [StepUse(secret, s.totp[u].secret, step)]))
      else None
    case RecoveryCode(id) =>
      if id in s.codes && s.codes[id].user == u && s.codes[id].usedAt.None?
      then Some(s.(codes := s.codes[id := s.codes[id].(usedAt := Some(at))], uses := s.uses + [CodeUse(id)]))
      else None
  }

  // ---------------------------------------------------------------- mfa-challenge.service.ts

  function StartChallenge(s: State, c: ChallengeId, u: UserId, intent: Intent, expiresAt: nat, at: nat): State {
    if c in s.challenges then s
    else s.(challenges := WithChallenge(s.challenges, c, u, intent, expiresAt, at))
  }

  function ClaimChallenge(s: State, c: ChallengeId, maxAttempts: nat, at: nat): Option<State> {
    if c in s.challenges && s.challenges[c].usedAt.None? && s.challenges[c].expiresAt > at
       && s.challenges[c].attempts < maxAttempts && s.challenges[c].user in s.active
    then Some(s.(challenges := s.challenges[c := s.challenges[c].(usedAt := Some(at))]))
    else None
  }

  /** The transaction of a login: challenge, factor and session together, or nothing. */
  function Complete(s: State, c: ChallengeId, f: Factor, id: SessionId, maxAttempts: nat, at: nat): Option<State> {
    if c !in s.challenges || id in s.sessions then None
    else
      var u := s.challenges[c].user;
      if s.challenges[c].intent == Admin && !(u in s.active && u in s.admins) then None
      else
        match ClaimChallenge(s, c, maxAttempts, at)
        case None => None
        case Some(m) =>
          match ClaimFactor(m, u, f, at)
          case None => None
          case Some(n) => Some(n.(sessions := n.sessions[id := u]))
  }

  /** `wasOpen` says that the challenge was unused and not expired when it was read. */
  function RecordFailure(s: State, c: ChallengeId, wasOpen: bool, maxAttempts: nat): State {
    if wasOpen && c in s.challenges && s.challenges[c].usedAt.None? && s.challenges[c].attempts < maxAttempts
    then s.(challenges := s.challenges[c := s.challenges[c].(attempts := s.challenges[c].attempts + 1)])
    else s
  }

  // ---------------------------------------------------------------- mfa-management.service.ts

  function RegenerateCodes(s: State, u: UserId, f: Factor, newCodes: set<RecoveryId>, at: nat): Option<State> {
    match ClaimFactor(s, u, f, at)
    case None => None
    case Some(m) => if AreFresh(m, newCodes) then Some(ReplacedCodes(m, u, newCodes)) else None
  }

  function Disable(s: State, u: UserId, f: Factor, at: nat): Option<State> {
    match ClaimFactor(s, u, f, at)
    case None => None
    case Some(m) =>
      if !IsEnabled(m, u) then None
      else Some(m.(codes := WithoutCodes(m.codes, u), totp := m.totp - {u},
                   challenges := UsedChallenges(m.challenges, {u}, at)))
  }

  // ---------------------------------------------------------------- runs

  datatype Op =
    | Activate(u: UserId, active: bool, admin: bool)
    | CloseChallenges(u: UserId, at: nat)
    | Enrol(u: UserId, secret: SecretId)
    | Confirm(u: UserId, verified: SecretId, step: nat, newCodes: set<RecoveryId>, at: nat)
    | Challenged(c: ChallengeId, u: UserId, intent: Intent, expiresAt: nat, at: nat)
    | LogIn(c: ChallengeId, f: Factor, id: SessionId, at: nat)
    | Fail(c: ChallengeId, wasOpen: bool)
    | Regenerate(u: UserId, f: Factor, newCodes: set<RecoveryId>, at: nat)
    | TurnOff(u: UserId, f: Factor, at: nat)

  function Kept(s: State, t: Option<State>): State { if t.Some? then t.value else s }

  function Apply(maxAttempts: nat, s: State, op: Op): State {
    match op
    case Activate(u, active, admin) =>
      s.(active := if active then s.active + {u} else s.active - {u},
         admins := if admin then s.admins + {u} else s.admins - {u})
    case CloseChallenges(u, at) => s.(challenges := UsedChallenges(s.challenges, {u}, at))
    case Enrol(u, secret) => StartEnrolment(s, u, secret)
    case Confirm(u, verified, step, newCodes, at) => Kept(s, ConfirmEnrolment(s, u, verified, step, newCodes, at))
    case Challenged(c, u, intent, expiresAt, at) => StartChallenge(s, c, u, intent, expiresAt, at)
    case LogIn(c, f, id, at) => Kept(s, Complete(s, c, f, id, maxAttempts, at))
    case Fail(c, wasOpen) => RecordFailure(s, c, wasOpen, maxAttempts)
    case Regenerate(u, f, newCodes, at) => Kept(s, RegenerateCodes(s, u, f, newCodes, at))
    case TurnOff(u, f, at) => Kept(s, Disable(s, u, f, at))
  }

  function Run(maxAttempts: nat, s: State, ops: seq<Op>): State
    decreases ops
  {
    if ops == [] then s else Run(maxAttempts, Apply(maxAttempts, s, ops[0]), ops[1..])
  }
}
