/** The services around one-time factors. A transaction that throws puts every table back; between the
    reads before a transaction and the transaction itself, other requests may run. */
module MfaServices {
  import opened LoginChallenges
  import opened Vocabulary
  import opened MfaState

  /** What a submitted code turns out to be: a six-digit code with the time step for which it is valid, or
      any other text with the recovery code its hash selects. */
  datatype Presented = Digits(step: Option<nat>) | Text(id: Option<RecoveryId>)

  predicate MayTry(s: State, c: ChallengeId, allowed: set<Intent>, maxAttempts: nat, at: nat) {
    && c in s.challenges && s.challenges[c].usedAt.None? && s.challenges[c].expiresAt > at
    && s.challenges[c].attempts < maxAttempts && s.challenges[c].intent in allowed && s.challenges[c].user in s.active
    && (s.challenges[c].intent == Admin ==> s.challenges[c].user in s.admins) && IsEnabled(s, s.challenges[c].user)
  }

  /** The factor that the reads before the transaction recognise. */
  function Recognised(s: State, u: UserId, p: Presented): Option<Factor> {
    match p
    case Digits(Some(step)) =>
      if u in s.totp && (s.totp[u].lastUsed.None? || s.totp[u].lastUsed.value < step)
          then Some(TimeStep(s.totp[u].secret, step)) else None
    case Text(Some(id)) =>
      if id in s.codes && s.codes[id].user == u && s.codes[id].usedAt.None? then Some(RecoveryCode(id)) else None
    case _ => None
  }

  function Raced(s: State, meanwhile: Option<State>): State { if meanwhile.Some? then meanwhile.value else s }

  datatype Login = Login(state: State, accepted: bool)

  function CompleteLogin(s: State, c: ChallengeId, p: Presented, allowed: set<Intent>, id: SessionId,
                         maxAttempts: nat, at: nat, meanwhile: Option<State>): Login {
    if c !in s.challenges then Login(s, false)
    else
      var m := Raced(s, meanwhile);
      var wasOpen := s.challenges[c].usedAt.None? && s.challenges[c].expiresAt > at;
      var factor := if MayTry(s, c, allowed, maxAttempts, at) then Recognised(s, s.challenges[c].user, p) else None;
      if factor.None? then Login(RecordFailure(m, c, wasOpen, maxAttempts), false)
      else
        match Complete(m, c, factor.value, id, maxAttempts, at)
        case Some(t) => Login(t, true)
        case None => Login(RecordFailure(m, c, wasOpen, maxAttempts), false)
  }

  /** The state with one more failed attempt at this challenge. */
  function CountedOnce(m: State, c: ChallengeId): State
    requires c in m.challenges
  {
    m.(challenges := m.challenges[c := m.challenges[c].(attempts := m.challenges[c].attempts + 1)])
  }

  /** A refused login of a challenge that was open when it was read counts one attempt, if the challenge is
      still unused and below the limit; any other refused login changes nothing. An accepted one passed
      every check made before the transaction, and carried it out. */
  lemma RefusedLoginCountsOnce(s: State, c: ChallengeId, p: Presented, allowed: set<Intent>, id: SessionId,
                               maxAttempts: nat, at: nat, meanwhile: Option<State>)
    requires c in s.challenges
    ensures var login := CompleteLogin(s, c, p, allowed, id, maxAttempts, at, meanwhile);
            var m := Raced(s, meanwhile);
            if login.accepted
            then MayTry(s, c, allowed, maxAttempts, at) && Recognised(s, s.challenges[c].user, p).Some?
                 && Complete(m, c, Recognised(s, s.challenges[c].user, p).value, id, maxAttempts, at)
                    == Some(login.state)
            else if s.challenges[c].usedAt.None? && at < s.challenges[c].expiresAt && c in m.challenges
                    && m.challenges[c].usedAt.None? && m.challenges[c].attempts < maxAttempts
            then login.state == CountedOnce(m, c)
            else login.state == m
  {
  }

  /** The step of a run that a call amounts to, for whatever others did in between. */
  function StepOf(s: State, c: ChallengeId, p: Presented, allowed: set<Intent>, id: SessionId, maxAttempts: nat,
                  at: nat, meanwhile: Option<State>): Op
    requires c in s.challenges
  {
    if CompleteLogin(s, c, p, allowed, id, maxAttempts, at, meanwhile).accepted
        && Recognised(s, s.challenges[c].user, p).Some?
    then LogIn(c, Recognised(s, s.challenges[c].user, p).value, id, at)
    else Fail(c, s.challenges[c].usedAt.None? && s.challenges[c].expiresAt > at)
  }

  /** So runs of these steps are runs of calls. */
  lemma LoginTakesStep(s: State, c: ChallengeId, p: Presented, allowed: set<Intent>, id: SessionId, maxAttempts: nat,
                       at: nat, meanwhile: Option<State>)
    requires c in s.challenges
    ensures CompleteLogin(s, c, p, allowed, id, maxAttempts, at, meanwhile).state
         == Apply(maxAttempts, Raced(s, meanwhile), StepOf(s, c, p, allowed, id, maxAttempts, at, meanwhile))
  {
  }

  /** How many calls of the run were refused whose challenge was open when they read it. */
  function Refusals(ops: seq<Op>, c: ChallengeId): nat
    decreases ops
  {
    if ops == [] then 0
    else (if ops[0].Fail? && ops[0].c == c && ops[0].wasOpen then 1 else 0) + Refusals(ops[1..], c)
  }

  /** One step counts exactly the refusal it is. */
  lemma StepCounts(maxAttempts: nat, s: State, op: Op, c: ChallengeId)
    requires c in s.challenges && s.challenges[c].attempts <= maxAttempts
    requires c in Apply(maxAttempts, s, op).challenges && Apply(maxAttempts, s, op).challenges[c].usedAt.None?
    ensures var t := Apply(maxAttempts, s, op);
            && s.challenges[c].usedAt.None?
            && t.challenges[c].attempts == Min(maxAttempts, s.challenges[c].attempts + Refusals([op], c))
  {
    assert Refusals([op], c) == (if op.Fail? && op.c == c && op.wasOpen then 1 else 0) + Refusals([], c);
  }

  lemma ChallengeStays(maxAttempts: nat, s: State, op: Op, c: ChallengeId)
    requires c in s.challenges
    ensures var t := Apply(maxAttempts, s, op);
            && c in t.challenges && (s.challenges[c].usedAt.Some? ==> t.challenges[c].usedAt.Some?)
            && (s.challenges[c].attempts <= maxAttempts ==> t.challenges[c].attempts <= maxAttempts)
  {
  }

  /** While a challenge is unused, its counter is the number of those refusals, up to the limit. */
  lemma {:induction false} CounterCountsRefusals(maxAttempts: nat, s: State, ops: seq<Op>, c: ChallengeId)
    requires c in s.challenges && s.challenges[c].attempts <= maxAttempts
    ensures var t := Run(maxAttempts, s, ops);
            && c in t.challenges && (s.challenges[c].usedAt.Some? ==> t.challenges[c].usedAt.Some?)
            && (t.challenges[c].usedAt.None? ==>
                  t.challenges[c].attempts == Min(maxAttempts, s.challenges[c].attempts + Refusals(ops, c)))
    decreases ops
  {
    if ops != [] {
      var m := Apply(maxAttempts, s, ops[0]);
      ChallengeStays(maxAttempts, s, ops[0], c);
      CounterCountsRefusals(maxAttempts, m, ops[1..], c);
      if Run(maxAttempts, s, ops).challenges[c].usedAt.None? {
        StepCounts(maxAttempts, s, ops[0], c);
        assert Refusals([ops[0]], c) == (if ops[0].Fail? && ops[0].c == c && ops[0].wasOpen then 1 else 0);
      }
    }
  }

  /** Once as many logins of a challenge were refused as the limit allows, no code completes it, in this or
      any later state, whatever else happens. */
  lemma ExhaustedChallengeIsRefused(maxAttempts: nat, s: State, ops: seq<Op>, c: ChallengeId, f: Factor, id: SessionId,
                                    at: nat)
    requires c in s.challenges && s.challenges[c].attempts <= maxAttempts && Refusals(ops, c) >= maxAttempts
    ensures Complete(Run(maxAttempts, s, ops), c, f, id, maxAttempts, at).None?
    ensures forall p, allowed, meanwhile ::
              !CompleteLogin(Run(maxAttempts, s, ops), c, p, allowed, id, maxAttempts, at, meanwhile).accepted
  {
    CounterCountsRefusals(maxAttempts, s, ops, c);
  }

  class FactorDatabase {
    var active: set<UserId>
    var admins: set<UserId>
    var totp: map<UserId, Totp>
    var codes: map<RecoveryId, Recovery>
    var challenges: map<ChallengeId, Challenge>
    var sessions: map<SessionId, UserId>
    ghost var uses: seq<Use>
    ghost var secrets: set<SecretId>
    ghost var issued: set<RecoveryId>
    const maxAttempts: nat

    constructor (maxAttempts: nat)
      ensures View() == INITIAL && this.maxAttempts == maxAttempts
    {
      this.maxAttempts := maxAttempts;
      active, admins, totp, codes, challenges, sessions := {}, {}, map[], map[], map[], map[];
      uses, secrets, issued := [], {}, {};
    }

    ghost function View(): State
      reads this
    {
      State(active, admins, totp, codes, challenges, sessions, uses, secrets, issued)
    }

    /** Other requests run while this one waits. */
    method OthersRun(meanwhile: Option<State>)
      modifies this
      ensures View() == Raced(old(View()), meanwhile)
    {
      if meanwhile.Some? {
        var m := meanwhile.value;
        active, admins, totp, codes, challenges, sessions := m.active, m.admins, m.totp, m.codes, m.challenges,
            m.sessions;
        uses, secrets, issued := m.uses, m.secrets, m.issued;
      }
    }

    // -------------------------------------------------------------- claims

    method ClaimFactor(u: UserId, f: Factor, at: nat) returns (count: nat)
      modifies this`totp, this`codes, this`uses
      ensures var r := MfaState.ClaimFactor(old(View()), u, f, at);
              count == (if r.Some? then 1 else 0) && View() == Kept(old(View()), r)
    {
      if f.RecoveryCode? {
        if f.id !in codes || codes[f.id].user != u || codes[f.id].usedAt.Some? {
          return 0;
        }
        codes := codes[f.id := codes[f.id].(usedAt := Some(at))];
        uses := uses + [CodeUse(f.id)];
      } else {
        if u !in totp || totp[u].enabledAt.None? || (totp[u].lastUsed.Some? && f.step <= totp[u].lastUsed.value) {
          return 0;
        }
        totp := totp[u := totp[u].(lastUsed := Some(f.step))];
        uses := uses + [StepUse(f.secret, totp[u].secret, f.step)];
      }
      return 1;
    }

    method ClaimChallenge(c: ChallengeId, at: nat) returns (count: nat)
      modifies this`challenges
      ensures var r := MfaState.ClaimChallenge(old(View()), c, maxAttempts, at);
              count == (if r.Some? then 1 else 0) && View() == Kept(old(View()), r)
    {
      if c !in challenges || challenges[c].usedAt.Some? || challenges[c].expiresAt <= at
         || challenges[c].attempts >= maxAttempts || challenges[c].user !in active
      {
        return 0;
      }
      challenges := challenges[c := challenges[c].(usedAt := Some(at))];
      return 1;
    }

    /** What a transaction may have changed is put back when it throws. */
    method Rollback(ghost before: State, totp: map<UserId, Totp>, codes: map<RecoveryId, Recovery>,
                    challenges: map<ChallengeId, Challenge>)
      requires before.totp == totp && before.codes == codes && before.challenges == challenges
      requires View() == before.(totp := this.totp, codes := this.codes, challenges := this.challenges, uses := uses)
      modifies this
      ensures View() == before
    {
      this.totp, this.codes, this.challenges := totp, codes, challenges;
      uses := before.uses;
    }

    // -------------------------------------------------------------- mfa-challenge.service.ts

    method Start(c: ChallengeId, u: UserId, intent: Intent, expiresAt: nat, at: nat)
      requires c !in challenges
      modifies this`challenges
      ensures View() == StartChallenge(old(View()), c, u, intent, expiresAt, at)
    {
      challenges := UsedChallenges(challenges, {u}, at);
      challenges := challenges[c := Challenge(u, intent, 0, expiresAt, None)];
    }

    method CompleteTransaction(c: ChallengeId, f: Factor, id: SessionId, at: nat) returns (done: bool)
      requires c in challenges && id !in sessions
      modifies this
      ensures var r := MfaState.Complete(old(View()), c, f, id, maxAttempts, at);
              done == r.Some? && View() == Kept(old(View()), r)
    {
      var u := challenges[c].user;
      if challenges[c].intent == Admin && !(u in active && u in admins) {
        return false;
      }
      var (totpBefore, codesBefore, challengesBefore) := (totp, codes, challenges);
      var claimedChallenge := ClaimChallenge(c, at);
      var claimedFactor := ClaimFactor(u, f, at);
      if claimedChallenge != 1 || claimedFactor != 1 {
        Rollback(old(View()), totpBefore, codesBefore, challengesBefore);
        return false;
      }
      sessions := sessions[id := u];
      return true;
    }

    method RecordFailure(c: ChallengeId, wasOpen: bool)
      modifies this`challenges
      ensures View() == MfaState.RecordFailure(old(View()), c, wasOpen, maxAttempts)
    {
      if wasOpen && c in challenges && challenges[c].usedAt.None? && challenges[c].attempts < maxAttempts {
        challenges := challenges[c := challenges[c].(attempts := challenges[c].attempts + 1)];
      }
    }

    method Recognise(u: UserId, p: Presented) returns (factor: Option<Factor>)
      requires u in totp
      ensures factor == Recognised(View(), u, p)
    {
      match p {
        case Digits(Some(step)) =>
          if totp[u].lastUsed.None? || totp[u].lastUsed.value < step {
            return Some(TimeStep(totp[u].secret, step));
          }
        case Text(Some(code)) =>
          if code in codes && codes[code].user == u && codes[code].usedAt.None? {
            return Some(RecoveryCode(code));
          }
        case _ =>
      }
      return None;
    }

    /** The checks before the transaction, all on what was read then. */
    method ReadAttempt(c: ChallengeId, p: Presented, allowed: set<Intent>, at: nat) returns (factor: Option<Factor>)
      requires c in challenges
      ensures factor == if MayTry(View(), c, allowed, maxAttempts, at) then Recognised(View(), challenges[c].user, p)
              else None
    {
      var seen := challenges[c];
      var mayTry := seen.usedAt.None? && seen.expiresAt > at && seen.attempts < maxAttempts && seen.intent in allowed
                    && seen.user in active && (seen.intent != Admin || seen.user in admins)
                    && seen.user in totp && totp[seen.user].enabledAt.Some?;
      if !mayTry {
        return None;
      }
      factor := Recognise(seen.user, p);
    }

    /** `id` is a new session; rows are never deleted, so the challenge still exists after others ran. */
    method Complete(c: ChallengeId, p: Presented, allowed: set<Intent>, id: SessionId, at: nat,
                    meanwhile: Option<State>)
      returns (accepted: bool)
      requires id !in Raced(View(), meanwhile).sessions
      requires c in challenges ==> c in Raced(View(), meanwhile).challenges
      modifies this
      ensures Login(View(), accepted) == CompleteLogin(old(View()), c, p, allowed, id, maxAttempts, at, meanwhile)
    {
      if c !in challenges {
        return false;
      }
      var wasOpen := challenges[c].usedAt.None? && challenges[c].expiresAt > at;
      var factor := ReadAttempt(c, p, allowed, at);
      OthersRun(meanwhile);
      if factor.None? {
        RecordFailure(c, wasOpen);
        return false;
      }
      accepted := CompleteTransaction(c, factor.value, id, at);
      if !accepted {
        RecordFailure(c, wasOpen);
      }
    }

    // -------------------------------------------------------------- mfa-enrollment.service.ts

    method StartEnrolment(u: UserId, secret: SecretId) returns (started: bool)
      requires secret !in secrets
      modifies this
      ensures View() == MfaState.StartEnrolment(old(View()), u, secret) && started == !IsEnabled(old(View()), u)
    {
      if u in totp && totp[u].enabledAt.Some? {
        return false;
      }
      totp := totp[u := Totp(secret, None, None)];
      secrets := secrets + {secret};
      return true;
    }

    /** The guarded activation; `step` is the time step accepted for the secret `verified` that was read
        before. */
    method ConfirmEnrolment(u: UserId, verified: SecretId, step: nat, newCodes: set<RecoveryId>,
                            at: nat) returns (done: bool)
      requires AreFresh(View(), newCodes)
      modifies this
      ensures var r := MfaState.ConfirmEnrolment(old(View()), u, verified, step, newCodes, at);
              done == r.Some? && View() == Kept(old(View()), r)
    {
      if u !in totp || totp[u].enabledAt.Some? {
        return false;
      }
      totp := totp[u := totp[u].(enabledAt := Some(at), lastUsed := Some(step))];
      uses := uses + [StepUse(verified, totp[u].secret, step)];
      ReplaceCodes(u, newCodes);
      return true;
    }

    method ReplaceCodes(u: UserId, newCodes: set<RecoveryId>)
      modifies this`codes, this`issued
      ensures View() == ReplacedCodes(old(View()), u, newCodes)
    {
      codes := WithoutCodes(codes, u);
      codes := codes + (map c | c in newCodes :: Recovery(u, None));
      issued := issued + newCodes;
    }

    // -------------------------------------------------------------- mfa-management.service.ts

    method RegenerateRecoveryCodes(u: UserId, f: Factor, newCodes: set<RecoveryId>, at: nat) returns (done: bool)
      requires AreFresh(View(), newCodes)
      modifies this
      ensures var r := RegenerateCodes(old(View()), u, f, newCodes, at);
              done == r.Some? && View() == Kept(old(View()), r)
    {
      var claimed := ClaimFactor(u, f, at);
      if claimed != 1 {
        return false;
      }
      ReplaceCodes(u, newCodes);
      return true;
    }

    method Disable(u: UserId, f: Factor, at: nat) returns (done: bool)
      modifies this
      ensures var r := MfaState.Disable(old(View()), u, f, at);
              done == r.Some? && View() == Kept(old(View()), r)
    {
      var (totpBefore, codesBefore, challengesBefore) := (totp, codes, challenges);
      var claimed := ClaimFactor(u, f, at);
      if claimed != 1 {
        return false;
      }
      codes := WithoutCodes(codes, u);
      if u !in totp || totp[u].enabledAt.None? {
        Rollback(old(View()), totpBefore, codesBefore, challengesBefore);
        return false;
      }
      totp := totp - {u};
      challenges := UsedChallenges(challenges, {u}, at);
      return true;
    }
  }
}
