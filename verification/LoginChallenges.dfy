/** Login challenges: opened after the password, used up by the second factor or by a revocation. */
module LoginChallenges {
  import opened Vocabulary

  type UserId = nat
  type ChallengeId = nat

  datatype Intent = Api | OAuth | Admin

  datatype Challenge = Challenge(user: UserId, intent: Intent, attempts: nat, expiresAt: nat, usedAt: Option<nat>)

  type Challenges = map<ChallengeId, Challenge>

  /** Every open challenge of these users is used up. */
  function UsedChallenges(m: Challenges, users: set<UserId>, at: nat): Challenges {
    map c | c in m :: if m[c].user in users && m[c].usedAt.None? then m[c].(usedAt := Some(at)) else m[c]
  }

  /** A new challenge replaces the open ones of its user. */
  function WithChallenge(m: Challenges, c: ChallengeId, u: UserId, intent: Intent, expiresAt: nat,
                         at: nat): Challenges {
    UsedChallenges(m, {u}, at)[c := Challenge(u, intent, 0, expiresAt, None)]
  }
}
