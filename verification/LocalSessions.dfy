/** The local sessions of a relying application: login, inspection, local logout, and the
    idempotent application of revocation events. Each database transaction is one function
    from state to state; App A and App B run the same code. */
module LocalSessions {
  import opened Vocabulary

  type SessionId = nat
  type UserId = nat
  type CentralId = nat
  type EventId = nat

  datatype Status = Active | Expired | Revoked

  datatype LocalSession = LocalSession(
    user: UserId,
    central: CentralId,
    status: Status,
    expiresAt: nat,
    lastActivityAt: nat,
    revokedAt: Option<nat>,
    revokeReason: Option<string>)

  /** The part of a revocation event an application uses. `digest` stands for the fingerprint. */
  datatype Notice = Notice(
    eventId: EventId,
    eventType: EventType,
    userId: UserId,
    centralSessionId: Option<CentralId>,
    reason: string,
    digest: nat)

  datatype LogKind =
    | AuthorizationCodeReceived
    | UserInfoFetched
    | LocalSessionCreated
    | LocalSessionExpired
    | LocalLogout
    | BackChannel(eventType: EventType, eventId: EventId)

  datatype Processed = Processed(eventType: EventType, payloadHash: Option<nat>, processedAt: nat, revoked: nat)

  /** `logs` groups the activity log by session. `matched` is history: the sessions that the plan
      of an event matched, whatever their status, when the event was processed. */
  datatype State = State(
    clock: nat,
    sessions: map<SessionId, LocalSession>,
    logs: map<SessionId, seq<LogKind>>,
    processed: map<EventId, Processed>,
    matched: map<EventId, set<SessionId>>)

  // ---------------------------------------------------------------- local-session-state.ts

  function Classify(x: LocalSession, now: nat): Status {
    if x.status == Revoked || x.revokedAt.Some? then Revoked
    else if x.status == Expired || x.expiresAt <= now then Expired
    else Active
  }

  predicate CanRevoke(x: LocalSession, now: nat) { Classify(x, now) == Active }

  // ---------------------------------------------------------------- logout-plan.ts

  datatype Plan = Plan(user: UserId, central: Option<CentralId>, revokeReason: string)

  function CreatePlan(e: Notice): Plan {
    match e.eventType
    case SessionRevoked => Plan(e.userId, e.centralSessionId, e.reason)
    case PasswordChanged => Plan(e.userId, None, "password_changed")
    case AccessPolicyChanged => Plan(e.userId, None, "access_policy_changed")
  }

  predicate Matches(p: Plan, x: LocalSession) {
    x.user == p.user && (p.central.Some? ==> x.central == p.central.value)
  }

  /** The guard of the updates that end a live session. */
  predicate Live(x: LocalSession, now: nat) {
    x.status == Active && x.revokedAt.None? && x.expiresAt > now
  }

  // ---------------------------------------------------------------- local-session.ts

  datatype Resolution = ResolvedActive | ResolvedExpired | ResolvedRevoked | Invalid

  function Resolve(s: State, id: SessionId): (r: (State, Resolution)) {
    if id !in s.sessions then (s, Invalid)
    else
      var x := s.sessions[id];
      match Classify(x, s.clock)
      case Expired =>
        if x.status == Active && x.revokedAt.None? && x.expiresAt <= s.clock then
          (s.(sessions := s.sessions[id := x.(status := Expired)],
              logs := AddLog(s.logs, id, LocalSessionExpired)), ResolvedExpired)
        else (s, ResolvedExpired)
      case Revoked => (s, ResolvedRevoked)
      case Active => (s.(sessions := s.sessions[id := x.(lastActivityAt := s.clock)]), ResolvedActive)
  }

  function AddLog(logs: map<SessionId, seq<LogKind>>, id: SessionId, k: LogKind): map<SessionId, seq<LogKind>> {
    logs[id := (if id in logs then logs[id] else []) + [k]]
  }

  function Issue(s: State, id: SessionId, user: UserId, central: CentralId, ttlSeconds: nat): State {
    if id in s.sessions then s
    else
      s.(sessions := s.sessions[id := LocalSession(user, central, Active, s.clock + ttlSeconds * 1000, s.clock, None,
                                                   None)],
         logs := s.logs[id := [AuthorizationCodeReceived, UserInfoFetched, LocalSessionCreated]])
  }

  function Logout(s: State, id: SessionId): (r: (State, bool)) {
    if id !in s.sessions || !CanRevoke(s.sessions[id], s.clock) || !Live(s.sessions[id], s.clock) then (s, false)
    else
      (s.(sessions := s.sessions[id := RevokedAt(s.sessions[id], s.clock, "local_logout")],
          logs := AddLog(s.logs, id, LocalLogout)), true)
  }

  function RevokedAt(x: LocalSession, now: nat, reason: string): LocalSession {
    x.(status := Revoked, revokedAt := Some(now), revokeReason := Some(reason))
  }

  // ---------------------------------------------------------------- logout-processor.ts

  datatype Outcome = ProcessedNow | Replayed | Conflict

  predicate SamePayload(existing: Processed, e: Notice) {
    existing.eventType == e.eventType && (existing.payloadHash.None? || existing.payloadHash.value == e.digest)
  }

  function RevokedBy(s: State, p: Plan): set<SessionId> {
    set id | id in s.sessions && Matches(p, s.sessions[id]) && Live(s.sessions[id], s.clock)
  }

  function ProcessFirst(s: State, e: Notice): State {
    var p := CreatePlan(e);
    var hit := RevokedBy(s, p);
    State(s.clock,
          map id | id in s.sessions :: if id in hit then RevokedAt(s.sessions[id], s.clock, p.revokeReason)
              else s.sessions[id],
          map id | id in s.logs :: if id in hit then s.logs[id] + [BackChannel(e.eventType, e.eventId)] else s.logs[id],
          s.processed[e.eventId := Processed(e.eventType, Some(e.digest), s.clock, |hit|)],
          s.matched[e.eventId := set id | id in s.sessions && Matches(p, s.sessions[id])])
  }

  function Deliver(s: State, e: Notice): (r: (State, Outcome)) {
    if e.eventId in s.processed then (s, if SamePayload(s.processed[e.eventId], e) then Replayed else Conflict)
    else (ProcessFirst(s, e), ProcessedNow)
  }

  // ---------------------------------------------------------------- runs

  datatype Op =
    | Tick(elapsed: nat)
    | LogIn(id: SessionId, user: UserId, central: CentralId, ttlSeconds: nat)
    | Inspect(id: SessionId)
    | LogOut(id: SessionId)
    | Receive(notice: Notice)

  function Apply(s: State, op: Op): State {
    match op
    case Tick(d) => s.(clock := s.clock + d)
    case LogIn(id, u, c, ttl) => Issue(s, id, u, c, ttl)
    case Inspect(id) => Resolve(s, id).0
    case LogOut(id) => Logout(s, id).0
    case Receive(e) => Deliver(s, e).0
  }

  function Run(s: State, ops: seq<Op>): State
    decreases ops
  {
    if ops == [] then s else Run(Apply(s, ops[0]), ops[1..])
  }

  const EMPTY := State(0, map[], map[], map[], map[])

  // ---------------------------------------------------------------- invariant

  predicate IsTerminal(k: LogKind) { k.LocalSessionExpired? || k.LocalLogout? || k.BackChannel? }

  /** The entries of a session's log that record its end. */
  function Endings(log: seq<LogKind>): seq<LogKind> {
    if log == [] then []
    else Endings(log[..|log| - 1]) + if IsTerminal(log[|log| - 1]) then [log[|log| - 1]] else []
  }

  ghost predicate LogFits(x: LocalSession, log: seq<LogKind>) {
    match x.status
    case Active => Endings(log) == []
    case Expired => Endings(log) == [LocalSessionExpired]
    case Revoked => |Endings(log)| == 1 && !Endings(log)[0].LocalSessionExpired?
  }

  ghost predicate SessionFits(x: LocalSession, now: nat) {
    && (x.status == Revoked <==> x.revokedAt.Some?)
    && (x.revokedAt.Some? <==> x.revokeReason.Some?)
    && (x.status == Expired ==> x.expiresAt <= now)
  }

  ghost predicate IsDead(s: State, id: SessionId) {
    id in s.sessions && Classify(s.sessions[id], s.clock) != Active
  }

  ghost predicate Inv(s: State) {
    && s.logs.Keys == s.sessions.Keys
    && (forall id :: id in s.sessions ==> SessionFits(s.sessions[id], s.clock))
    && (forall id :: id in s.sessions ==> LogFits(s.sessions[id], s.logs[id]))
    && s.matched.Keys == s.processed.Keys
    && (forall e, id :: e in s.matched && id in s.matched[e] ==> IsDead(s, id))
  }

  lemma EndingsGrow(log: seq<LogKind>, k: LogKind)
    ensures Endings(log + [k]) == Endings(log) + if IsTerminal(k) then [k] else []
  {
  }

  lemma FirstLog()
    ensures Endings([AuthorizationCodeReceived, UserInfoFetched, LocalSessionCreated]) == []
  {
    EndingsGrow([], AuthorizationCodeReceived);
    EndingsGrow([AuthorizationCodeReceived], UserInfoFetched);
    EndingsGrow([AuthorizationCodeReceived, UserInfoFetched], LocalSessionCreated);
    assert [] + [AuthorizationCodeReceived] == [AuthorizationCodeReceived];
    assert [AuthorizationCodeReceived] + [UserInfoFetched] == [AuthorizationCodeReceived, UserInfoFetched];
    assert [AuthorizationCodeReceived, UserInfoFetched] + [LocalSessionCreated]
        == [AuthorizationCodeReceived, UserInfoFetched, LocalSessionCreated];
  }

  // ---------------------------------------------------------------- one transaction

  /** One transaction never changes a session that has left ACTIVE, never revives one that is over,
      never changes whose session it is or when it expires, and forgets no session or event. */
  ghost predicate SessionEvolves(x: LocalSession, now: nat, y: LocalSession, later: nat) {
    && y.user == x.user && y.central == x.central && y.expiresAt == x.expiresAt
    && (x.status != Active ==> y == x)
    && (Classify(x, now) != Active ==> Classify(y, later) != Active)
  }

  ghost predicate Evolves(s: State, t: State) {
    && s.clock <= t.clock
    && (forall id :: id in s.sessions ==>
          id in t.sessions && SessionEvolves(s.sessions[id], s.clock, t.sessions[id], t.clock))
    && (forall e :: e in s.processed ==> e in t.processed && t.processed[e] == s.processed[e])
    && (forall e :: e in s.matched ==> e in t.matched && t.matched[e] == s.matched[e])
  }

  lemma SameEvolves(s: State)
    ensures Evolves(s, s)
  {
  }

  /** A transaction that writes one session and its log. */
  lemma OneSession(s: State, id: SessionId, y: LocalSession, log: seq<LogKind>)
    requires Inv(s) && SessionFits(y, s.clock) && LogFits(y, log)
    requires id in s.sessions ==> SessionEvolves(s.sessions[id], s.clock, y, s.clock)
    ensures var t := s.(sessions := s.sessions[id := y], logs := s.logs[id := log]);
            Inv(t) && Evolves(s, t)
  {
    var t := s.(sessions := s.sessions[id := y], logs := s.logs[id := log]);
    assert Evolves(s, t);
    forall e, i | e in t.matched && i in t.matched[e] ensures IsDead(t, i) {
      assert IsDead(s, i);
    }
  }

  lemma TickStep(s: State, d: nat)
    requires Inv(s)
    ensures Inv(Apply(s, Tick(d))) && Evolves(s, Apply(s, Tick(d)))
  {
    var t := Apply(s, Tick(d));
    forall e, i | e in t.matched && i in t.matched[e] ensures IsDead(t, i) {
      assert IsDead(s, i);
    }
  }

  /** At most this session and its log differ. */
  ghost predicate OnlySession(s: State, t: State, id: SessionId) {
    && t.clock == s.clock && t.processed == s.processed && t.matched == s.matched
    && t.sessions - {id} == s.sessions - {id} && t.logs - {id} == s.logs - {id}
  }

  /** The state and the answer an inspection leaves, for each kind of row it may find. */
  ghost predicate InspectionOf(s: State, id: SessionId, t: State, r: Resolution) {
    && OnlySession(s, t, id)
    && (r == Invalid <==> id !in s.sessions)
    && (id in s.sessions && id in s.logs ==>
          && id in t.sessions && id in t.logs
          && var x, y := s.sessions[id], t.sessions[id];
             if x.status == Active && x.expiresAt <= s.clock
             then y == x.(status := Expired) && t.logs[id] == s.logs[id] + [LocalSessionExpired] && r == ResolvedExpired
             else && y == x.(lastActivityAt := if x.status == Active then s.clock else x.lastActivityAt)
                  && t.logs == s.logs
                  && r == match x.status
                          case Active => ResolvedActive
                          case Expired => ResolvedExpired
                          case Revoked => ResolvedRevoked)
  }

  lemma InspectionEffect(s: State, id: SessionId)
    requires Inv(s)
    ensures var (t, r) := Resolve(s, id); InspectionOf(s, id, t, r)
  {
    if id in s.sessions {
      assert SessionFits(s.sessions[id], s.clock);
      assert s.logs[id := s.logs[id]] == s.logs;
    }
  }

  lemma InspectionKeepsInv(s: State, id: SessionId)
    requires Inv(s)
    ensures var (t, _) := Resolve(s, id); Inv(t) && Evolves(s, t)
  {
    if id in s.sessions {
      var x, log := s.sessions[id], s.logs[id];
      assert LogFits(x, log) && SessionFits(x, s.clock);
      EndingsGrow(log, LocalSessionExpired);
      if Classify(x, s.clock) == Expired && x.status == Active {
        OneSession(s, id, x.(status := Expired), log + [LocalSessionExpired]);
      } else if Classify(x, s.clock) == Active {
        OneSession(s, id, x.(lastActivityAt := s.clock), log);
        assert s.logs[id := log] == s.logs;
      }
    }
  }

  /** An inspection expires an elapsed session that was still marked active, with one log entry; it
      touches a session that is active and changes nothing else. */
  lemma InspectStep(s: State, id: SessionId)
    requires Inv(s)
    ensures var (t, r) := Resolve(s, id); Inv(t) && Evolves(s, t) && InspectionOf(s, id, t, r)
  {
    InspectionKeepsInv(s, id);
    InspectionEffect(s, id);
  }

  /** A local logout ends exactly a session that is still usable, with one log entry. */
  lemma LogOutStep(s: State, id: SessionId)
    requires Inv(s)
    ensures var (t, done) := Logout(s, id);
            && Inv(t) && Evolves(s, t) && OnlySession(s, t, id)
            && (done <==> id in s.sessions && s.sessions[id].status == Active && s.sessions[id].expiresAt > s.clock)
            && (if !done then t == s
                else && t.logs[id] == s.logs[id] + [LocalLogout]
                     && t.sessions[id] == s.sessions[id].(status := Revoked, revokedAt := Some(s.clock),
                                                          revokeReason := Some("local_logout")))
  {
    if Logout(s, id).1 {
      var x, log := s.sessions[id], s.logs[id];
      assert LogFits(x, log);
      EndingsGrow(log, LocalLogout);
      OneSession(s, id, RevokedAt(x, s.clock, "local_logout"), log + [LocalLogout]);
    }
  }

  /** The session a login adds is of this user and this central session, with three entries in its log,
      and is usable exactly during its lifetime. */
  ghost predicate LoggedIn(t: State, id: SessionId, u: UserId, c: CentralId, from: nat, ttl: nat) {
    && id in t.sessions && id in t.logs
    && t.sessions[id].user == u && t.sessions[id].central == c && t.sessions[id].lastActivityAt == from
    && t.logs[id] == [AuthorizationCodeReceived, UserInfoFetched, LocalSessionCreated]
    && forall later: nat :: Classify(t.sessions[id], later) == Active <==> later < from + ttl * 1000
  }

  lemma LogInEffect(s: State, id: SessionId, u: UserId, c: CentralId, ttl: nat)
    ensures var t := Issue(s, id, u, c, ttl);
            OnlySession(s, t, id) && (id !in s.sessions ==> LoggedIn(t, id, u, c, s.clock, ttl))
  {
  }

  lemma LogInKeepsInv(s: State, id: SessionId, u: UserId, c: CentralId, ttl: nat)
    requires Inv(s)
    ensures Inv(Issue(s, id, u, c, ttl)) && Evolves(s, Issue(s, id, u, c, ttl))
  {
    FirstLog();
    if id !in s.sessions {
      OneSession(s, id, LocalSession(u, c, Active, s.clock + ttl * 1000, s.clock, None, None),
                 [AuthorizationCodeReceived, UserInfoFetched, LocalSessionCreated]);
    }
  }

  /** A login adds one session, and leaves an existing one as it is. */
  lemma LogInStep(s: State, id: SessionId, u: UserId, c: CentralId, ttl: nat)
    requires Inv(s)
    ensures var t := Issue(s, id, u, c, ttl);
            && Inv(t) && Evolves(s, t) && OnlySession(s, t, id)
            && (id !in s.sessions ==> LoggedIn(t, id, u, c, s.clock, ttl))
  {
    LogInKeepsInv(s, id, u, c, ttl);
    LogInEffect(s, id, u, c, ttl);
  }

  // ---------------------------------------------------------------- what a notice ends

  /** A session that is usable and that the notice means: of its user, and of its central session if it is
      the revocation of one. */
  predicate IsMeant(e: Notice, x: LocalSession, now: nat) {
    && x.status == Active && x.revokedAt.None? && x.expiresAt > now && x.user == e.userId
    && (e.eventType == SessionRevoked && e.centralSessionId.Some? ==> x.central == e.centralSessionId.value)
  }

  /** The first delivery of an event revokes exactly the usable sessions it means, for the reason of its
      type and with one log entry each, and changes no other session. */
  lemma NoticeEndsExactly(s: State, e: Notice, id: SessionId)
    requires e.eventId !in s.processed && id in s.sessions && id in s.logs
    ensures var t := Deliver(s, e).0;
            var x := s.sessions[id];
            && t.sessions.Keys == s.sessions.Keys && id in t.logs
            && (t.sessions[id] != x <==> IsMeant(e, x, s.clock))
            && (IsMeant(e, x, s.clock) ==>
                  && t.sessions[id].status == Revoked && t.sessions[id].revokedAt == Some(s.clock)
                  && t.sessions[id] == x.(status := Revoked, revokedAt := Some(s.clock),
                                          revokeReason := t.sessions[id].revokeReason)
                  && t.sessions[id].revokeReason == (match e.eventType
                                                     case SessionRevoked => Some(e.reason)
                                                     case PasswordChanged => Some("password_changed")
                                                     case AccessPolicyChanged => Some("access_policy_changed")))
            && t.logs[id] == s.logs[id] + if IsMeant(e, x, s.clock) then [BackChannel(e.eventType, e.eventId)] else []
  {
  }

  /** It answers "processed" exactly then; later deliveries are replays, or conflicts exactly if the type
      or the recorded payload hash differs. A row without a hash conflicts by its type only. */
  lemma AnswerExactly(s: State, e: Notice)
    ensures var answer := Deliver(s, e).1;
            && (answer == ProcessedNow <==> e.eventId !in s.processed)
            && (answer == Conflict <==>
                  e.eventId in s.processed
                  && (s.processed[e.eventId].eventType != e.eventType
                      || s.processed[e.eventId].payloadHash !in {None, Some(e.digest)}))
  {
  }

  /** The recorded row carries type and hash, and the number of sessions the event ended. */
  lemma NoticeIsRecorded(s: State, e: Notice)
    requires e.eventId !in s.processed
    ensures var ended := set id | id in s.sessions && IsMeant(e, s.sessions[id], s.clock);
            Deliver(s, e).0.processed
              == s.processed[e.eventId := Processed(e.eventType, Some(e.digest), s.clock, |ended|)]
  {
    var ended := set id | id in s.sessions && IsMeant(e, s.sessions[id], s.clock);
    assert ended == RevokedBy(s, CreatePlan(e));
  }

  lemma ProcessEvolves(s: State, e: Notice)
    requires Inv(s) && e.eventId !in s.processed
    ensures Evolves(s, ProcessFirst(s, e))
  {
    var t := ProcessFirst(s, e);
    forall id | id in s.sessions
      ensures id in t.sessions && SessionEvolves(s.sessions[id], s.clock, t.sessions[id], t.clock)
    {
      assert SessionFits(s.sessions[id], s.clock);
    }
  }

  lemma ProcessFits(s: State, e: Notice, id: SessionId)
    requires Inv(s) && id in s.sessions
    ensures var t := ProcessFirst(s, e);
            SessionFits(t.sessions[id], t.clock) && LogFits(t.sessions[id], t.logs[id])
  {
    assert SessionFits(s.sessions[id], s.clock) && LogFits(s.sessions[id], s.logs[id]);
    EndingsGrow(s.logs[id], BackChannel(e.eventType, e.eventId));
  }

  /** Every session the plan matches is over once the event is processed. */
  lemma ProcessKillsMatched(s: State, e: Notice, id: SessionId)
    requires Inv(s) && id in s.sessions && Matches(CreatePlan(e), s.sessions[id])
    ensures IsDead(ProcessFirst(s, e), id)
  {
  }

  lemma ProcessSparesDead(s: State, e: Notice, id: SessionId)
    requires id in s.sessions && (IsDead(s, id) || !Matches(CreatePlan(e), s.sessions[id]))
    ensures ProcessFirst(s, e).sessions[id] == s.sessions[id]
  {
  }

  /** The first processing of an event changes no session that was over, and none that its plan does not
      match. */
  lemma ProcessKeepsInv(s: State, e: Notice)
    requires Inv(s) && e.eventId !in s.processed
    ensures Inv(ProcessFirst(s, e)) && Evolves(s, ProcessFirst(s, e))
    ensures forall id :: id in s.sessions && (IsDead(s, id) || !Matches(CreatePlan(e), s.sessions[id])) ==>
              ProcessFirst(s, e).sessions[id] == s.sessions[id]
  {
    var t := ProcessFirst(s, e);
    ProcessEvolves(s, e);
    forall id | id in s.sessions && (IsDead(s, id) || !Matches(CreatePlan(e), s.sessions[id]))
      ensures t.sessions[id] == s.sessions[id]
    {
      ProcessSparesDead(s, e, id);
    }
    forall id | id in t.sessions ensures SessionFits(t.sessions[id], t.clock) && LogFits(t.sessions[id], t.logs[id]) {
      ProcessFits(s, e, id);
    }
    forall ev, id | ev in t.matched && id in t.matched[ev] ensures IsDead(t, id) {
      if ev == e.eventId {
        ProcessKillsMatched(s, e, id);
      } else {
        assert IsDead(s, id);
      }
    }
  }

  lemma ApplyStep(s: State, op: Op)
    requires Inv(s)
    ensures Inv(Apply(s, op)) && Evolves(s, Apply(s, op))
  {
    match op
    case Tick(d) => TickStep(s, d);
    case LogIn(id, u, c, ttl) => LogInStep(s, id, u, c, ttl);
    case Inspect(id) => InspectStep(s, id);
    case LogOut(id) => LogOutStep(s, id);
    case Receive(e) =>
      if e.eventId !in s.processed {
        ProcessKeepsInv(s, e);
      }
  }

  // ---------------------------------------------------------------- every run

  lemma {:induction false} RunEvolves(s: State, ops: seq<Op>)
    requires Inv(s)
    ensures Inv(Run(s, ops)) && Evolves(s, Run(s, ops))
    decreases ops
  {
    if ops != [] {
      var m := Apply(s, ops[0]);
      ApplyStep(s, ops[0]);
      RunEvolves(m, ops[1..]);
      EvolvesTransitive(s, m, Run(s, ops));
    }
  }

  lemma EvolvesTransitive(a: State, b: State, c: State)
    requires Evolves(a, b) && Evolves(b, c)
    ensures Evolves(a, c)
  {
  }

  /** A session leaves ACTIVE at most once, over any run. */
  lemma LeavesActiveOnce(s: State, ops: seq<Op>, id: SessionId)
    requires Inv(s) && id in s.sessions && s.sessions[id].status != Active
    ensures id in Run(s, ops).sessions && Run(s, ops).sessions[id] == s.sessions[id]
  {
    RunEvolves(s, ops);
  }

  lemma DeadIsRefused(s: State, id: SessionId)
    requires IsDead(s, id)
    ensures Resolve(s, id).1 == ResolvedExpired || Resolve(s, id).1 == ResolvedRevoked
    ensures !Logout(s, id).1
  {
  }

  /** Once an event is processed, no session that its plan matched at that moment is ever usable
      again, whatever else happens. */
  lemma MatchedStayDead(s: State, e: Notice, ops: seq<Op>, id: SessionId)
    requires Inv(s) && e.eventId !in s.processed
    requires id in s.sessions && Matches(CreatePlan(e), s.sessions[id])
    ensures var t := Run(Deliver(s, e).0, ops);
            && IsDead(t, id)
            && (Resolve(t, id).1 == ResolvedExpired || Resolve(t, id).1 == ResolvedRevoked)
            && !Logout(t, id).1
  {
    var m := ProcessFirst(s, e);
    ProcessKeepsInv(s, e);
    ProcessKillsMatched(s, e, id);
    RunEvolves(m, ops);
    assert SessionEvolves(m.sessions[id], m.clock, Run(m, ops).sessions[id], Run(m, ops).clock);
    DeadIsRefused(Run(m, ops), id);
  }

  // ---------------------------------------------------------------- earlier and later sessions

  /** Two notices that end the same sessions. */
  predicate SameScope(a: Notice, b: Notice) {
    a.eventType == b.eventType && a.userId == b.userId && a.centralSessionId == b.centralSessionId
  }

  /** The plan of the event matches this session, which is over if the event was processed. */
  ghost predicate EndsWith(s: State, e: Notice, id: SessionId) {
    && id in s.sessions && Matches(CreatePlan(e), s.sessions[id])
    && (e.eventId in s.processed && SamePayload(s.processed[e.eventId], e) ==> IsDead(s, id))
  }

  /** So a session that existed before the event was processed is over once it is. */
  lemma EarlierSessionStep(s: State, op: Op, e: Notice, id: SessionId)
    requires Inv(s) && EndsWith(s, e, id)
    requires op.Receive? && op.notice.eventId == e.eventId && op.notice.digest == e.digest ==> SameScope(op.notice, e)
    ensures EndsWith(Apply(s, op), e, id)
  {
    var t := Apply(s, op);
    ApplyStep(s, op);
    assert SessionEvolves(s.sessions[id], s.clock, t.sessions[id], t.clock);
    if e.eventId !in s.processed && e.eventId in t.processed {
      ApplyProcessed(s, op);
      if SamePayload(t.processed[e.eventId], e) {
        ProcessKillsMatched(s, op.notice, id);
      }
    }
  }

  /** Neither a logout nor another event ends this session. */
  predicate SparedBy(op: Op, e: Notice, id: SessionId, x: LocalSession) {
    && !(op.LogOut? && op.id == id)
    && (op.Receive? && op.notice.eventId != e.eventId ==> !Matches(CreatePlan(op.notice), x))
  }

  predicate IsUntouched(x: LocalSession, now: nat) {
    x.revokedAt.None? && x.status != Revoked && (x.status == Expired ==> x.expiresAt <= now)
  }

  lemma SparedStep(s: State, op: Op, e: Notice, id: SessionId, y: LocalSession)
    requires e.eventId in s.processed && SparedBy(op, e, id, y)
    requires id in s.sessions ==> IsUntouched(s.sessions[id], s.clock)
                                  && s.sessions[id].user == y.user && s.sessions[id].central == y.central
    ensures var t := Apply(s, op);
            && e.eventId in t.processed
            && (id in t.sessions ==> IsUntouched(t.sessions[id], t.clock))
  {
  }

  lemma {:induction false} SparedRun(s: State, ops: seq<Op>, e: Notice, id: SessionId)
    requires Inv(s) && e.eventId in s.processed && id in Run(s, ops).sessions
    requires forall i :: 0 <= i < |ops| ==> SparedBy(ops[i], e, id, Run(s, ops).sessions[id])
    requires id in s.sessions ==> IsUntouched(s.sessions[id], s.clock)
    ensures IsUntouched(Run(s, ops).sessions[id], Run(s, ops).clock)
    decreases ops
  {
    if ops != [] {
      var m := Apply(s, ops[0]);
      var y := Run(s, ops).sessions[id];
      ApplyStep(s, ops[0]);
      RunEvolves(s, ops);
      assert SparedBy(ops[0], e, id, y);
      SparedStep(s, ops[0], e, id, y);
      assert forall i :: 0 <= i < |ops[1..]| ==> ops[1..][i] == ops[i + 1];
      SparedRun(m, ops[1..], e, id);
    }
  }

  /** A session that the plan of a processed event matches, and that nothing else ends, is usable during
      its lifetime if and only if it was inserted after the processing: a callback under way then brings
      it about. */
  lemma UsableExactlyIfLater(s: State, e: Notice, ops: seq<Op>, id: SessionId)
    requires Inv(s) && e.eventId !in s.processed
    requires var t := Run(Deliver(s, e).0, ops);
             && id in t.sessions && Matches(CreatePlan(e), t.sessions[id]) && t.clock < t.sessions[id].expiresAt
             && forall i :: 0 <= i < |ops| ==> SparedBy(ops[i], e, id, t.sessions[id])
    ensures var t := Run(Deliver(s, e).0, ops);
            Resolve(t, id).1 == ResolvedActive <==> id !in s.sessions
  {
    var m := ProcessFirst(s, e);
    ProcessKeepsInv(s, e);
    if id in s.sessions {
      RunEvolves(m, ops);
      assert SessionEvolves(s.sessions[id], s.clock, m.sessions[id], m.clock);
      MatchedStayDead(s, e, ops, id);
    } else {
      SparedRun(m, ops, e, id);
    }
  }

  /** Such a run: the event arrives, the callback inserts its session, and the event arrives again. */
  lemma LateSessionSurvives(s: State, e: Notice, id: SessionId, c: CentralId, ttl: nat)
    requires Inv(s) && e.eventId !in s.processed && id !in s.sessions && ttl > 0
    requires e.centralSessionId.Some? ==> c == e.centralSessionId.value
    ensures var t := Run(s, [Receive(e), LogIn(id, e.userId, c, ttl), Receive(e)]);
            && id in t.sessions && Matches(CreatePlan(e), t.sessions[id]) && e.eventId in t.processed
            && Resolve(t, id).1 == ResolvedActive
  {
    var m := Apply(s, Receive(e));
    var n := Apply(m, LogIn(id, e.userId, c, ttl));
    assert Run(n, [Receive(e)]) == Run(Apply(n, Receive(e)), []) == n;
    assert Run(m, [LogIn(id, e.userId, c, ttl), Receive(e)]) == Run(n, [Receive(e)]);
    assert Run(s, [Receive(e), LogIn(id, e.userId, c, ttl), Receive(e)])
        == Run(m, [LogIn(id, e.userId, c, ttl), Receive(e)]);
  }

  // ---------------------------------------------------------------- counting endings

  function EndedSessions(s: State): set<SessionId> {
    set id | id in s.sessions && s.sessions[id].status != Active
  }

  /** How many log entries of the sessions in `ids` record an ending. */
  ghost function EndingCount(s: State, ids: set<SessionId>): nat
    requires ids <= s.logs.Keys
  {
    if ids == {} then 0
    else
      var id :| id in ids;
      |Endings(s.logs[id])| + EndingCount(s, ids - {id})
  }

  lemma SplitIntersection(a: set<SessionId>, b: set<SessionId>, x: SessionId)
    requires x in a
    ensures |a * b| == |(a - {x}) * b| + if x in b then 1 else 0
  {
    if x in b {
      assert a * b == (a - {x}) * b + {x};
    } else {
      assert a * b == (a - {x}) * b;
    }
  }

  lemma {:induction false} EndingsCountEnded(s: State, ids: set<SessionId>)
    requires Inv(s) && ids <= s.logs.Keys
    ensures EndingCount(s, ids) == |ids * EndedSessions(s)|
  {
    if ids != {} {
      var id :| id in ids && EndingCount(s, ids) == |Endings(s.logs[id])| + EndingCount(s, ids - {id});
      EndingsCountEnded(s, ids - {id});
      assert LogFits(s.sessions[id], s.logs[id]);
      SplitIntersection(ids, EndedSessions(s), id);
    }
  }

  /** Over any mix of operations the log entries that record an ending number exactly the sessions
      whose status is not ACTIVE. */
  lemma EndingsNumberEndedSessions(ops: seq<Op>)
    ensures var t := Run(EMPTY, ops);
            t.logs.Keys == t.sessions.Keys && EndingCount(t, t.logs.Keys) == |EndedSessions(t)|
  {
    RunEvolves(EMPTY, ops);
    var t := Run(EMPTY, ops);
    EndingsCountEnded(t, t.logs.Keys);
    assert t.logs.Keys * EndedSessions(t) == EndedSessions(t);
  }

  // ---------------------------------------------------------------- replay erasure

  /** Drops every delivery of an event that `seen` or an earlier operation already delivered. */
  function Erase(ops: seq<Op>, seen: set<EventId>): seq<Op> {
    if ops == [] then []
    else if !ops[0].Receive? then [ops[0]] + Erase(ops[1..], seen)
    else if ops[0].notice.eventId in seen then Erase(ops[1..], seen)
    else [ops[0]] + Erase(ops[1..], seen + {ops[0].notice.eventId})
  }

  lemma ApplyProcessed(s: State, op: Op)
    ensures Apply(s, op).processed.Keys == s.processed.Keys + if op.Receive? then {op.notice.eventId} else {}
  {
  }

  /** Deleting all repeated deliveries, wherever they stand and whatever payload they carry, leaves
      the same sessions, logs and processed events. */
  lemma {:induction false} ReplaysErased(s: State, ops: seq<Op>)
    ensures Run(s, ops) == Run(s, Erase(ops, s.processed.Keys))
    decreases ops
  {
    if ops != [] {
      var seen := s.processed.Keys;
      var m := Apply(s, ops[0]);
      ApplyProcessed(s, ops[0]);
      ReplaysErased(m, ops[1..]);
      if ops[0].Receive? && ops[0].notice.eventId in seen {
        assert m == s;
      } else {
        assert Erase(ops, seen) == [ops[0]] + Erase(ops[1..], m.processed.Keys);
        assert ([ops[0]] + Erase(ops[1..], m.processed.Keys))[1..] == Erase(ops[1..], m.processed.Keys);
      }
    }
  }

  ghost predicate DeliversNoneOf(ops: seq<Op>, seen: set<EventId>) {
    forall i :: 0 <= i < |ops| && ops[i].Receive? ==> ops[i].notice.eventId !in seen
  }

  ghost predicate DeliversOnce(ops: seq<Op>) {
    forall i, j :: 0 <= i < j < |ops| && ops[i].Receive? && ops[j].Receive? ==>
      ops[i].notice.eventId != ops[j].notice.eventId
  }

  lemma OnceMore(op: Op, tail: seq<Op>)
    requires DeliversOnce(tail) && (op.Receive? ==> DeliversNoneOf(tail, {op.notice.eventId}))
    ensures DeliversOnce([op] + tail)
  {
  }

  /** What Erase leaves delivers no event twice, and none that was delivered before. */
  lemma {:induction false} ErasedDeliversOnce(ops: seq<Op>, seen: set<EventId>)
    ensures DeliversNoneOf(Erase(ops, seen), seen) && DeliversOnce(Erase(ops, seen))
  {
    if ops != [] {
      var op, rest := ops[0], ops[1..];
      if op.Receive? && op.notice.eventId in seen {
        ErasedDeliversOnce(rest, seen);
      } else {
        var next := if op.Receive? then seen + {op.notice.eventId} else seen;
        ErasedDeliversOnce(rest, next);
        OnceMore(op, Erase(rest, next));
      }
    }
  }

  /** A delivery reports a conflict exactly when the identifier was used for another payload, and then
      changes nothing; of two deliveries in a row the second never changes anything. */
  lemma SecondDelivery(s: State, a: Notice, b: Notice)
    requires a.eventId == b.eventId
    ensures var (t, first) := Deliver(s, a);
            && Deliver(t, b).0 == t
            && (first == ProcessedNow ==>
                  (Deliver(t, b).1 == Replayed <==> a.eventType == b.eventType && a.digest == b.digest)
                  && (Deliver(t, b).1 == Conflict <==> !(a.eventType == b.eventType && a.digest == b.digest)))
            && Deliver(t, a).1 == (if first == Conflict then Conflict else Replayed)
  {
  }
}
