/** The Auth Provider and the revocation pipeline as one system: a transaction that announces revocations
    commits their outbox rows, or does not happen. From a central logout or deactivation to the end of
    the local sessions. */
module EndToEnd {
  import opened Vocabulary
  import A = AccessState
  import AS = AccessSafety
  import AT = AccessTheorems
  import AE = AccessEffects
  import P = Pipeline
  import PS = PipelineSafety
  import PT = PipelineTheorems
  import DI = DeliveryInvariant
  import DR = DeliveryRows
  import N = Naming
  import L = LocalSessions
  import M = MessageSize
  import I = EventIdentity
  import opened Json
  import opened EventContract

  datatype Config = Config(access: A.Config, pipe: P.Settings)

  datatype State = State(access: A.State, pipe: P.State)

  const INITIAL := State(A.INITIAL, P.INITIAL)

  /** What a transaction announces, with the row that enqueueMany writes for it. */
  datatype Enqueued = Enqueued(announced: A.OutboxEvent, event: P.Event)

  datatype Step = Central(op: A.Op, batch: seq<Enqueued>) | Outside(step: P.Step)

  // ---------------------------------------------------------------- outbox-event.service.ts

  function ReasonText(r: A.Reason): string {
    match r
    case SsoLogout => "sso_logout"
    case UserDeactivated => "user_deactivated"
    case PasswordReset => "password_changed"
    case AccessLost => "access_policy_changed"
  }

  /** The row announces this revocation. */
  predicate Announces(e: P.Event, x: A.OutboxEvent) {
    var n := e.notice;
    match x
    case SessionEnded(c, u, r) =>
      && n.eventType == SessionRevoked && n.userId == u && n.centralSessionId == Some(c) && n.reason == ReasonText(r)
      && e.app.None?
    case PasswordChange(u) =>
      && n.eventType == PasswordChanged && n.userId == u && n.centralSessionId.None? && n.reason == "password_changed"
      && e.app.None?
    case AccessChange(u, a) =>
      && n.eventType == AccessPolicyChanged && n.userId == u && n.centralSessionId.None?
      && n.reason == "access_policy_changed" && e.app == Some(a)
  }

  /** A producer wrote the row, its identifier is new, and its target is registered. */
  ghost predicate CanCommit(cfg: P.Settings, p: P.State, e: P.Event) {
    e.notice.eventId !in p.events && (e.app.Some? ==> e.app.value in p.apps) && PS.IsGenuine(cfg, e)
  }

  function Announced(batch: seq<Enqueued>): seq<A.OutboxEvent> {
    seq(|batch|, i requires 0 <= i < |batch| => batch[i].announced)
  }

  function Commits(batch: seq<Enqueued>): seq<P.Step> {
    seq(|batch|, i requires 0 <= i < |batch| => P.Commit(batch[i].event))
  }

  ghost predicate AllCommit(cfg: P.Settings, p: P.State, batch: seq<Enqueued>) {
    && (forall i :: 0 <= i < |batch| ==> CanCommit(cfg, p, batch[i].event))
    && (forall i, j :: 0 <= i < j < |batch| ==> batch[i].event.notice.eventId != batch[j].event.notice.eventId)
  }

  /** One row for each revocation that the transaction announces. */
  ghost predicate IsBatch(cfg: Config, s: State, t: A.State, batch: seq<Enqueued>) {
    && t.outbox == s.access.outbox + multiset(Announced(batch))
    && AllCommit(cfg.pipe, s.pipe, batch)
    && AllAnnounce(batch)
  }

  predicate AllAnnounce(batch: seq<Enqueued>) {
    forall i :: 0 <= i < |batch| ==> Announces(batch[i].event, batch[i].announced)
  }

  ghost function Apply(cfg: Config, s: State, step: Step): State {
    match step
    case Central(op, batch) =>
      var t := A.Apply(cfg.access, s.access, op);
      if IsBatch(cfg, s, t, batch) then State(t, P.Run(cfg.pipe, s.pipe, Commits(batch))) else s
    case Outside(step) => if step.Commit? then s else s.(pipe := P.Apply(cfg.pipe, s.pipe, step))
  }

  ghost function Run(cfg: Config, s: State, steps: seq<Step>): State
    decreases steps
  {
    if steps == [] then s else Run(cfg, Apply(cfg, s, steps[0]), steps[1..])
  }

  // ---------------------------------------------------------------- a logout and its row

  /** What the transaction hands to enqueueMany. */
  function ProducerOf(names: N.Names, x: A.OutboxEvent): I.Producer {
    match x
    case SessionEnded(c, u, r) =>
      if r == A.SsoLogout then I.Logout(names.user(u), names.session(c))
      else I.Deactivation(names.user(u), names.session(c))
    case PasswordChange(u) => I.PasswordReset(names.user(u))
    case AccessChange(u, a) => I.AccessLoss(names.user(u), names.app(a))
  }

  /** What an application reads of the announcement, but for its digest. */
  function NoticeOf(x: A.OutboxEvent, e: P.EventId, digest: nat): L.Notice {
    match x
    case SessionEnded(c, u, r) => L.Notice(e, SessionRevoked, u, Some(c), ReasonText(r), digest)
    case PasswordChange(u) => L.Notice(e, PasswordChanged, u, None, "password_changed", digest)
    case AccessChange(u, _) => L.Notice(e, AccessPolicyChanged, u, None, "access_policy_changed", digest)
  }

  /** The row that is written for an announcement at this time, under this identifier. */
  function RowFor(names: N.Names, x: A.OutboxEvent, e: P.EventId, at: Text): P.Event {
    var v := I.Enqueued(ProducerOf(names, x), names.event(e), at);
    P.Event(NoticeOf(x, e, names.digest(Fingerprint(v))), if x.AccessChange? then Some(x.app) else None,
            M.Enqueuing(ProducerOf(names, x), names.event(e), at, EventToJson(v)))
  }

  predicate HasNormalNames(names: N.Names, x: A.OutboxEvent) {
    && IsNormalUuid(names.user(x.user))
    && (x.SessionEnded? ==> IsNormalUuid(names.session(x.session)))
       && (x.AccessChange? ==> IsNormalUuid(names.app(x.app)))
  }

  /** It names the user, the session and the application of the announcement, with its type and reason, and
      is one that the worker accepts. */
  lemma RowIsGenuine(cfg: P.Settings, x: A.OutboxEvent, e: P.EventId, at: Text)
    requires HasNormalNames(cfg.names, x) && IsNormalUuid(cfg.names.event(e))
    requires cfg.iso(at) == Some(at) && |at| <= M.ISO_LENGTH
    requires x.SessionEnded? ==> x.reason == A.SsoLogout || x.reason == A.UserDeactivated
    ensures PS.IsGenuine(cfg, RowFor(cfg.names, x, e, at)) && Announces(RowFor(cfg.names, x, e, at), x)
  {
    var v := I.Enqueued(ProducerOf(cfg.names, x), cfg.names.event(e), at);
    PT.ProducedMetadata(M.Enqueuing(ProducerOf(cfg.names, x), cfg.names.event(e), at, EventToJson(v)));
    I.EventJsonWellFormed(v);
  }

  lemma LogoutAnnounces(s: A.State, c: A.SessionId)
    requires c in s.sessions && s.sessions[c].status == A.Active && s.sessions[c].revokedAt.None?
    ensures var t := A.Logout(s, c);
            && t.outbox == s.outbox + multiset{A.SessionEnded(c, s.sessions[c].user, A.SsoLogout)}
            && c in t.sessions && AS.IsAnnounced(t.sessions[c])
  {
  }

  lemma OneRowIsBatch(cfg: Config, s: State, t: A.State, x: A.OutboxEvent, row: P.Event)
    requires t.outbox == s.access.outbox + multiset{x} && Announces(row, x) && CanCommit(cfg.pipe, s.pipe, row)
    ensures IsBatch(cfg, s, t, [Enqueued(x, row)])
    ensures P.Run(cfg.pipe, s.pipe, Commits([Enqueued(x, row)])) == P.Apply(cfg.pipe, s.pipe, P.Commit(row))
  {
    assert Announced([Enqueued(x, row)]) == [x];
    FirstCommit(cfg.pipe, s.pipe, [Enqueued(x, row)]);
  }

  lemma BatchApplies(cfg: Config, s: State, op: A.Op, t: A.State, batch: seq<Enqueued>)
    requires t == A.Apply(cfg.access, s.access, op) && IsBatch(cfg, s, t, batch)
    ensures Apply(cfg, s, Central(op, batch)) == State(t, P.Run(cfg.pipe, s.pipe, Commits(batch)))
  {
  }

  lemma OneRowApplies(cfg: Config, s: State, op: A.Op, t: A.State, x: A.OutboxEvent, row: P.Event)
    requires t == A.Apply(cfg.access, s.access, op) && t.outbox == s.access.outbox + multiset{x}
    requires Announces(row, x) && CanCommit(cfg.pipe, s.pipe, row)
    ensures var r := Apply(cfg, s, Central(op, [Enqueued(x, row)]));
            r.access == t && r.pipe.events == s.pipe.events[row.notice.eventId := row]
  {
    OneRowIsBatch(cfg, s, t, x, row);
    BatchApplies(cfg, s, op, t, [Enqueued(x, row)]);
    CommitAdds(cfg.pipe, s.pipe, row);
  }

  /** A logout of a session that is active commits with a row that announces it, so the two halves do move
      together. */
  lemma LogoutCommitsRow(cfg: Config, s: State, c: A.SessionId, row: P.Event)
    requires c in s.access.sessions && s.access.sessions[c].status == A.Active && s.access.sessions[c].revokedAt.None?
    requires CanCommit(cfg.pipe, s.pipe, row)
    requires Announces(row, A.SessionEnded(c, s.access.sessions[c].user, A.SsoLogout))
    ensures var x := A.SessionEnded(c, s.access.sessions[c].user, A.SsoLogout);
            var t := Apply(cfg, s, Central(A.LogOut(c), [Enqueued(x, row)]));
            && t.access == A.Logout(s.access, c) && c in t.access.sessions && AS.IsAnnounced(t.access.sessions[c])
            && t.pipe.events == s.pipe.events[row.notice.eventId := row]
  {
    var x := A.SessionEnded(c, s.access.sessions[c].user, A.SsoLogout);
    LogoutAnnounces(s.access, c);
    OneRowApplies(cfg, s, A.LogOut(c), A.Logout(s.access, c), x, row);
  }

  /** A password change commits with a row that announces it. */
  lemma PasswordChangeCommitsRow(cfg: Config, s: State, u: L.UserId, row: P.Event)
    requires u in s.access.users && CanCommit(cfg.pipe, s.pipe, row) && Announces(row, A.PasswordChange(u))
    ensures var t := Apply(cfg, s, Central(A.SetPassword(u), [Enqueued(A.PasswordChange(u), row)]));
            && t.access == A.UpdatePassword(s.access, u)
            && t.access.outbox == s.access.outbox + multiset{A.PasswordChange(u)}
            && t.pipe.events == s.pipe.events[row.notice.eventId := row]
  {
    AE.PasswordChangeAnnounces(s.access, u);
    OneRowApplies(cfg, s, A.SetPassword(u), A.UpdatePassword(s.access, u), A.PasswordChange(u), row);
  }

  // ---------------------------------------------------------------- both halves run by themselves

  ghost function AccessOps(cfg: Config, s: State, steps: seq<Step>): seq<A.Op>
    decreases steps
  {
    if steps == [] then []
    else
      var t := Apply(cfg, s, steps[0]);
      (if steps[0].Central? && IsBatch(cfg, s, A.Apply(cfg.access, s.access, steps[0].op), steps[0].batch)
       then [steps[0].op] else [])
      + AccessOps(cfg, t, steps[1..])
  }

  ghost function PipeSteps(cfg: Config, s: State, steps: seq<Step>): seq<P.Step>
    decreases steps
  {
    if steps == [] then []
    else StepsOf(cfg, s, steps[0]) + PipeSteps(cfg, Apply(cfg, s, steps[0]), steps[1..])
  }

  ghost function StepsOf(cfg: Config, s: State, step: Step): seq<P.Step> {
    match step
    case Central(op, batch) =>
      if IsBatch(cfg, s, A.Apply(cfg.access, s.access, op), batch) then Commits(batch) else []
    case Outside(step) => if step.Commit? then [] else [step]
  }

  lemma PipeStep(cfg: Config, s: State, step: Step)
    ensures Apply(cfg, s, step).pipe == P.Run(cfg.pipe, s.pipe, StepsOf(cfg, s, step))
  {
    if step.Outside? && !step.step.Commit? {
      assert P.Run(cfg.pipe, s.pipe, [step.step]) == P.Run(cfg.pipe, P.Apply(cfg.pipe, s.pipe, step.step), []);
    }
  }

  lemma {:induction false} PipeRuns(cfg: Config, s: State, steps: seq<Step>)
    ensures Run(cfg, s, steps).pipe == P.Run(cfg.pipe, s.pipe, PipeSteps(cfg, s, steps))
    decreases steps
  {
    if steps != [] {
      var t := Apply(cfg, s, steps[0]);
      PipeStep(cfg, s, steps[0]);
      PipeRuns(cfg, t, steps[1..]);
      PT.RunAppends(cfg.pipe, s.pipe, StepsOf(cfg, s, steps[0]), PipeSteps(cfg, t, steps[1..]));
    }
  }

  lemma {:induction false} AccessRuns(cfg: Config, s: State, steps: seq<Step>)
    ensures Run(cfg, s, steps).access == A.Run(cfg.access, s.access, AccessOps(cfg, s, steps))
    decreases steps
  {
    if steps != [] {
      var t := Apply(cfg, s, steps[0]);
      AccessRuns(cfg, t, steps[1..]);
      var rest := AccessOps(cfg, t, steps[1..]);
      if t.access != s.access || AccessOps(cfg, s, steps) != rest {
        assert AccessOps(cfg, s, steps) == [steps[0].op] + rest;
        assert ([steps[0].op] + rest)[1..] == rest;
      }
    }
  }

  // ---------------------------------------------------------------- every announcement has its row

  ghost predicate IsCarried(events: map<P.EventId, P.Event>, x: A.OutboxEvent) {
    exists e :: e in events && Announces(events[e], x)
  }

  ghost predicate IsCaused(outbox: multiset<A.OutboxEvent>, e: P.Event) {
    exists x :: x in outbox && Announces(e, x)
  }

  /** The rows of the outbox announce exactly the revocations that transactions announced. */
  ghost predicate Carried(events: map<P.EventId, P.Event>, outbox: multiset<A.OutboxEvent>) {
    AllCarried(events, outbox) && AllCaused(events, outbox)
  }

  ghost predicate AllCarried(events: map<P.EventId, P.Event>, outbox: multiset<A.OutboxEvent>) {
    forall x :: x in outbox ==> IsCarried(events, x)
  }

  ghost predicate AllCaused(events: map<P.EventId, P.Event>, outbox: multiset<A.OutboxEvent>) {
    forall e :: e in events ==> IsCaused(outbox, events[e])
  }

  /** The rows of a batch joined the outbox, and no others. */
  ghost predicate Added(x: map<P.EventId, P.Event>, y: map<P.EventId, P.Event>, batch: seq<Enqueued>) {
    && PS.EventsGrow(x, y)
    && (forall i :: 0 <= i < |batch| ==>
          batch[i].event.notice.eventId in y && y[batch[i].event.notice.eventId] == batch[i].event)
    && (forall e :: e in y && e !in x ==> exists i :: 0 <= i < |batch| && y[e] == batch[i].event)
  }

  lemma AddedFirst(x: map<P.EventId, P.Event>, y: map<P.EventId, P.Event>, batch: seq<Enqueued>)
    requires batch != [] && batch[0].event.notice.eventId !in x
    requires Added(x[batch[0].event.notice.eventId := batch[0].event], y, batch[1..])
    ensures Added(x, y, batch)
  {
    var m := x[batch[0].event.notice.eventId := batch[0].event];
    forall i | 0 <= i < |batch|
      ensures batch[i].event.notice.eventId in y && y[batch[i].event.notice.eventId] == batch[i].event
    {
      assert i > 0 ==> batch[i] == batch[1..][i - 1];
    }
    forall e | e in y && e !in x ensures exists i :: 0 <= i < |batch| && y[e] == batch[i].event {
      if e !in m {
        var i :| 0 <= i < |batch[1..]| && y[e] == batch[1..][i].event;
        assert y[e] == batch[i + 1].event;
      } else {
        assert y[e] == batch[0].event;
      }
    }
  }

  lemma RestCommits(cfg: P.Settings, p: P.State, m: P.State, batch: seq<Enqueued>)
    requires batch != [] && AllCommit(cfg, p, batch) && m.apps == p.apps
    requires m.events == p.events[batch[0].event.notice.eventId := batch[0].event]
    ensures AllCommit(cfg, m, batch[1..])
  {
    assert forall i :: 0 <= i < |batch[1..]| ==> batch[1..][i] == batch[i + 1];
    forall i | 0 <= i < |batch[1..]| ensures CanCommit(cfg, m, batch[1..][i].event) {
      assert CanCommit(cfg, p, batch[i + 1].event);
    }
  }

  lemma FirstCommit(cfg: P.Settings, p: P.State, batch: seq<Enqueued>)
    requires batch != []
    ensures P.Run(cfg, p, Commits(batch))
         == P.Run(cfg, P.Apply(cfg, p, P.Commit(batch[0].event)), Commits(batch[1..]))
  {
    assert Commits(batch)[0] == P.Commit(batch[0].event) && Commits(batch)[1..] == Commits(batch[1..]);
  }

  lemma {:induction false} BatchCommitted(cfg: P.Settings, p: P.State, batch: seq<Enqueued>)
    requires AllCommit(cfg, p, batch)
    ensures Added(p.events, P.Run(cfg, p, Commits(batch)).events, batch)
    decreases batch
  {
    if batch != [] {
      var m := P.Apply(cfg, p, P.Commit(batch[0].event));
      assert CanCommit(cfg, p, batch[0].event);
      CommitAdds(cfg, p, batch[0].event);
      RestCommits(cfg, p, m, batch);
      BatchCommitted(cfg, m, batch[1..]);
      FirstCommit(cfg, p, batch);
      AddedFirst(p.events, P.Run(cfg, m, Commits(batch[1..])).events, batch);
    }
  }

  lemma CommitAdds(cfg: P.Settings, p: P.State, e: P.Event)
    requires CanCommit(cfg, p, e)
    ensures var m := P.Apply(cfg, p, P.Commit(e)); m.events == p.events[e.notice.eventId := e] && m.apps == p.apps
  {
    assert P.Apply(cfg, p, P.Commit(e)) == P.ApplyCommit(cfg, p, e);
  }

  lemma OnlyCommitsAddRows(cfg: P.Settings, p: P.State, step: P.Step)
    requires !step.Commit?
    ensures P.Apply(cfg, p, step).events == p.events
  {
  }

  lemma AnnouncedMember(batch: seq<Enqueued>, x: A.OutboxEvent)
    requires x in multiset(Announced(batch))
    ensures exists i :: 0 <= i < |batch| && batch[i].announced == x
  {
    var i :| 0 <= i < |Announced(batch)| && Announced(batch)[i] == x;
    assert batch[i].announced == x;
  }

  lemma AllStayCarried(x: map<P.EventId, P.Event>, y: map<P.EventId, P.Event>, outbox: multiset<A.OutboxEvent>,
                       batch: seq<Enqueued>)
    requires Added(x, y, batch) && AllAnnounce(batch) && AllCarried(x, outbox)
    ensures AllCarried(y, outbox + multiset(Announced(batch)))
  {
    forall o | o in outbox + multiset(Announced(batch)) ensures IsCarried(y, o) {
      if o in outbox {
        assert IsCarried(x, o);
        var e :| e in x && Announces(x[e], o);
        assert Announces(y[e], o);
      } else {
        AnnouncedMember(batch, o);
        var i :| 0 <= i < |batch| && batch[i].announced == o;
        assert Announces(y[batch[i].event.notice.eventId], o);
      }
    }
  }

  lemma AllStayCaused(x: map<P.EventId, P.Event>, y: map<P.EventId, P.Event>, outbox: multiset<A.OutboxEvent>,
                      batch: seq<Enqueued>)
    requires Added(x, y, batch) && AllAnnounce(batch) && AllCaused(x, outbox)
    ensures AllCaused(y, outbox + multiset(Announced(batch)))
  {
    forall e | e in y ensures IsCaused(outbox + multiset(Announced(batch)), y[e]) {
      if e in x {
        assert IsCaused(outbox, x[e]);
        var o :| o in outbox && Announces(x[e], o);
        assert Announces(y[e], o);
      } else {
        var i :| 0 <= i < |batch| && y[e] == batch[i].event;
        assert Announced(batch)[i] == batch[i].announced;
        assert Announces(y[e], batch[i].announced);
      }
    }
  }

  // ---------------------------------------------------------------- and only one

  predicate IsOfSession(e: P.Event, c: A.SessionId) {
    e.notice.eventType == SessionRevoked && e.notice.centralSessionId == Some(c)
  }

  /** No central session has two rows. */
  ghost predicate OneRowEach(events: map<P.EventId, P.Event>) {
    forall e, f, c {:trigger IsOfSession(events[e], c), IsOfSession(events[f], c)} ::
      e in events && f in events && IsOfSession(events[e], c) && IsOfSession(events[f], c) ==> e == f
  }

  lemma CountedTwice<T>(q: seq<T>, i: nat, j: nat)
    requires i < j < |q| && q[i] == q[j]
    ensures multiset(q)[q[i]] >= 2
  {
    assert q == q[..j] + q[j..];
    assert q[..j][i] == q[i] && q[j..][0] == q[i];
    assert q[i] in multiset(q[..j]) && q[i] in multiset(q[j..]);
  }

  /** A session is announced in one way only. */
  ghost predicate OneWay(outbox: multiset<A.OutboxEvent>) {
    forall x, y :: x in outbox && y in outbox && x.SessionEnded? && y.SessionEnded? && x.session == y.session ==>
      x == y
  }

  ghost predicate AnnouncedOnce(outbox: multiset<A.OutboxEvent>) {
    OneWay(outbox) && forall x :: x in outbox && x.SessionEnded? ==> outbox[x] == 1
  }

  lemma OutboxAnnouncesOnce(cfg: A.Config, s: A.State)
    requires AS.Inv(cfg, s)
    ensures AnnouncedOnce(s.outbox)
  {
    forall x | x in s.outbox && x.SessionEnded?
      ensures x.session in s.sessions && s.outbox[x] == 1
           && x == A.SessionEnded(x.session, s.sessions[x.session].user, s.sessions[x.session].reason.value)
    {
      assert AS.EventOk(s.sessions, x);
      assert AS.IsRecorded(s.outbox, x.session, s.sessions[x.session]);
    }
  }

  /** The announcement of a session and the row that carries it name the same session. */
  lemma AnnouncesSession(e: P.Event, x: A.OutboxEvent, c: A.SessionId)
    requires Announces(e, x) && IsOfSession(e, c)
    ensures x.SessionEnded? && x.session == c
  {
  }

  lemma OldAndNewCount(e: P.Event, outbox: multiset<A.OutboxEvent>, batch: seq<Enqueued>, i: nat, c: A.SessionId)
    requires OneWay(outbox + multiset(Announced(batch))) && AllAnnounce(batch) && i < |batch|
    requires IsCaused(outbox, e) && IsOfSession(e, c) && IsOfSession(batch[i].event, c)
    ensures batch[i].announced.SessionEnded?
    ensures (outbox + multiset(Announced(batch)))[batch[i].announced] >= 2
  {
    var x :| x in outbox && Announces(e, x);
    AnnouncesSession(e, x, c);
    AnnouncesSession(batch[i].event, batch[i].announced, c);
    assert Announced(batch)[i] == batch[i].announced;
    assert x in outbox + multiset(Announced(batch)) && batch[i].announced in multiset(Announced(batch));
  }

  lemma NewOnesDiffer(outbox: multiset<A.OutboxEvent>, batch: seq<Enqueued>, i: nat, j: nat, c: A.SessionId)
    requires AnnouncedOnce(outbox + multiset(Announced(batch))) && AllAnnounce(batch)
    requires i < |batch| && j < |batch| && IsOfSession(batch[i].event, c) && IsOfSession(batch[j].event, c)
    ensures i == j
  {
    AnnouncesSession(batch[i].event, batch[i].announced, c);
    AnnouncesSession(batch[j].event, batch[j].announced, c);
    assert Announced(batch)[i] == batch[i].announced && Announced(batch)[j] == batch[j].announced;
    if i < j {
      CountedTwice(Announced(batch), i, j);
    } else if j < i {
      CountedTwice(Announced(batch), j, i);
    }
  }

  lemma StillOneRowEach(x: map<P.EventId, P.Event>, y: map<P.EventId, P.Event>, outbox: multiset<A.OutboxEvent>,
                        batch: seq<Enqueued>)
    requires Added(x, y, batch) && AllAnnounce(batch) && OneRowEach(x) && KeysFit(y)
    requires AllCaused(x, outbox)
    requires AnnouncedOnce(outbox + multiset(Announced(batch)))
    ensures OneRowEach(y)
  {
    forall e, f, c | e in y && f in y && IsOfSession(y[e], c) && IsOfSession(y[f], c) ensures e == f {
      if e !in x && f !in x {
        var i :| 0 <= i < |batch| && y[e] == batch[i].event;
        var j :| 0 <= j < |batch| && y[f] == batch[j].event;
        NewOnesDiffer(outbox, batch, i, j, c);
      } else if e !in x {
        var i :| 0 <= i < |batch| && y[e] == batch[i].event;
        OldAndNewCount(x[f], outbox, batch, i, c);
      } else if f !in x {
        var j :| 0 <= j < |batch| && y[f] == batch[j].event;
        OldAndNewCount(x[e], outbox, batch, j, c);
      } else {
        assert IsOfSession(x[e], c) && IsOfSession(x[f], c);
      }
    }
  }

  ghost predicate KeysFit(events: map<P.EventId, P.Event>) {
    forall e :: e in events ==> events[e].notice.eventId == e
  }

  // ---------------------------------------------------------------- every run

  ghost predicate Inv(cfg: Config, s: State) {
    && AS.Inv(cfg.access, s.access) && PS.Inv(cfg.pipe, s.pipe)
    && Carried(s.pipe.events, s.access.outbox) && OneRowEach(s.pipe.events)
  }

  lemma CentralStep(cfg: Config, s: State, op: A.Op, batch: seq<Enqueued>)
    requires DR.ValidConfig(cfg.pipe.delivery) && Inv(cfg, s)
    ensures Inv(cfg, Apply(cfg, s, Central(op, batch)))
  {
    var t := A.Apply(cfg.access, s.access, op);
    if IsBatch(cfg, s, t, batch) {
      var q := P.Run(cfg.pipe, s.pipe, Commits(batch));
      AS.StepKeeps(cfg.access, s.access, op);
      PS.RunKeeps(cfg.pipe, s.pipe, Commits(batch));
      BatchCommitted(cfg.pipe, s.pipe, batch);
      InvMeansKeysFit(cfg.pipe, q);
      BatchFits(cfg, s, t, batch, q);
    }
  }

  lemma InvMeansKeysFit(cfg: P.Settings, q: P.State)
    requires PS.Inv(cfg, q)
    ensures KeysFit(q.events)
  {
  }

  lemma BatchFits(cfg: Config, s: State, t: A.State, batch: seq<Enqueued>, q: P.State)
    requires Carried(s.pipe.events, s.access.outbox) && OneRowEach(s.pipe.events) && AS.Inv(cfg.access, t)
    requires IsBatch(cfg, s, t, batch) && Added(s.pipe.events, q.events, batch) && KeysFit(q.events)
    ensures Carried(q.events, t.outbox) && OneRowEach(q.events)
  {
    AllStayCarried(s.pipe.events, q.events, s.access.outbox, batch);
    AllStayCaused(s.pipe.events, q.events, s.access.outbox, batch);
    OutboxAnnouncesOnce(cfg.access, t);
    StillOneRowEach(s.pipe.events, q.events, s.access.outbox, batch);
  }

  lemma OutsideStep(cfg: Config, s: State, step: P.Step)
    requires DR.ValidConfig(cfg.pipe.delivery) && Inv(cfg, s)
    ensures Inv(cfg, Apply(cfg, s, Outside(step)))
  {
    if !step.Commit? {
      OnlyCommitsAddRows(cfg.pipe, s.pipe, step);
      PS.StepKeeps(cfg.pipe, s.pipe, step);
    }
  }

  lemma {:induction false} RunKeeps(cfg: Config, s: State, steps: seq<Step>)
    requires DR.ValidConfig(cfg.pipe.delivery) && Inv(cfg, s)
    ensures Inv(cfg, Run(cfg, s, steps))
    decreases steps
  {
    if steps != [] {
      match steps[0] {
        case Central(op, batch) => CentralStep(cfg, s, op, batch);
        case Outside(step) => OutsideStep(cfg, s, step);
      }
      RunKeeps(cfg, Apply(cfg, s, steps[0]), steps[1..]);
    }
  }

  lemma Reach(cfg: Config, steps: seq<Step>)
    requires DR.ValidConfig(cfg.pipe.delivery)
    ensures Inv(cfg, Run(cfg, INITIAL, steps))
  {
    AT.Reach(cfg.access, [], []);
    PT.Reach(cfg.pipe, [], []);
    RunKeeps(cfg, INITIAL, steps);
  }

  lemma RowMeansRevoked(events: map<P.EventId, P.Event>, s: A.State, e: P.EventId, c: A.SessionId)
    requires AllCaused(events, s.outbox) && AS.OutboxOk(s.sessions, s.outbox)
    requires e in events && IsOfSession(events[e], c)
    ensures c in s.sessions && AS.IsAnnounced(s.sessions[c]) && Announces(events[e], AnnouncementOf(s, c))
  {
    assert IsCaused(s.outbox, events[e]);
    var x :| x in s.outbox && Announces(events[e], x);
    AnnouncesSession(events[e], x, c);
    assert AS.EventOk(s.sessions, x);
  }

  lemma RevokedMeansRow(events: map<P.EventId, P.Event>, s: A.State, c: A.SessionId)
    requires AllCarried(events, s.outbox) && AS.OutboxOk(s.sessions, s.outbox)
    requires c in s.sessions && AS.IsAnnounced(s.sessions[c])
    ensures HasRow(events, c)
  {
    assert AS.IsRecorded(s.outbox, c, s.sessions[c]);
    assert AnnouncementOf(s, c) in s.outbox;
    assert IsCarried(events, AnnouncementOf(s, c));
    var e :| e in events && Announces(events[e], AnnouncementOf(s, c));
    assert IsOfSession(events[e], c);
  }

  ghost predicate HasRow(events: map<P.EventId, P.Event>, c: A.SessionId) {
    exists e :: e in events && IsOfSession(events[e], c)
  }

  /** In every reachable state a central session that a logout or a deactivation revoked has exactly one
      row in the outbox, and no other central session has one. */
  lemma RevokedSessionsHaveOneRow(cfg: Config, steps: seq<Step>, c: A.SessionId)
    requires DR.ValidConfig(cfg.pipe.delivery)
    ensures var s := Run(cfg, INITIAL, steps);
            && (c in s.access.sessions && AS.IsAnnounced(s.access.sessions[c]) <==> HasRow(s.pipe.events, c))
            && OneRowEach(s.pipe.events)
            && (forall e :: e in s.pipe.events && IsOfSession(s.pipe.events[e], c) ==>
                  Announces(s.pipe.events[e], AnnouncementOf(s.access, c)))
  {
    Reach(cfg, steps);
    var s := Run(cfg, INITIAL, steps);
    forall e | e in s.pipe.events && IsOfSession(s.pipe.events[e], c)
      ensures c in s.access.sessions && AS.IsAnnounced(s.access.sessions[c])
           && Announces(s.pipe.events[e], AnnouncementOf(s.access, c))
    {
      RowMeansRevoked(s.pipe.events, s.access, e, c);
    }
    if c in s.access.sessions && AS.IsAnnounced(s.access.sessions[c]) {
      RevokedMeansRow(s.pipe.events, s.access, c);
    }
  }

  /** What the transaction that revoked the session announced. */
  function AnnouncementOf(s: A.State, c: A.SessionId): A.OutboxEvent {
    if c in s.sessions && s.sessions[c].reason.Some?
    then A.SessionEnded(c, s.sessions[c].user, s.sessions[c].reason.value)
    else A.PasswordChange(0)
  }

  // ---------------------------------------------------------------- to the local sessions

  /** The announced revocation is meant to end this local session. */
  predicate Concerns(x: A.OutboxEvent, y: L.LocalSession) {
    y.user == x.user && (x.SessionEnded? ==> y.central == x.session)
  }

  /** A local session that the announcement concerns, and the application has not yet processed its row. */
  ghost predicate IsLocalOf(p: P.State, e: P.EventId, a: P.AppId, id: L.SessionId, x: A.OutboxEvent) {
    && a in p.apps && e !in p.apps[a].processed
    && id in p.apps[a].sessions && Concerns(x, p.apps[a].sessions[id])
  }

  lemma {:induction false} RunAppends(cfg: Config, s: State, a: seq<Step>, b: seq<Step>)
    ensures Run(cfg, s, a + b) == Run(cfg, Run(cfg, s, a), b)
    decreases a
  {
    if a == [] {
      assert a + b == b;
    } else {
      assert (a + b)[1..] == a[1..] + b;
      RunAppends(cfg, Apply(cfg, s, a[0]), a[1..], b);
    }
  }

  /** The row is pending, or its message is on its way or handled for all its targets. */
  ghost predicate IsUnderWay(p: P.State, e: P.EventId) {
    (e in p.pub.outbox && !p.pub.outbox[e].published)
    || exists copy :: copy in p.copies && p.copies[copy].event == e
         && (PT.Unsettled(p.copies[copy]) || PT.Served(p, p.copies[copy]))
  }

  /** Where the delivery succeeded, the local sessions of the earlier state are over. */
  ghost predicate EndsLocalSessions(p: P.State, q: P.State, e: P.EventId, x: A.OutboxEvent) {
    forall a, id :: PT.Is(q, P.Key(e, a), DR.Succeeded) && IsLocalOf(p, e, a, id, x) ==> PT.IsOver(q, a, id)
  }

  /** Every announcement, of a logout, a deactivation, a password change or a loss of access, reaches the
      local sessions: its row is pending, on its way, or handled for all its targets; and where the
      delivery succeeded, every local session is over that it concerns and that existed, in any earlier
      state of the run, before the application processed the event. */
  lemma AnnouncementReachesLocalSessions(cfg: Config, before: seq<Step>, after: seq<Step>, x: A.OutboxEvent)
    requires DR.ValidConfig(cfg.pipe.delivery) && N.AreDistinct(cfg.pipe.names)
    requires x in Run(cfg, Run(cfg, INITIAL, before), after).access.outbox
    ensures var s := Run(cfg, INITIAL, before);
            var t := Run(cfg, s, after);
            exists e :: e in t.pipe.events && Announces(t.pipe.events[e], x) && IsUnderWay(t.pipe, e)
              && EndsLocalSessions(s.pipe, t.pipe, e, x)
  {
    var t := Run(cfg, Run(cfg, INITIAL, before), after);
    RunAppends(cfg, INITIAL, before, after);
    OutboxIsCarried(cfg, before + after, x);
    var e :| e in t.pipe.events && Announces(t.pipe.events[e], x);
    RowIsUnderWay(cfg, before + after, e);
    RowEndsLocalSessions(cfg, before, after, e, x);
  }

  /** In particular a central session that a logout or a deactivation revoked: its one row. */
  lemma RevocationReachesLocalSessions(cfg: Config, before: seq<Step>, after: seq<Step>, c: A.SessionId, e: P.EventId)
    requires DR.ValidConfig(cfg.pipe.delivery) && N.AreDistinct(cfg.pipe.names)
    requires var t := Run(cfg, Run(cfg, INITIAL, before), after);
             && c in t.access.sessions && AS.IsAnnounced(t.access.sessions[c])
             && e in t.pipe.events && IsOfSession(t.pipe.events[e], c)
    ensures var s := Run(cfg, INITIAL, before);
            var t := Run(cfg, s, after);
            IsUnderWay(t.pipe, e) && EndsLocalSessions(s.pipe, t.pipe, e, AnnouncementOf(t.access, c))
  {
    RunAppends(cfg, INITIAL, before, after);
    RevokedSessionsHaveOneRow(cfg, before + after, c);
    RowIsUnderWay(cfg, before + after, e);
    RowEndsLocalSessions(cfg, before, after, e, AnnouncementOf(Run(cfg, INITIAL, before + after).access, c));
  }

  lemma OutboxIsCarried(cfg: Config, steps: seq<Step>, x: A.OutboxEvent)
    requires DR.ValidConfig(cfg.pipe.delivery) && x in Run(cfg, INITIAL, steps).access.outbox
    ensures IsCarried(Run(cfg, INITIAL, steps).pipe.events, x)
  {
    Reach(cfg, steps);
  }

  lemma RowIsUnderWay(cfg: Config, steps: seq<Step>, e: P.EventId)
    requires DR.ValidConfig(cfg.pipe.delivery) && e in Run(cfg, INITIAL, steps).pipe.events
    ensures IsUnderWay(Run(cfg, INITIAL, steps).pipe, e)
  {
    PipeRuns(cfg, INITIAL, steps);
    PT.NothingLost(cfg.pipe, PipeSteps(cfg, INITIAL, steps), e);
  }

  lemma LocalIsEarlier(p: P.State, row: P.Event, e: P.EventId, x: A.OutboxEvent, a: P.AppId, id: L.SessionId)
    requires row.notice.eventId == e && Announces(row, x) && IsLocalOf(p, e, a, id, x)
    ensures PT.IsEarlier(p, row, a, id)
  {
  }

  lemma RowEndsLocalSessions(cfg: Config, before: seq<Step>, after: seq<Step>, e: P.EventId, x: A.OutboxEvent)
    requires DR.ValidConfig(cfg.pipe.delivery) && N.AreDistinct(cfg.pipe.names)
    requires var t := Run(cfg, Run(cfg, INITIAL, before), after);
             e in t.pipe.events && Announces(t.pipe.events[e], x)
    ensures var s := Run(cfg, INITIAL, before); EndsLocalSessions(s.pipe, Run(cfg, s, after).pipe, e, x)
  {
    var s := Run(cfg, INITIAL, before);
    var t := Run(cfg, s, after);
    RowsAreKeyed(cfg, before, after);
    forall a, id | PT.Is(t.pipe, P.Key(e, a), DR.Succeeded) && IsLocalOf(s.pipe, e, a, id, x)
      ensures PT.IsOver(t.pipe, a, id)
    {
      LocalIsEarlier(s.pipe, t.pipe.events[e], e, x, a, id);
      EarlierEnds(cfg, before, after, e, a, id);
    }
  }

  lemma RowsAreKeyed(cfg: Config, before: seq<Step>, after: seq<Step>)
    requires DR.ValidConfig(cfg.pipe.delivery)
    ensures KeysFit(Run(cfg, Run(cfg, INITIAL, before), after).pipe.events)
  {
    RunAppends(cfg, INITIAL, before, after);
    Reach(cfg, before + after);
    InvMeansKeysFit(cfg.pipe, Run(cfg, INITIAL, before + after).pipe);
  }

  lemma EarlierEnds(cfg: Config, before: seq<Step>, after: seq<Step>, e: P.EventId, a: P.AppId, id: L.SessionId)
    requires DR.ValidConfig(cfg.pipe.delivery) && N.AreDistinct(cfg.pipe.names)
    requires var s := Run(cfg, INITIAL, before);
             var t := Run(cfg, s, after);
             && e in t.pipe.events && PT.Is(t.pipe, P.Key(e, a), DR.Succeeded)
             && PT.IsEarlier(s.pipe, t.pipe.events[e], a, id)
    ensures PT.IsOver(Run(cfg, Run(cfg, INITIAL, before), after).pipe, a, id)
  {
    var s := Run(cfg, INITIAL, before);
    PipeRuns(cfg, INITIAL, before);
    PipeRuns(cfg, s, after);
    PT.SuccessEndsEarlierSessions(cfg.pipe, PipeSteps(cfg, INITIAL, before), PipeSteps(cfg, s, after), P.Key(e, a), id);
  }

  // ---------------------------------------------------------------- and no others

  /** The announced revocation is meant to end this local session of this application. */
  predicate ConcernsAt(x: A.OutboxEvent, a: P.AppId, y: L.LocalSession) {
    Concerns(x, y) && (x.AccessChange? ==> x.app == a)
  }

  /** A delivery changes a session only if its row means it. */
  lemma RequestChangesOnlyMeant(p: P.State, t: P.TaskId, executed: bool, answered: bool, a: P.AppId, id: L.SessionId)
    requires a in p.apps && L.Inv(p.apps[a]) && id in p.apps[a].sessions
    ensures var q := P.ApplyRequest(p, t, executed, answered);
            && a in q.apps && id in q.apps[a].sessions
            && (q.apps[a].sessions[id] != p.apps[a].sessions[id] ==>
                  && t in p.del.tasks && p.del.tasks[t].key.app == a && p.del.tasks[t].key.event in p.events
                  && L.IsMeant(p.events[p.del.tasks[t].key.event].notice, p.apps[a].sessions[id], p.apps[a].clock))
  {
    if t in p.del.tasks && p.del.tasks[t].key.app == a && p.del.tasks[t].key.event in p.events {
      var n := p.events[p.del.tasks[t].key.event].notice;
      if n.eventId !in p.apps[a].processed {
        L.NoticeEndsExactly(p.apps[a], n, id);
      }
    }
  }

  lemma MeantIsConcerned(row: P.Event, x: A.OutboxEvent, a: P.AppId, y: L.LocalSession, now: nat)
    requires Announces(row, x) && L.IsMeant(row.notice, y, now) && (row.app.Some? ==> row.app.value == a)
    ensures ConcernsAt(x, a, y)
  {
  }

  lemma TaskIsForTarget(cfg: P.Settings, p: P.State, t: P.TaskId)
    requires PS.Inv(cfg, p) && t in p.del.tasks
    ensures PS.IsValidKey(p.events, p.apps.Keys, p.del.tasks[t].key)
  {
    var valid, recorded := PS.ValidKeys(p.events, p.apps), PS.RecordedKeys(p.events, p.apps);
    var k := p.del.tasks[t].key;
    assert DI.TaskInv(cfg.delivery, p.del, recorded, p.del.tasks[t]);
    assert DI.RowInv(cfg.delivery, p.del, valid, recorded, k, p.del.rows[k]);
  }

  /** In every reachable state a delivery leaves alone every local session that no announcement concerns:
      of another user, of another central session of the same user, or of an application that the user
      still may use. */
  lemma UnconcernedIsLeftAlone(cfg: Config, steps: seq<Step>, t: P.TaskId, executed: bool, answered: bool, a: P.AppId,
                               id: L.SessionId)
    requires DR.ValidConfig(cfg.pipe.delivery)
    requires var s := Run(cfg, INITIAL, steps);
             && a in s.pipe.apps && id in s.pipe.apps[a].sessions
             && forall x :: x in s.access.outbox ==> !ConcernsAt(x, a, s.pipe.apps[a].sessions[id])
    ensures var p := Run(cfg, INITIAL, steps).pipe;
            var q := P.ApplyRequest(p, t, executed, answered);
            a in q.apps && id in q.apps[a].sessions && q.apps[a].sessions[id] == p.apps[a].sessions[id]
  {
    Reach(cfg, steps);
    var s := Run(cfg, INITIAL, steps);
    LeftAlone(cfg, s, t, executed, answered, a, id);
  }

  lemma LeftAlone(cfg: Config, s: State, t: P.TaskId, executed: bool, answered: bool, a: P.AppId, id: L.SessionId)
    requires Inv(cfg, s) && a in s.pipe.apps && id in s.pipe.apps[a].sessions
    requires forall x :: x in s.access.outbox ==> !ConcernsAt(x, a, s.pipe.apps[a].sessions[id])
    ensures var q := P.ApplyRequest(s.pipe, t, executed, answered);
            a in q.apps && id in q.apps[a].sessions && q.apps[a].sessions[id] == s.pipe.apps[a].sessions[id]
  {
    var p := s.pipe;
    AppIsSound(cfg.pipe, p, a);
    RequestChangesOnlyMeant(p, t, executed, answered, a, id);
    if P.ApplyRequest(p, t, executed, answered).apps[a].sessions[id] != p.apps[a].sessions[id] {
      var row := p.events[p.del.tasks[t].key.event];
      TaskIsForTarget(cfg.pipe, p, t);
      assert IsCaused(s.access.outbox, row);
      var x :| x in s.access.outbox && Announces(row, x);
      MeantIsConcerned(row, x, a, p.apps[a].sessions[id], p.apps[a].clock);
    }
  }

  lemma AppIsSound(cfg: P.Settings, p: P.State, a: P.AppId)
    requires PS.Inv(cfg, p) && a in p.apps
    ensures L.Inv(p.apps[a])
  {
  }
}
