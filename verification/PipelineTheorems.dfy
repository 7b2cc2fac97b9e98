/** What holds in every state the revocation pipeline can reach, and between any two such states. */
module PipelineTheorems {
  import opened DeliveryRows
  import opened Pipeline
  import opened DeliveryInvariant
  import opened PipelineSafety
  import P = PublisherInvariant
  import L = LocalSessions
  import M = MessageSize
  import N = Naming
  import I = EventIdentity
  import opened Vocabulary
  import opened Json

  lemma Reach(cfg: Settings, steps: seq<Step>, more: seq<Step>)
    requires ValidConfig(cfg.delivery)
    ensures var s := Run(cfg, INITIAL, steps);
            Inv(cfg, s) && Inv(cfg, Run(cfg, s, more)) && Evolves(s, Run(cfg, s, more))
  {
    InitiallyInv(cfg);
    RunKeeps(cfg, INITIAL, steps);
    RunKeeps(cfg, Run(cfg, INITIAL, steps), more);
  }

  lemma {:induction false} RunAppends(cfg: Settings, s: State, a: seq<Step>, b: seq<Step>)
    ensures Run(cfg, s, a + b) == Run(cfg, Run(cfg, s, a), b)
    decreases a
  {
    if a == [] {
      assert a + b == b;
    } else {
      assert (a + b)[1..] == a[1..] + b;
      RunAppends(cfg, Apply(cfg, s, a[0]), a[1..], b);
    }
  }

  // ---------------------------------------------------------------- no revocation is lost

  /** A copy that is queued or in a consumer's hands will be processed again. */
  predicate Unsettled(x: Copy) { x.state.Queued? || x.state.Held? }

  /** A copy was acknowledged only after a row past PENDING existed for every target, and the targets
      are the event's own or all applications known when the message was received. */
  ghost predicate Served(s: State, x: Copy) {
    && x.event in s.events && x.state.Acked? && TargetsFit(s.events[x.event], x.state.known, x.state.targets)
    && forall a :: a in x.state.targets ==>
         Key(x.event, a) in s.del.rows && s.del.rows[Key(x.event, a)].status != Pending
  }

  lemma NothingLost(cfg: Settings, steps: seq<Step>, e: EventId)
    requires ValidConfig(cfg.delivery)
    ensures var s := Run(cfg, INITIAL, steps);
            e in s.events ==>
              (e in s.pub.outbox && !s.pub.outbox[e].published)
              || exists c :: c in s.copies && s.copies[c].event == e
                  && (Unsettled(s.copies[c]) || Served(s, s.copies[c]))
  {
    var s := Run(cfg, INITIAL, steps);
    Reach(cfg, steps, []);
    if e in s.events && s.pub.outbox[e].published {
      assert HasCopy(s.copies, e);
      var c :| c in s.copies && s.copies[c].event == e;
      assert CopyInv(s.events, s.apps.Keys, s.del, s.copies[c]);
      assert Unsettled(s.copies[c]) || Served(s, s.copies[c]);
    }
  }

  /** A published event has a durable copy, and a published row never changes again. */
  lemma PublishedIsFinal(cfg: Settings, steps: seq<Step>, more: seq<Step>, e: EventId)
    requires ValidConfig(cfg.delivery)
    ensures var s := Run(cfg, INITIAL, steps);
            e in s.pub.outbox && s.pub.outbox[e].published ==>
              HasCopy(s.copies, e)
              && e in Run(cfg, s, more).pub.outbox && Run(cfg, s, more).pub.outbox[e] == s.pub.outbox[e]
  {
    Reach(cfg, steps, more);
    var s := Run(cfg, INITIAL, steps);
    if e in s.pub.outbox {
      assert P.OutboxRowEvolves(s.pub.outbox[e], Run(cfg, s, more).pub.outbox[e]);
    }
  }

  // ---------------------------------------------------------------- final deliveries

  predicate Is(s: State, k: Key, status: DeliveryStatus) { k in s.del.rows && s.del.rows[k].status == status }

  /** The sessions that the plan of the event matched when the application processed it. */
  function MatchedBy(s: State, k: Key): set<L.SessionId> {
    if k.app in s.apps && k.event in s.apps[k.app].matched then s.apps[k.app].matched[k.event] else {}
  }

  ghost predicate IsOver(s: State, a: AppId, id: L.SessionId) {
    a in s.apps && L.IsDead(s.apps[a], id)
  }

  /** A succeeded delivery was processed by its application, and from then on, in every later state,
      none of the sessions its plan matched is usable. */
  lemma SuccessMeansRevoked(cfg: Settings, steps: seq<Step>, more: seq<Step>, k: Key)
    requires ValidConfig(cfg.delivery) && Is(Run(cfg, INITIAL, steps), k, Succeeded)
    ensures var s := Run(cfg, INITIAL, steps);
            var t := Run(cfg, s, more);
            && Recorded(s.events, s.apps, k) && Recorded(t.events, t.apps, k)
            && Is(t, k, Succeeded) && t.del.rows[k] == s.del.rows[k] && MatchedBy(t, k) == MatchedBy(s, k)
            && forall id :: id in MatchedBy(s, k) ==> IsOver(s, k.app, id) && IsOver(t, k.app, id)
  {
    Reach(cfg, steps, more);
    var s := Run(cfg, INITIAL, steps);
    var t := Run(cfg, s, more);
    assert RowInv(cfg.delivery, s.del, ValidKeys(s.events, s.apps), RecordedKeys(s.events, s.apps), k, s.del.rows[k]);
    assert RowEvolves(s.del.rows[k], t.del.rows[k]);
    RecordedStays(cfg, s, t, k);
    MatchedOver(cfg, s, k);
    MatchedOver(cfg, t, k);
  }

  lemma RecordedStays(cfg: Settings, s: State, t: State, k: Key)
    requires Inv(cfg, s) && Evolves(s, t) && Recorded(s.events, s.apps, k)
    ensures Recorded(t.events, t.apps, k) && MatchedBy(t, k) == MatchedBy(s, k)
  {
    AppsSound(cfg, s, k.app);
    assert L.Evolves(s.apps[k.app], t.apps[k.app]);
  }

  lemma MatchedOver(cfg: Settings, s: State, k: Key)
    requires Inv(cfg, s)
    ensures forall id :: id in MatchedBy(s, k) ==> IsOver(s, k.app, id)
  {
  }

  /** The application has not seen the event, and its plan matches this session. */
  ghost predicate MatchesAt(s: State, k: Key, id: L.SessionId) {
    && k.event in s.events && k.app in s.apps && s.events[k.event].notice.eventId !in s.apps[k.app].processed
    && id in s.apps[k.app].sessions
    && L.Matches(L.CreatePlan(s.events[k.event].notice), s.apps[k.app].sessions[id])
  }

  lemma StaysOver(s: State, t: State, a: AppId, id: L.SessionId)
    requires AppsEvolve(s.apps, t.apps) && IsOver(s, a, id)
    ensures IsOver(t, a, id)
  {
  }

  lemma AppSoundAt(cfg: Settings, steps: seq<Step>, a: AppId)
    requires ValidConfig(cfg.delivery) && a in Run(cfg, INITIAL, steps).apps
    ensures L.Inv(Run(cfg, INITIAL, steps).apps[a])
  {
    Reach(cfg, steps, []);
    AppsSound(cfg, Run(cfg, INITIAL, steps), a);
  }

  lemma ApplicationsEvolve(cfg: Settings, steps: seq<Step>, step: Step, more: seq<Step>)
    requires ValidConfig(cfg.delivery)
    ensures var m := Apply(cfg, Run(cfg, INITIAL, steps), step); AppsEvolve(m.apps, Run(cfg, m, more).apps)
  {
    var s := Run(cfg, INITIAL, steps);
    Reach(cfg, steps, []);
    StepKeeps(cfg, s, step);
    RunKeeps(cfg, Apply(cfg, s, step), more);
  }

  lemma RequestEnds(cfg: Settings, s: State, t: TaskId, answered: bool, id: L.SessionId)
    requires t in s.del.tasks && s.del.tasks[t].phase == Working && s.del.tasks[t].kind != ToDeadLetter
    requires MatchesAt(s, s.del.tasks[t].key, id) && L.Inv(s.apps[s.del.tasks[t].key.app])
    ensures IsOver(Apply(cfg, s, Request(t, true, answered)), s.del.tasks[t].key.app, id)
  {
    var k := s.del.tasks[t].key;
    L.ProcessKillsMatched(s.apps[k.app], s.events[k.event].notice, id);
    assert Apply(cfg, s, Request(t, true, answered)).apps[k.app]
           == L.ProcessFirst(s.apps[k.app], s.events[k.event].notice);
  }

  /** The first request that reaches the application ends every session its plan matches, for good, even
      if the answer is lost. */
  lemma ExecutedRequestRevokes(cfg: Settings, steps: seq<Step>, t: TaskId, answered: bool, more: seq<Step>,
                               id: L.SessionId)
    requires ValidConfig(cfg.delivery)
    requires var s := Run(cfg, INITIAL, steps);
             && t in s.del.tasks && s.del.tasks[t].phase == Working && s.del.tasks[t].kind != ToDeadLetter
             && MatchesAt(s, s.del.tasks[t].key, id)
    ensures var s := Run(cfg, INITIAL, steps);
            IsOver(Run(cfg, Apply(cfg, s, Request(t, true, answered)), more), s.del.tasks[t].key.app, id)
  {
    var s := Run(cfg, INITIAL, steps);
    var m := Apply(cfg, s, Request(t, true, answered));
    AppSoundAt(cfg, steps, s.del.tasks[t].key.app);
    RequestEnds(cfg, s, t, answered, id);
    ApplicationsEvolve(cfg, steps, Request(t, true, answered), more);
    StaysOver(m, Run(cfg, m, more), s.del.tasks[t].key.app, id);
  }

  // ---------------------------------------------------------------- sessions that existed before

  lemma DescribedIsHonest(cfg: Settings, e: Event)
    requires IsGenuine(cfg, e)
    ensures N.IsHonest(cfg.names, e.notice)
  {
    ProducedMetadata(e.payload);
    assert N.Tells(cfg.names, e.notice, M.EventOf(e.payload));
  }

  lemma ProducedMetadata(x: M.Enqueuing)
    ensures WellFormed(M.EventOf(x).metadata)
  {
    I.SourceMetadataFits("auth_logout");
    I.SourceMetadataFits("admin_user_deactivation");
    I.SourceMetadataFits("admin_password_change");
    I.SourceMetadataFits("admin_access_change");
  }

  lemma OtherStepsLeaveApps(cfg: Settings, s: State, step: Step, a: AppId)
    requires a in s.apps && !step.AppStep? && !step.Request?
    ensures a in Apply(cfg, s, step).apps && Apply(cfg, s, step).apps[a] == s.apps[a]
  {
  }

  lemma RequestMoves(cfg: Settings, s: State, t: TaskId, executed: bool, answered: bool, a: AppId)
    returns (op: Option<L.Op>)
    requires PayloadsFit(cfg, s.events) && a in s.apps
    ensures var u := ApplyRequest(s, t, executed, answered);
            && a in u.apps
            && match op
               case None => u.apps[a] == s.apps[a]
               case Some(o) => IsOwnOp(cfg, o) && u.apps[a] == L.Apply(s.apps[a], o)
  {
    if ApplyRequest(s, t, executed, answered).apps[a] == s.apps[a] {
      return None;
    }
    var e := s.events[s.del.tasks[t].key.event];
    assert IsGenuine(cfg, e);
    DescribedIsHonest(cfg, e);
    return Some(L.Receive(e.notice));
  }

  /** A step leaves an application as it is, or is one of its own operations, a delivery included. */
  lemma AppMoves(cfg: Settings, s: State, step: Step, a: AppId) returns (op: Option<L.Op>)
    requires PayloadsFit(cfg, s.events) && a in s.apps
    ensures a in Apply(cfg, s, step).apps
    ensures match op
            case None => Apply(cfg, s, step).apps[a] == s.apps[a]
            case Some(o) => IsOwnOp(cfg, o) && Apply(cfg, s, step).apps[a] == L.Apply(s.apps[a], o)
  {
    if step.Request? {
      op := RequestMoves(cfg, s, step.task, step.executed, step.answered, a);
    } else if step.AppStep? {
      op := if step.app == a && IsOwnOp(cfg, step.op) then Some(step.op) else None;
    } else {
      OtherStepsLeaveApps(cfg, s, step, a);
      op := None;
    }
  }

  ghost predicate EndsAt(s: State, a: AppId, n: L.Notice, id: L.SessionId) {
    a in s.apps && L.EndsWith(s.apps[a], n, id)
  }

  lemma EarlierSessionStep(cfg: Settings, s: State, step: Step, a: AppId, n: L.Notice, id: L.SessionId)
    requires Inv(cfg, s) && N.AreDistinct(cfg.names) && N.IsHonest(cfg.names, n) && EndsAt(s, a, n, id)
    ensures EndsAt(Apply(cfg, s, step), a, n, id)
  {
    var op := AppMoves(cfg, s, step, a);
    AppsSound(cfg, s, a);
    if op.Some? {
      if op.value.Receive? && op.value.notice.digest == n.digest {
        N.SameDigestSameEvent(cfg.names, op.value.notice, n);
      }
      L.EarlierSessionStep(s.apps[a], op.value, n, id);
    }
  }

  lemma {:induction false} EarlierSessionRun(cfg: Settings, s: State, steps: seq<Step>, a: AppId, n: L.Notice,
                                             id: L.SessionId)
    requires ValidConfig(cfg.delivery) && Inv(cfg, s) && N.AreDistinct(cfg.names) && N.IsHonest(cfg.names, n)
    requires EndsAt(s, a, n, id)
    ensures EndsAt(Run(cfg, s, steps), a, n, id)
    decreases steps
  {
    if steps != [] {
      StepKeeps(cfg, s, steps[0]);
      EarlierSessionStep(cfg, s, steps[0], a, n, id);
      EarlierSessionRun(cfg, Apply(cfg, s, steps[0]), steps[1..], a, n, id);
    }
  }

  /** In any earlier state in which the application had not processed the event, it had this session, and
      the plan of the event matches it. */
  ghost predicate IsEarlier(s: State, e: Event, a: AppId, id: L.SessionId) {
    && a in s.apps && e.notice.eventId !in s.apps[a].processed
    && id in s.apps[a].sessions && L.Matches(L.CreatePlan(e.notice), s.apps[a].sessions[id])
  }

  /** A succeeded delivery has ended every session of the application that its event concerns and that
      existed at any time before the application processed the event. */
  lemma SuccessEndsEarlierSessions(cfg: Settings, steps: seq<Step>, more: seq<Step>, k: Key, id: L.SessionId)
    requires ValidConfig(cfg.delivery) && N.AreDistinct(cfg.names)
    requires var s := Run(cfg, INITIAL, steps);
             var t := Run(cfg, s, more);
             Is(t, k, Succeeded) && k.event in t.events && IsEarlier(s, t.events[k.event], k.app, id)
    ensures IsOver(Run(cfg, Run(cfg, INITIAL, steps), more), k.app, id)
  {
    var s := Run(cfg, INITIAL, steps);
    var t := Run(cfg, s, more);
    Reach(cfg, steps, more);
    assert IsGenuine(cfg, t.events[k.event]);
    DescribedIsHonest(cfg, t.events[k.event]);
    EarlierSessionRun(cfg, s, more, k.app, t.events[k.event].notice, id);
    SucceededIsRecorded(cfg, t, k);
  }

  lemma SucceededIsRecorded(cfg: Settings, t: State, k: Key)
    requires Inv(cfg, t) && Is(t, k, Succeeded)
    ensures Recorded(t.events, t.apps, k) && t.events[k.event].notice.eventId == k.event
  {
    assert RowInv(cfg.delivery, t.del, ValidKeys(t.events, t.apps), RecordedKeys(t.events, t.apps), k, t.del.rows[k]);
  }

  /** A failed delivery was attempted at least as often as configured, its dead letter is stored with
      that count, and it stays failed. */
  lemma FailureMeansDeadLetter(cfg: Settings, steps: seq<Step>, more: seq<Step>, k: Key)
    requires ValidConfig(cfg.delivery) && Is(Run(cfg, INITIAL, steps), k, Failed)
    ensures var s := Run(cfg, INITIAL, steps);
            var t := Run(cfg, s, more);
            && s.del.rows[k].attemptCount >= cfg.delivery.maxAttempts
            && DeadLetter(k, s.del.rows[k].attemptCount) in s.del.deadLetters
            && k in t.del.rows && t.del.rows[k] == s.del.rows[k] && s.del.deadLetters <= t.del.deadLetters
  {
    Reach(cfg, steps, more);
    var s := Run(cfg, INITIAL, steps);
    assert RowInv(cfg.delivery, s.del, ValidKeys(s.events, s.apps), RecordedKeys(s.events, s.apps), k, s.del.rows[k]);
    assert RowEvolves(s.del.rows[k], Run(cfg, s, more).del.rows[k]);
  }

  /** A stored dead letter belongs to the last attempt of its delivery, whatever became of the delivery,
      unless a redelivered message made another attempt. */
  lemma DeadLetterIsLastAttempt(cfg: Settings, steps: seq<Step>, l: DeadLetter)
    requires ValidConfig(cfg.delivery)
    ensures var d := Run(cfg, INITIAL, steps).del;
            l in d.deadLetters ==>
              && l.key in d.rows && cfg.delivery.maxAttempts <= l.attemptCount <= d.rows[l.key].attemptCount
              && (d.rows[l.key].attemptCount == l.attemptCount || Redelivered(d, l.key) > 0)
  {
    AttemptsBounded(cfg, steps, l.key);
    LettersFit(cfg, steps, l);
  }

  lemma LettersFit(cfg: Settings, steps: seq<Step>, l: DeadLetter)
    requires ValidConfig(cfg.delivery)
    ensures var d := Run(cfg, INITIAL, steps).del; l in d.deadLetters ==> LetterInv(cfg.delivery, d, l)
  {
    Reach(cfg, steps, []);
  }

  // ---------------------------------------------------------------- bounds and bookkeeping

  /** Only redelivered messages can push a delivery past the configured number of attempts. */
  lemma AttemptsBounded(cfg: Settings, steps: seq<Step>, k: Key)
    requires ValidConfig(cfg.delivery)
    ensures var d := Run(cfg, INITIAL, steps).del;
            k in d.rows ==> d.rows[k].attemptCount <= cfg.delivery.maxAttempts + Redelivered(d, k)
  {
    Reach(cfg, steps, []);
    var s := Run(cfg, INITIAL, steps);
    if k in s.del.rows {
      assert RowInv(cfg.delivery, s.del, ValidKeys(s.events, s.apps), RecordedKeys(s.events, s.apps), k, s.del.rows[k]);
    }
  }

  /** Every delivery that waits or is being worked on has a time from which a retry pass takes it up. */
  lemma EveryOpenDeliveryIsTakenUp(cfg: Settings, steps: seq<Step>, k: Key, at: nat)
    requires ValidConfig(cfg.delivery)
    ensures var s := Run(cfg, INITIAL, steps);
            Is(s, k, Retrying) || Is(s, k, Processing) ==>
              RowOk(s.del.rows[k]) && (Eligible(Recover(s.del.rows[k], at), at) <==> DueAt(s.del.rows[k]) <= at)
  {
    Reach(cfg, steps, []);
    var s := Run(cfg, INITIAL, steps);
    if Is(s, k, Retrying) || Is(s, k, Processing) {
      assert RowInv(cfg.delivery, s.del, ValidKeys(s.events, s.apps), RecordedKeys(s.events, s.apps), k, s.del.rows[k]);
      NeverStranded(s.del.rows[k], at);
    }
  }

  // ---------------------------------------------------------------- fencing

  /** No attempt number, of publishing or of delivering, is ever granted to two workers. */
  lemma AttemptsWonOnce(cfg: Settings, steps: seq<Step>)
    requires ValidConfig(cfg.delivery)
    ensures P.WonOnce(Run(cfg, INITIAL, steps).pub.wins) && WonOnce(Run(cfg, INITIAL, steps).del.wins)
  {
    Reach(cfg, steps, []);
  }

  lemma PublishingEvolves(cfg: Settings, steps: seq<Step>, more: seq<Step>)
    requires ValidConfig(cfg.delivery)
    ensures P.PubEvolves(Run(cfg, INITIAL, steps).pub, Run(cfg, Run(cfg, INITIAL, steps), more).pub)
  {
    Reach(cfg, steps, more);
  }

  /** A later publish attempt than this publisher's own was granted. */
  predicate IsBehind(b: Publishing, p: PublisherId) {
    p in b.publishers && b.publishers[p].event in b.outbox
    && b.publishers[p].attempt < b.outbox[b.publishers[p].event].attempts
  }

  lemma StaysBehind(b: Publishing, d: Publishing, p: PublisherId)
    requires P.PubEvolves(b, d) && IsBehind(b, p)
    ensures IsBehind(d, p)
  {
  }

  /** Once a later publish attempt was granted, nothing the earlier publisher does, however late,
      changes the outbox. */
  lemma StalePublisherIsFencedForever(cfg: Settings, steps: seq<Step>, more: seq<Step>, p: PublisherId)
    requires ValidConfig(cfg.delivery) && IsBehind(Run(cfg, INITIAL, steps).pub, p)
    ensures var t := Run(cfg, Run(cfg, INITIAL, steps), more);
            && Apply(cfg, t, SettlePublish(p)).pub.outbox == t.pub.outbox
            && Apply(cfg, t, ClaimPublish(p)).pub.outbox == t.pub.outbox
  {
    var s := Run(cfg, INITIAL, steps);
    var t := Run(cfg, s, more);
    PublishingEvolves(cfg, steps, more);
    StaysBehind(s.pub, t.pub, p);
    P.StalePublisherIsFenced(cfg, t.pub, p, t.now);
    assert Apply(cfg, t, SettlePublish(p)).pub == ApplySettlePublish(cfg, t.pub, p, t.now);
    assert Apply(cfg, t, ClaimPublish(p)).pub == ApplyClaimPublish(cfg, t.pub, p, t.now);
  }

  /** The attempt number under which a task works: only a delivery raises it. */
  function AttemptOf(x: Task): nat { if x.kind == ToDeadLetter then x.seenCount else x.seenCount + 1 }

  /** A later delivery attempt than this task's own was granted. */
  predicate IsStale(d: Delivering, t: TaskId) {
    t in d.tasks && d.tasks[t].key in d.rows && AttemptOf(d.tasks[t]) < d.rows[d.tasks[t].key].attemptCount
  }

  lemma StaysStale(d: Delivering, e: Delivering, t: TaskId)
    requires DelEvolves(d, e) && IsStale(d, t)
    ensures IsStale(e, t)
  {
  }

  lemma StaleTaskIsFenced(c: Config, d: Delivering, t: TaskId, now: nat)
    requires IsStale(d, t)
    ensures ApplyClaim(d, t, now).rows == d.rows && ApplyClaim(d, t, now).wins == d.wins
    ensures ApplySave(c, d, t, now).rows == d.rows
  {
  }

  lemma DeliveriesEvolve(cfg: Settings, steps: seq<Step>, more: seq<Step>)
    requires ValidConfig(cfg.delivery)
    ensures DelEvolves(Run(cfg, INITIAL, steps).del, Run(cfg, Run(cfg, INITIAL, steps), more).del)
  {
    Reach(cfg, steps, more);
  }

  /** Nothing a stale task does, however late, changes a row. */
  lemma StaleTaskIsFencedForever(cfg: Settings, steps: seq<Step>, more: seq<Step>, t: TaskId)
    requires ValidConfig(cfg.delivery) && IsStale(Run(cfg, INITIAL, steps).del, t)
    ensures var m := Run(cfg, Run(cfg, INITIAL, steps), more);
            && Apply(cfg, m, Claim(t)).del.rows == m.del.rows
            && Apply(cfg, m, Save(t)).del.rows == m.del.rows
  {
    var s := Run(cfg, INITIAL, steps);
    var m := Run(cfg, s, more);
    DeliveriesEvolve(cfg, steps, more);
    StaysStale(s.del, m.del, t);
    StaleTaskIsFenced(cfg.delivery, m.del, t, m.now);
    assert Apply(cfg, m, Claim(t)).del == ApplyClaim(m.del, t, m.now);
    assert Apply(cfg, m, Save(t)).del == ApplySave(cfg.delivery, m.del, t, m.now);
  }
}
