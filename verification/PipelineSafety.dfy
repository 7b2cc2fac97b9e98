/** Safety of the whole revocation pipeline, for every run of any number of publishers, consumers,
    retry passes and applications, with crashes, lost answers, duplicates and stale workers. */
module PipelineSafety {
  import opened Vocabulary
  import opened DeliveryRows
  import opened Pipeline
  import opened DeliveryInvariant
  import P = PublisherInvariant
  import L = LocalSessions
  import M = MessageSize

  // ---------------------------------------------------------------- the rest of the system

  ghost predicate AppsInv(apps: map<AppId, L.State>) {
    forall a :: a in apps ==> L.Inv(apps[a])
  }

  ghost predicate AppsEvolve(x: map<AppId, L.State>, y: map<AppId, L.State>) {
    forall a :: a in x ==> a in y && L.Evolves(x[a], y[a])
  }

  ghost predicate EventsGrow(x: map<EventId, Event>, y: map<EventId, Event>) {
    forall e :: e in x ==> e in y && y[e] == x[e]
  }

  /** The application of `k` has processed the event of `k`, with this payload. */
  ghost predicate Recorded(events: map<EventId, Event>, apps: map<AppId, L.State>, k: Key) {
    && k.event in events && k.app in apps && k.event in apps[k.app].processed
    && L.SamePayload(apps[k.app].processed[k.event], events[k.event].notice)
  }

  ghost function RecordedKeys(events: map<EventId, Event>, apps: map<AppId, L.State>): iset<Key> {
    iset k: Key | Recorded(events, apps, k)
  }

  ghost function ValidKeys(events: map<EventId, Event>, apps: map<AppId, L.State>): iset<Key> {
    iset k: Key | IsValidKey(events, apps.Keys, k)
  }

  /** An event and an application that is one of its possible targets. */
  ghost predicate IsValidKey(events: map<EventId, Event>, apps: set<AppId>, k: Key) {
    k.event in events && k.app in apps && (events[k.event].app.Some? ==> k.app == events[k.event].app.value)
  }

  ghost predicate HasCopy(copies: map<CopyId, Copy>, e: EventId) {
    exists c :: c in copies && copies[c].event == e
  }

  ghost function Accepted(copies: map<CopyId, Copy>): iset<EventId> {
    iset e: EventId | HasCopy(copies, e)
  }

  lemma OneAppEvolves(apps: map<AppId, L.State>, a: AppId, y: L.State)
    requires AppsInv(apps) && L.Inv(y) && (a in apps ==> L.Evolves(apps[a], y))
    ensures AppsInv(apps[a := y]) && AppsEvolve(apps, apps[a := y])
  {
  }

  lemma KeysGrow(events: map<EventId, Event>, apps: map<AppId, L.State>, events': map<EventId, Event>,
                 apps': map<AppId, L.State>)
    requires EventsGrow(events, events') && AppsEvolve(apps, apps')
    ensures RecordedKeys(events, apps) <= RecordedKeys(events', apps')
    ensures ValidKeys(events, apps) <= ValidKeys(events', apps')
  {
  }

  // ---------------------------------------------------------------- broker copies

  /** The applications a message concerns: its one target, or at least all that were registered when
      the message was received. */
  ghost predicate TargetsFit(e: Event, known: set<AppId>, targets: set<AppId>) {
    if e.app.Some? then targets == {e.app.value} else known <= targets
  }

  ghost predicate CopyInv(events: map<EventId, Event>, apps: set<AppId>, d: Delivering, x: Copy) {
    x.event in events
    && match x.state
       case Queued => true
       case DeadLettered => false
       case Held(Received(known)) => known <= apps
       case Held(Resolved(known, targets)) => targets <= apps && TargetsFit(events[x.event], known, targets)
       case Held(Created(known, targets, started)) =>
         && targets <= apps && TargetsFit(events[x.event], known, targets) && started.Keys <= targets
         && (forall a :: a in targets ==> Key(x.event, a) in d.rows)
         && (forall a :: a in started ==> started[a] in d.tasks && d.tasks[started[a]].key == Key(x.event, a))
       case Acked(known, targets) =>
         && TargetsFit(events[x.event], known, targets)
         && (forall a :: a in targets ==> Key(x.event, a) in d.rows && d.rows[Key(x.event, a)].status != Pending)
  }

  ghost predicate CopiesInv(events: map<EventId, Event>, apps: set<AppId>, d: Delivering, copies: map<CopyId, Copy>) {
    forall c :: c in copies ==> CopyInv(events, apps, d, copies[c])
  }

  lemma CopiesFrame(events: map<EventId, Event>, apps: set<AppId>, d: Delivering,
                    events': map<EventId, Event>, apps': set<AppId>, d': Delivering, copies: map<CopyId, Copy>)
    requires CopiesInv(events, apps, d, copies) && EventsGrow(events, events') && apps <= apps' && DelEvolves(d, d')
    ensures CopiesInv(events', apps', d', copies)
  {
  }

  /** Settled copies stay settled, and no copy is ever lost. */
  ghost predicate CopiesEvolve(x: map<CopyId, Copy>, y: map<CopyId, Copy>) {
    forall c :: c in x ==> c in y && y[c].event == x[c].event && (x[c].state.Acked? ==> y[c] == x[c])
  }

  // ---------------------------------------------------------------- invariant

  ghost predicate EventsFit(events: map<EventId, Event>, apps: set<AppId>, outbox: map<EventId, OutboxRow>) {
    && outbox.Keys == events.Keys
    && forall e :: e in events ==>
       events[e].notice.eventId == e && (events[e].app.Some? ==> events[e].app.value in apps)
  }

  /** A producer wrote the payload, and notice and target are those it names. */
  ghost predicate IsGenuine(cfg: Settings, e: Event) {
    M.IsProduced(cfg.iso, e.payload) && IsDescribed(cfg.names, e)
  }

  ghost predicate PayloadsFit(cfg: Settings, events: map<EventId, Event>) {
    forall e {:trigger IsGenuine(cfg, events[e])} :: e in events ==> IsGenuine(cfg, events[e])
  }

  ghost predicate Inv(cfg: Settings, s: State) {
    && PayloadsFit(cfg, s.events)
    && EventsFit(s.events, s.apps.Keys, s.pub.outbox)
    && AppsInv(s.apps)
    && P.PubInv(s.pub, Accepted(s.copies))
    && CopiesInv(s.events, s.apps.Keys, s.del, s.copies)
    && DelInv(cfg.delivery, s.del, ValidKeys(s.events, s.apps), RecordedKeys(s.events, s.apps))
  }

  ghost predicate Evolves(s: State, t: State) {
    && EventsGrow(s.events, t.events)
    && AppsEvolve(s.apps, t.apps)
    && P.PubEvolves(s.pub, t.pub)
    && CopiesEvolve(s.copies, t.copies)
    && DelEvolves(s.del, t.del)
  }

  lemma SameEvolves(s: State)
    ensures Evolves(s, s)
  {
  }

  lemma EvolvesTransitive(a: State, b: State, c: State)
    requires Evolves(a, b) && Evolves(b, c)
    ensures Evolves(a, c)
  {
    forall x | x in a.apps ensures x in c.apps && L.Evolves(a.apps[x], c.apps[x]) {
      L.EvolvesTransitive(a.apps[x], b.apps[x], c.apps[x]);
    }
    P.PubEvolvesTransitive(a.pub, b.pub, c.pub);
    DelEvolvesTransitive(a.del, b.del, c.del);
    forall x | x in a.copies
      ensures x in c.copies && c.copies[x].event == a.copies[x].event
              && (a.copies[x].state.Acked? ==> c.copies[x] == a.copies[x])
    {
      assert x in b.copies;
    }
  }

  // ---------------------------------------------------------------- steps that leave all but one part alone

  lemma DelOnly(cfg: Settings, s: State, d: Delivering)
    requires Inv(cfg, s) && DelEvolves(s.del, d)
    requires DelInv(cfg.delivery, d, ValidKeys(s.events, s.apps), RecordedKeys(s.events, s.apps))
    ensures Inv(cfg, s.(del := d)) && Evolves(s, s.(del := d))
  {
    SameEvolves(s);
    CopiesFrame(s.events, s.apps.Keys, s.del, s.events, s.apps.Keys, d, s.copies);
  }

  lemma PubOnly(cfg: Settings, s: State, b: Publishing)
    requires Inv(cfg, s) && P.PubEvolves(s.pub, b) && P.PubInv(b, Accepted(s.copies))
             && b.outbox.Keys == s.pub.outbox.Keys
    ensures Inv(cfg, s.(pub := b)) && Evolves(s, s.(pub := b))
  {
    SameEvolves(s);
  }

  lemma AppsOnly(cfg: Settings, s: State, a: AppId, y: L.State)
    requires Inv(cfg, s) && L.Inv(y) && (a in s.apps ==> L.Evolves(s.apps[a], y))
    ensures var t := s.(apps := s.apps[a := y]); Inv(cfg, t) && Evolves(s, t)
  {
    var t := s.(apps := s.apps[a := y]);
    SameEvolves(s);
    OneAppEvolves(s.apps, a, y);
    KeysGrow(s.events, s.apps, t.events, t.apps);
    DelFrame(cfg.delivery, s.del, ValidKeys(s.events, s.apps), RecordedKeys(s.events, s.apps),
             ValidKeys(t.events, t.apps), RecordedKeys(t.events, t.apps));
    CopiesFrame(s.events, s.apps.Keys, s.del, t.events, t.apps.Keys, t.del, s.copies);
  }

  /** One broker copy is created or changes its state; an acknowledged copy never does. */
  lemma CopyOnly(cfg: Settings, s: State, c: CopyId, y: Copy)
    requires Inv(cfg, s) && CopyInv(s.events, s.apps.Keys, s.del, y)
    requires c in s.copies ==> s.copies[c].event == y.event && !s.copies[c].state.Acked?
    ensures var t := s.(copies := s.copies[c := y]); Inv(cfg, t) && Evolves(s, t) && y.event in Accepted(t.copies)
  {
    var t := s.(copies := s.copies[c := y]);
    SameEvolves(s);
    assert t.copies[c].event == y.event;
    forall e | e in Accepted(s.copies) ensures e in Accepted(t.copies) {
      var x :| x in s.copies && s.copies[x].event == e;
      assert x in t.copies && t.copies[x].event == e;
    }
    P.PubFrame(s.pub, Accepted(s.copies), Accepted(t.copies));
  }

  // ---------------------------------------------------------------- steps

  lemma MoreEvents(cfg: Settings, s: State, id: EventId, e: Event)
    requires Inv(cfg, s) && id !in s.events
    ensures var events := s.events[id := e];
            && DelInv(cfg.delivery, s.del, ValidKeys(events, s.apps), RecordedKeys(events, s.apps))
            && CopiesInv(events, s.apps.Keys, s.del, s.copies)
  {
    var events := s.events[id := e];
    SameEvolves(s);
    KeysGrow(s.events, s.apps, events, s.apps);
    DelFrame(cfg.delivery, s.del, ValidKeys(s.events, s.apps), RecordedKeys(s.events, s.apps),
             ValidKeys(events, s.apps), RecordedKeys(events, s.apps));
    CopiesFrame(s.events, s.apps.Keys, s.del, events, s.apps.Keys, s.del, s.copies);
  }

  lemma MorePayloads(cfg: Settings, events: map<EventId, Event>, id: EventId, e: Event)
    requires PayloadsFit(cfg, events) && IsGenuine(cfg, e)
    ensures PayloadsFit(cfg, events[id := e])
  {
  }

  lemma MoreOutbox(s: State, id: EventId, e: Event)
    requires EventsFit(s.events, s.apps.Keys, s.pub.outbox) && e.notice.eventId == id
    requires e.app.Some? ==> e.app.value in s.apps
    ensures EventsFit(s.events[id := e], s.apps.Keys, s.pub.outbox[id := OutboxRow(false, 0, None)])
  {
  }

  lemma CommittedKeeps(cfg: Settings, s: State, e: Event)
    requires Inv(cfg, s) && e.notice.eventId !in s.events && (e.app.Some? ==> e.app.value in s.apps)
    requires PayloadsFit(cfg, s.events[e.notice.eventId := e])
    ensures Inv(cfg, Committed(s, e.notice.eventId, e))
  {
    var id := e.notice.eventId;
    var t := Committed(s, id, e);
    P.OutboxStep(s.pub, Accepted(s.copies), id, OutboxRow(false, 0, None));
    assert P.PubInv(t.pub, Accepted(t.copies));
    MoreOutbox(s, id, e);
    MoreEvents(cfg, s, id, e);
  }

  lemma CommittedEvolves(cfg: Settings, s: State, e: Event)
    requires Inv(cfg, s) && e.notice.eventId !in s.events
    ensures Evolves(s, Committed(s, e.notice.eventId, e))
  {
    SameEvolves(s);
    P.OutboxStep(s.pub, Accepted(s.copies), e.notice.eventId, OutboxRow(false, 0, None));
  }

  lemma CommitStep(cfg: Settings, s: State, e: Event)
    requires Inv(cfg, s)
    ensures Inv(cfg, ApplyCommit(cfg, s, e)) && Evolves(s, ApplyCommit(cfg, s, e))
  {
    var id := e.notice.eventId;
    if id in s.events || (e.app.Some? && e.app.value !in s.apps) || !M.IsProduced(cfg.iso, e.payload)
        || !IsDescribed(cfg.names, e) {
      SameEvolves(s);
    } else {
      MorePayloads(cfg, s.events, id, e);
      CommittedKeeps(cfg, s, e);
      CommittedEvolves(cfg, s, e);
    }
  }

  lemma SendStep(cfg: Settings, s: State, p: PublisherId, newCopy: Option<CopyId>, confirmed: bool)
    requires Inv(cfg, s)
    ensures Inv(cfg, ApplySend(s, p, newCopy, confirmed)) && Evolves(s, ApplySend(s, p, newCopy, confirmed))
  {
    if p !in s.pub.publishers || s.pub.publishers[p].phase != Claimed
       || (confirmed && newCopy.None?) || (newCopy.Some? && newCopy.value in s.copies) {
      SameEvolves(s);
    } else {
      var x := s.pub.publishers[p];
      assert P.PublisherFits(s.pub, Accepted(s.copies), x);
      var m := if newCopy.Some? then s.(copies := s.copies[newCopy.value := Copy(x.event, Queued)]) else s;
      if newCopy.Some? {
        CopyOnly(cfg, s, newCopy.value, Copy(x.event, Queued));
      } else {
        SameEvolves(s);
      }
      P.MoveStep(m.pub, Accepted(m.copies), p, x.(phase := Sent(confirmed)));
      var b := m.pub.(publishers := m.pub.publishers[p := x.(phase := Sent(confirmed))]);
      PubOnly(cfg, m, b);
      EvolvesTransitive(s, m, m.(pub := b));
      assert ApplySend(s, p, newCopy, confirmed) == m.(pub := b);
    }
  }

  lemma ConsumerStep(cfg: Settings, s: State, c: CopyId, state: CopyState)
    requires Inv(cfg, s) && c in s.copies && !s.copies[c].state.Acked?
    requires CopyInv(s.events, s.apps.Keys, s.del, s.copies[c].(state := state))
    ensures var t := s.(copies := s.copies[c := s.copies[c].(state := state)]); Inv(cfg, t) && Evolves(s, t)
  {
    CopyOnly(cfg, s, c, s.copies[c].(state := state));
  }

  lemma NeverRefused(cfg: Settings, s: State, e: EventId)
    requires EventsFit(s.events, s.apps.Keys, s.pub.outbox) && PayloadsFit(cfg, s.events) && e in s.events
    ensures !IsRefused(cfg, s.apps.Keys, s.events[e])
  {
    assert IsGenuine(cfg, s.events[e]);
    M.ProducedEventsAccepted(cfg.iso, s.events[e].payload);
  }

  /** No message of a committed event is ever rejected: it passes every check of the worker, and its
      target application exists. */
  lemma RejectStep(cfg: Settings, s: State, c: CopyId)
    requires Inv(cfg, s)
    ensures ApplyReject(cfg, s, c) == s
  {
    if c in s.copies && s.copies[c].event in s.events {
      NeverRefused(cfg, s, s.copies[c].event);
    }
  }

  lemma TakeKeeps(cfg: Settings, s: State, c: CopyId)
    requires Inv(cfg, s)
    ensures Inv(cfg, ApplyTake(s, c)) && Evolves(s, ApplyTake(s, c))
  {
    if c in s.copies && s.copies[c].state == Queued {
      assert CopyInv(s.events, s.apps.Keys, s.del, s.copies[c]);
      ConsumerStep(cfg, s, c, Held(Received(s.apps.Keys)));
    } else {
      SameEvolves(s);
    }
  }

  lemma RequeueKeeps(cfg: Settings, s: State, c: CopyId)
    requires Inv(cfg, s)
    ensures Inv(cfg, ApplyRequeue(s, c)) && Evolves(s, ApplyRequeue(s, c))
  {
    if c in s.copies && s.copies[c].state.Held? {
      assert CopyInv(s.events, s.apps.Keys, s.del, s.copies[c]);
      ConsumerStep(cfg, s, c, Queued);
    } else {
      SameEvolves(s);
    }
  }

  lemma ResolveEffect(cfg: Settings, s: State, c: CopyId)
    requires c in s.copies && s.copies[c].event in s.events && s.copies[c].state.Held?
    requires s.copies[c].state.work.Received? && !IsRefused(cfg, s.apps.Keys, s.events[s.copies[c].event])
    ensures var x := s.copies[c];
            var targets := Targets(s.events[x.event], s.apps.Keys);
            var y := x.(state := Held(Resolved(x.state.work.known, targets)));
            ApplyResolve(cfg, s, c) == s.(copies := s.copies[c := y])
  {
  }

  lemma ResolvedFits(cfg: Settings, s: State, c: CopyId)
    requires Inv(cfg, s) && c in s.copies && s.copies[c].state.Held? && s.copies[c].state.work.Received?
    ensures var x := s.copies[c];
            && x.event in s.events
            && var targets := Targets(s.events[x.event], s.apps.Keys);
               CopyInv(s.events, s.apps.Keys, s.del, x.(state := Held(Resolved(x.state.work.known, targets))))
  {
    assert CopyInv(s.events, s.apps.Keys, s.del, s.copies[c]);
  }

  lemma ResolveKeeps(cfg: Settings, s: State, c: CopyId)
    requires Inv(cfg, s)
    ensures Inv(cfg, ApplyResolve(cfg, s, c)) && Evolves(s, ApplyResolve(cfg, s, c))
  {
    if c in s.copies && s.copies[c].state.Held? && s.copies[c].state.work.Received? {
      var x := s.copies[c];
      ResolvedFits(cfg, s, c);
      NeverRefused(cfg, s, x.event);
      ResolveEffect(cfg, s, c);
      ConsumerStep(cfg, s, c, Held(Resolved(x.state.work.known, Targets(s.events[x.event], s.apps.Keys))));
    } else {
      SameEvolves(s);
    }
  }

  lemma CreateRowsKeeps(cfg: Settings, s: State, c: CopyId)
    requires Inv(cfg, s)
    ensures Inv(cfg, ApplyCreateRows(s, c)) && Evolves(s, ApplyCreateRows(s, c))
  {
    if c in s.copies && s.copies[c].state.Held? && s.copies[c].state.work.Resolved? {
      var x := s.copies[c];
      var w := x.state.work;
      assert CopyInv(s.events, s.apps.Keys, s.del, x);
      var d := s.del.(rows := NewRows(s.del.rows, x.event, w.targets));
      CreateRowsStep(cfg.delivery, s.del, ValidKeys(s.events, s.apps), RecordedKeys(s.events, s.apps), x.event,
                     w.targets);
      DelThenCopy(cfg, s, d, c, Held(Created(w.known, w.targets, map[])));
    } else {
      SameEvolves(s);
    }
  }

  lemma StartedCopy(events: map<EventId, Event>, apps: set<AppId>, d: Delivering, x: Copy, a: AppId, t: TaskId, y: Task)
    requires CopyInv(events, apps, d, x) && x.state.Held? && x.state.work.Created?
    requires a in x.state.work.targets && t !in d.tasks && y.key == Key(x.event, a)
    ensures var w := x.state.work;
            CopyInv(events, apps, d.(tasks := d.tasks[t := y]),
                    x.(state := Held(Created(w.known, w.targets, w.started[a := t]))))
  {
  }

  lemma StartTaskKeeps(cfg: Settings, s: State, c: CopyId, a: AppId, t: TaskId)
    requires Inv(cfg, s)
    ensures Inv(cfg, ApplyStartTask(s, c, a, t)) && Evolves(s, ApplyStartTask(s, c, a, t))
  {
    if c in s.copies && s.copies[c].state.Held? && s.copies[c].state.work.Created?
       && a in s.copies[c].state.work.targets && a !in s.copies[c].state.work.started
       && t !in s.del.tasks && Key(s.copies[c].event, a) in s.del.rows
    {
      var x := s.copies[c];
      var w := x.state.work;
      var k := Key(x.event, a);
      var y := Task(k, FromMessage, s.del.rows[k].status, s.del.rows[k].attemptCount, s.now, Ready);
      var d := s.del.(tasks := s.del.tasks[t := y]);
      assert CopyInv(s.events, s.apps.Keys, s.del, x);
      StartedCopy(s.events, s.apps.Keys, s.del, x, a, t, y);
      FreshTask(cfg.delivery, s.del, ValidKeys(s.events, s.apps), RecordedKeys(s.events, s.apps), y);
      NewTaskStep(cfg.delivery, s.del, ValidKeys(s.events, s.apps), RecordedKeys(s.events, s.apps), t, y);
      DelThenCopy(cfg, s, d, c, Held(Created(w.known, w.targets, w.started[a := t])));
    } else {
      SameEvolves(s);
    }
  }

  lemma DelThenCopy(cfg: Settings, s: State, d: Delivering, c: CopyId, state: CopyState)
    requires Inv(cfg, s) && DelEvolves(s.del, d) && c in s.copies && !s.copies[c].state.Acked?
    requires DelInv(cfg.delivery, d, ValidKeys(s.events, s.apps), RecordedKeys(s.events, s.apps))
    requires CopyInv(s.events, s.apps.Keys, d, s.copies[c].(state := state))
    ensures var t := s.(del := d, copies := s.copies[c := s.copies[c].(state := state)]); Inv(cfg, t) && Evolves(s, t)
  {
    var m := s.(del := d);
    DelOnly(cfg, s, d);
    ConsumerStep(cfg, m, c, state);
    EvolvesTransitive(s, m, m.(copies := m.copies[c := m.copies[c].(state := state)]));
  }

  /** When every task of a message has ended without an error, every row is past PENDING. */
  lemma AckKeeps(cfg: Settings, s: State, c: CopyId)
    requires Inv(cfg, s)
    ensures Inv(cfg, ApplyAck(s, c)) && Evolves(s, ApplyAck(s, c))
  {
    SameEvolves(s);
    if ApplyAck(s, c) != s {
      var x := s.copies[c];
      var w := x.state.work;
      assert CopyInv(s.events, s.apps.Keys, s.del, x);
      forall a | a in w.targets ensures Key(x.event, a) in s.del.rows && s.del.rows[Key(x.event, a)].status != Pending {
        assert a in w.started;
        assert TaskInv(cfg.delivery, s.del, RecordedKeys(s.events, s.apps), s.del.tasks[w.started[a]]);
      }
      ConsumerStep(cfg, s, c, Acked(w.known, w.targets));
    }
  }

  lemma DeliverKeeps(x: L.State, e: L.Notice)
    requires L.Inv(x)
    ensures L.Inv(L.Deliver(x, e).0) && L.Evolves(x, L.Deliver(x, e).0)
  {
    L.ApplyStep(x, L.Receive(e));
    assert L.Apply(x, L.Receive(e)) == L.Deliver(x, e).0;
  }

  lemma DeliveredIsRecorded(events: map<EventId, Event>, apps: map<AppId, L.State>, k: Key)
    requires k.event in events && events[k.event].notice.eventId == k.event && k.app in apps
    requires L.Deliver(apps[k.app], events[k.event].notice).1 != L.Conflict
    ensures Recorded(events, apps[k.app := L.Deliver(apps[k.app], events[k.event].notice).0], k)
  {
  }

  lemma EventsNamed(cfg: Settings, s: State, e: EventId)
    requires Inv(cfg, s) && e in s.events
    ensures s.events[e].notice.eventId == e
  {
  }

  lemma AppsSound(cfg: Settings, s: State, a: AppId)
    requires Inv(cfg, s) && a in s.apps
    ensures L.Inv(s.apps[a])
  {
  }

  function Executed(s: State, k: Key): State
    requires k.app in s.apps && k.event in s.events
  {
    s.(apps := s.apps[k.app := L.Deliver(s.apps[k.app], s.events[k.event].notice).0])
  }

  /** The application's half of a request. */
  lemma ExecuteStep(cfg: Settings, s: State, k: Key)
    requires Inv(cfg, s) && k.app in s.apps && k.event in s.events
    ensures Inv(cfg, Executed(s, k)) && Evolves(s, Executed(s, k))
    ensures L.Deliver(s.apps[k.app], s.events[k.event].notice).1 != L.Conflict ==>
              k in RecordedKeys(s.events, Executed(s, k).apps)
  {
    var x, e := s.apps[k.app], s.events[k.event].notice;
    AppsSound(cfg, s, k.app);
    EventsNamed(cfg, s, k.event);
    DeliverKeeps(x, e);
    AppsOnly(cfg, s, k.app, L.Deliver(x, e).0);
    if L.Deliver(x, e).1 != L.Conflict {
      DeliveredIsRecorded(s.events, s.apps, k);
    }
  }

  lemma AnswerKeeps(cfg: Settings, s: State, t: TaskId, ok: bool)
    requires Inv(cfg, s) && t in s.del.tasks && s.del.tasks[t].phase == Working && s.del.tasks[t].kind != ToDeadLetter
    requires ok ==> s.del.tasks[t].key in RecordedKeys(s.events, s.apps)
    ensures var m := s.(del := Progress(s.del, t, Answered(ok))); Inv(cfg, m) && Evolves(s, m)
  {
    AnswerStep(cfg.delivery, s.del, ValidKeys(s.events, s.apps), RecordedKeys(s.events, s.apps), t, ok);
    DelOnly(cfg, s, Progress(s.del, t, Answered(ok)));
  }

  lemma RequestStep(cfg: Settings, s: State, t: TaskId, executed: bool, answered: bool)
    requires Inv(cfg, s)
    ensures Inv(cfg, ApplyRequest(s, t, executed, answered)) && Evolves(s, ApplyRequest(s, t, executed, answered))
  {
    if t !in s.del.tasks || s.del.tasks[t].phase != Working || s.del.tasks[t].kind == ToDeadLetter
       || s.del.tasks[t].key.app !in s.apps || s.del.tasks[t].key.event !in s.events {
      SameEvolves(s);
    } else if !executed {
      AnswerKeeps(cfg, s, t, false);
    } else {
      var k := s.del.tasks[t].key;
      var result := L.Deliver(s.apps[k.app], s.events[k.event].notice);
      var m := Executed(s, k);
      var ok := answered && result.1 != L.Conflict;
      ExecuteStep(cfg, s, k);
      AnswerKeeps(cfg, m, t, ok);
      EvolvesTransitive(s, m, m.(del := Progress(m.del, t, Answered(ok))));
    }
  }

  lemma RecoverKeeps(cfg: Settings, s: State, k: Key, at: nat)
    requires Inv(cfg, s)
    ensures Inv(cfg, Apply(cfg, s, RecoverRow(k, at))) && Evolves(s, Apply(cfg, s, RecoverRow(k, at)))
  {
    RecoverStep(cfg.delivery, s.del, ValidKeys(s.events, s.apps), RecordedKeys(s.events, s.apps), k, at, s.now);
    DelOnly(cfg, s, ApplyRecover(s.del, k, at, s.now));
  }

  lemma PickRetryKeeps(cfg: Settings, s: State, t: TaskId, k: Key, at: nat)
    requires Inv(cfg, s)
    ensures Inv(cfg, Apply(cfg, s, PickRetry(t, k, at))) && Evolves(s, Apply(cfg, s, PickRetry(t, k, at)))
  {
    PickRetryStep(cfg.delivery, s.del, ValidKeys(s.events, s.apps), RecordedKeys(s.events, s.apps), t, k, at, s.now);
    DelOnly(cfg, s, ApplyPickRetry(cfg.delivery, s.del, t, k, at, s.now));
  }

  lemma ClaimKeeps(cfg: Settings, s: State, t: TaskId)
    requires ValidConfig(cfg.delivery) && Inv(cfg, s)
    ensures Inv(cfg, Apply(cfg, s, Claim(t))) && Evolves(s, Apply(cfg, s, Claim(t)))
  {
    ClaimStep(cfg.delivery, s.del, ValidKeys(s.events, s.apps), RecordedKeys(s.events, s.apps), t, s.now);
    DelOnly(cfg, s, ApplyClaim(s.del, t, s.now));
  }

  lemma PublishDeadLetterKeeps(cfg: Settings, s: State, t: TaskId, stored: bool, confirmed: bool)
    requires Inv(cfg, s)
    ensures var m := Apply(cfg, s, PublishDeadLetter(t, stored, confirmed)); Inv(cfg, m) && Evolves(s, m)
  {
    PublishDeadLetterStep(cfg.delivery, s.del, ValidKeys(s.events, s.apps), RecordedKeys(s.events, s.apps), t, stored,
                          confirmed);
    DelOnly(cfg, s, ApplyPublishDeadLetter(s.del, t, stored, confirmed));
  }

  lemma SaveKeeps(cfg: Settings, s: State, t: TaskId)
    requires Inv(cfg, s)
    ensures Inv(cfg, Apply(cfg, s, Save(t))) && Evolves(s, Apply(cfg, s, Save(t)))
  {
    SaveStep(cfg.delivery, s.del, ValidKeys(s.events, s.apps), RecordedKeys(s.events, s.apps), t, s.now);
    DelOnly(cfg, s, ApplySave(cfg.delivery, s.del, t, s.now));
  }

  lemma WorkerStep(cfg: Settings, s: State, step: Step)
    requires ValidConfig(cfg.delivery) && Inv(cfg, s)
    requires step.RecoverRow? || step.PickRetry? || step.Claim? || step.PublishDeadLetter? || step.Save?
             || step.Request?
    ensures Inv(cfg, Apply(cfg, s, step)) && Evolves(s, Apply(cfg, s, step))
  {
    match step
    case RecoverRow(k, at) => RecoverKeeps(cfg, s, k, at);
    case PickRetry(t, k, at) => PickRetryKeeps(cfg, s, t, k, at);
    case Claim(t) => ClaimKeeps(cfg, s, t);
    case PublishDeadLetter(t, stored, confirmed) => PublishDeadLetterKeeps(cfg, s, t, stored, confirmed);
    case Save(t) => SaveKeeps(cfg, s, t);
    case Request(t, executed, answered) => RequestStep(cfg, s, t, executed, answered);
  }

  lemma ChooseKeeps(cfg: Settings, s: State, p: PublisherId, e: EventId)
    requires Inv(cfg, s)
    ensures Inv(cfg, Apply(cfg, s, Choose(p, e))) && Evolves(s, Apply(cfg, s, Choose(p, e)))
  {
    P.ChooseStep(s.pub, Accepted(s.copies), p, e, s.now);
    PubOnly(cfg, s, ApplyChoose(s.pub, p, e, s.now));
  }

  lemma ClaimPublishKeeps(cfg: Settings, s: State, p: PublisherId)
    requires Inv(cfg, s)
    ensures Inv(cfg, Apply(cfg, s, ClaimPublish(p))) && Evolves(s, Apply(cfg, s, ClaimPublish(p)))
  {
    P.ClaimPublishStep(cfg, s.pub, Accepted(s.copies), p, s.now);
    PubOnly(cfg, s, ApplyClaimPublish(cfg, s.pub, p, s.now));
  }

  lemma SettlePublishKeeps(cfg: Settings, s: State, p: PublisherId)
    requires Inv(cfg, s)
    ensures Inv(cfg, Apply(cfg, s, SettlePublish(p))) && Evolves(s, Apply(cfg, s, SettlePublish(p)))
  {
    P.SettlePublishStep(cfg, s.pub, Accepted(s.copies), p, s.now);
    PubOnly(cfg, s, ApplySettlePublish(cfg, s.pub, p, s.now));
  }

  lemma PublisherStep(cfg: Settings, s: State, step: Step)
    requires Inv(cfg, s)
    requires step.Choose? || step.ClaimPublish? || step.SettlePublish? || step.Send? || step.Commit?
    ensures Inv(cfg, Apply(cfg, s, step)) && Evolves(s, Apply(cfg, s, step))
  {
    match step
    case Commit(e) => CommitStep(cfg, s, e);
    case Choose(p, e) => ChooseKeeps(cfg, s, p, e);
    case ClaimPublish(p) => ClaimPublishKeeps(cfg, s, p);
    case Send(p, newCopy, confirmed) => SendStep(cfg, s, p, newCopy, confirmed);
    case SettlePublish(p) => SettlePublishKeeps(cfg, s, p);
  }

  lemma ConsumerSteps(cfg: Settings, s: State, step: Step)
    requires Inv(cfg, s)
    requires step.Take? || step.Resolve? || step.CreateRows? || step.StartTask?
    ensures Inv(cfg, Apply(cfg, s, step)) && Evolves(s, Apply(cfg, s, step))
  {
    match step
    case Take(c) => TakeKeeps(cfg, s, c);
    case Resolve(c) => ResolveKeeps(cfg, s, c);
    case CreateRows(c) => CreateRowsKeeps(cfg, s, c);
    case StartTask(c, a, t) => StartTaskKeeps(cfg, s, c, a, t);
  }

  lemma SettlingSteps(cfg: Settings, s: State, step: Step)
    requires Inv(cfg, s)
    requires step.Reject? || step.Ack? || step.Requeue?
    ensures Inv(cfg, Apply(cfg, s, step)) && Evolves(s, Apply(cfg, s, step))
  {
    match step
    case Reject(c) =>
      RejectStep(cfg, s, c);
      SameEvolves(s);
    case Ack(c) => AckKeeps(cfg, s, c);
    case Requeue(c) => RequeueKeeps(cfg, s, c);
  }

  lemma OutsideStep(cfg: Settings, s: State, step: Step)
    requires Inv(cfg, s)
    requires step.Tick? || step.Register? || step.AppStep?
    ensures Inv(cfg, Apply(cfg, s, step)) && Evolves(s, Apply(cfg, s, step))
  {
    SameEvolves(s);
    match step
    case Tick(_) =>
    case Register(a) =>
      if a !in s.apps {
        AppsOnly(cfg, s, a, L.EMPTY);
      }
    case AppStep(a, op) =>
      if a in s.apps && IsOwnOp(cfg, op) {
        L.ApplyStep(s.apps[a], op);
        AppsOnly(cfg, s, a, L.Apply(s.apps[a], op));
      }
  }

  /** Every step of every participant keeps the invariant, and undoes nothing that is final. */
  lemma StepKeeps(cfg: Settings, s: State, step: Step)
    requires ValidConfig(cfg.delivery) && Inv(cfg, s)
    ensures Inv(cfg, Apply(cfg, s, step)) && Evolves(s, Apply(cfg, s, step))
  {
    if step.Tick? || step.Register? || step.AppStep? {
      OutsideStep(cfg, s, step);
    } else if step.Choose? || step.ClaimPublish? || step.SettlePublish? || step.Send? || step.Commit? {
      PublisherStep(cfg, s, step);
    } else if step.Take? || step.Resolve? || step.CreateRows? || step.StartTask? {
      ConsumerSteps(cfg, s, step);
    } else if step.Reject? || step.Ack? || step.Requeue? {
      SettlingSteps(cfg, s, step);
    } else {
      WorkerStep(cfg, s, step);
    }
  }

  lemma {:induction false} RunKeeps(cfg: Settings, s: State, steps: seq<Step>)
    requires ValidConfig(cfg.delivery) && Inv(cfg, s)
    ensures Inv(cfg, Run(cfg, s, steps)) && Evolves(s, Run(cfg, s, steps))
    decreases steps
  {
    SameEvolves(s);
    if steps != [] {
      var m := Apply(cfg, s, steps[0]);
      StepKeeps(cfg, s, steps[0]);
      RunKeeps(cfg, m, steps[1..]);
      EvolvesTransitive(s, m, Run(cfg, s, steps));
    }
  }

  lemma InitiallyInv(cfg: Settings)
    ensures Inv(cfg, INITIAL)
  {
  }
}
