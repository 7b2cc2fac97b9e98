/** The revocation pipeline as one transition system: outbox publishers, the broker, the consumers
    and retry passes of the Sync Worker, and the relying applications. Every database statement and
    every remote call is a step of its own, so steps of different workers interleave freely. A
    process that crashes simply takes no further step; a broker copy it held returns to the queue. */
module Pipeline {
  import opened Vocabulary
  import opened DeliveryRows
  import Backoff
  import L = LocalSessions
  import C = EventContract
  import M = MessageSize
  import N = Naming

  type EventId = L.EventId
  type AppId = nat
  type TaskId = nat
  type CopyId = nat
  type PublisherId = nat

  /** An outbox row: what applications read of it, its one target, if any, and its payload as text. */
  datatype Event = Event(notice: L.Notice, app: Option<AppId>, payload: M.Enqueuing)

  // ---------------------------------------------------------------- publishing

  datatype OutboxRow = OutboxRow(published: bool, attempts: nat, nextAttemptAt: Option<nat>)

  datatype PublisherPhase = Chosen | Claimed | Sent(ok: bool) | Finished

  /** A publisher at work on one candidate; `attempt` is one more than the count it read. */
  datatype Publisher = Publisher(event: EventId, attempt: nat, phase: PublisherPhase)

  datatype PublishWin = PublishWin(event: EventId, attempt: nat, winner: PublisherId)

  datatype Publishing = Publishing(
    outbox: map<EventId, OutboxRow>,
    publishers: map<PublisherId, Publisher>,
    wins: set<PublishWin>)

  // ---------------------------------------------------------------- the broker and its consumers

  /** How far a consumer has come with a message. `known` is history: the applications registered
      when the message was received. `started` maps each target to the task that delivers to it. */
  datatype Work =
    | Received(known: set<AppId>)
    | Resolved(known: set<AppId>, targets: set<AppId>)
    | Created(known: set<AppId>, targets: set<AppId>, started: map<AppId, TaskId>)

  datatype CopyState = Queued | Held(work: Work) | Acked(known: set<AppId>, targets: set<AppId>) | DeadLettered

  datatype Copy = Copy(event: EventId, state: CopyState)

  // ---------------------------------------------------------------- delivering

  datatype Key = Key(event: EventId, app: AppId)

  datatype TaskKind = FromMessage | FromRetry | ToDeadLetter

  datatype TaskPhase = Ready | Working | Answered(ok: bool) | Ended(threw: bool)

  /** A worker's handling of one row; `seenStatus` and `seenCount` are what it read, and `startedAt`
      is the time its retry pass began. */
  datatype Task = Task(key: Key, kind: TaskKind, seenStatus: DeliveryStatus, seenCount: nat, startedAt: nat,
                       phase: TaskPhase)

  datatype DeadLetter = DeadLetter(key: Key, attemptCount: nat)

  datatype DeliveryWin = DeliveryWin(key: Key, attempt: nat, winner: TaskId)

  /** `deadLetters` are the messages stored in the dead-letter queue. `redeliveries` is history: how
      often a redelivered message claimed a row that was RETRYING. */
  datatype Delivering = Delivering(
    rows: map<Key, Row>,
    tasks: map<TaskId, Task>,
    deadLetters: set<DeadLetter>,
    wins: set<DeliveryWin>,
    redeliveries: map<Key, nat>)

  datatype State = State(
    now: nat,
    events: map<EventId, Event>,
    pub: Publishing,
    copies: map<CopyId, Copy>,
    apps: map<AppId, L.State>,
    del: Delivering)

  datatype Settings = Settings(delivery: Config, leaseMs: nat, publishBaseMs: nat, publishMaxMs: nat, iso: C.Clock,
                               names: N.Names)

  const INITIAL := State(0, map[], Publishing(map[], map[], {}), map[], map[], Delivering(map[], map[], {}, {}, map[]))

  // ---------------------------------------------------------------- steps

  datatype Step =
    | Tick(elapsed: nat)
    | Commit(event: Event)
    | Register(app: AppId)
    | AppStep(app: AppId, op: L.Op)
    | Choose(publisher: PublisherId, candidate: EventId)
    | ClaimPublish(publisher: PublisherId)
    | Send(publisher: PublisherId, newCopy: Option<CopyId>, confirmed: bool)
    | SettlePublish(publisher: PublisherId)
    | Take(copy: CopyId)
    | Reject(copy: CopyId)
    | Resolve(copy: CopyId)
    | CreateRows(copy: CopyId)
    | StartTask(copy: CopyId, app: AppId, task: TaskId)
    | Ack(copy: CopyId)
    | Requeue(copy: CopyId)
    | RecoverRow(key: Key, passAt: nat)
    | PickRetry(task: TaskId, key: Key, passAt: nat)
    | Claim(task: TaskId)
    | Request(task: TaskId, executed: bool, answered: bool)
    | PublishDeadLetter(task: TaskId, stored: bool, confirmed: bool)
    | Save(task: TaskId)

  ghost function Apply(cfg: Settings, s: State, step: Step): State {
    match step
    case Tick(d) => s.(now := s.now + d)
    case Commit(e) => ApplyCommit(cfg, s, e)
    case Register(a) => if a in s.apps then s else s.(apps := s.apps[a := L.EMPTY])
    case AppStep(a, op) => if a in s.apps && IsOwnOp(cfg, op) then s.(apps := s.apps[a := L.Apply(s.apps[a], op)])
        else s
    case Choose(p, e) => s.(pub := ApplyChoose(s.pub, p, e, s.now))
    case ClaimPublish(p) => s.(pub := ApplyClaimPublish(cfg, s.pub, p, s.now))
    case Send(p, stored, confirmed) => ApplySend(s, p, stored, confirmed)
    case SettlePublish(p) => s.(pub := ApplySettlePublish(cfg, s.pub, p, s.now))
    case Take(c) => ApplyTake(s, c)
    case Reject(c) => ApplyReject(cfg, s, c)
    case Resolve(c) => ApplyResolve(cfg, s, c)
    case CreateRows(c) => ApplyCreateRows(s, c)
    case StartTask(c, a, t) => ApplyStartTask(s, c, a, t)
    case Ack(c) => ApplyAck(s, c)
    case Requeue(c) => ApplyRequeue(s, c)
    case RecoverRow(k, at) => s.(del := ApplyRecover(s.del, k, at, s.now))
    case PickRetry(t, k, at) => s.(del := ApplyPickRetry(cfg.delivery, s.del, t, k, at, s.now))
    case Claim(t) => s.(del := ApplyClaim(s.del, t, s.now))
    case Request(t, executed, answered) => ApplyRequest(s, t, executed, answered)
    case PublishDeadLetter(t, stored, confirmed) => s.(del := ApplyPublishDeadLetter(s.del, t, stored, confirmed))
    case Save(t) => s.(del := ApplySave(cfg.delivery, s.del, t, s.now))
  }

  /** Whatever an application does by itself or at the request of others. The digest of an event it
      receives is one it computed. */
  ghost predicate IsOwnOp(cfg: Settings, op: L.Op) { op.Receive? ==> N.IsHonest(cfg.names, op.notice) }

  ghost function Run(cfg: Settings, s: State, steps: seq<Step>): State
    decreases steps
  {
    if steps == [] then s else Run(cfg, Apply(cfg, s, steps[0]), steps[1..])
  }

  // ---------------------------------------------------------------- outbox-publisher.service.ts

  /** The notice and the target of the row are those its payload names. */
  predicate IsDescribed(names: N.Names, e: Event) {
    var v := M.EventOf(e.payload);
    N.Tells(names, e.notice, v) && N.NameOf(names.app, e.app) == v.applicationId
  }

  /** An event joins the outbox with the transaction that caused it: one of the four producers wrote it,
      and the foreign key demands that its target application is registered. */
  ghost function ApplyCommit(cfg: Settings, s: State, e: Event): State {
    var id := e.notice.eventId;
    if id in s.events || (e.app.Some? && e.app.value !in s.apps) || !M.IsProduced(cfg.iso, e.payload)
        || !IsDescribed(cfg.names, e) then s
    else Committed(s, id, e)
  }

  function Committed(s: State, id: EventId, e: Event): State {
    s.(events := s.events[id := e], pub := s.pub.(outbox := s.pub.outbox[id := OutboxRow(false, 0, None)]))
  }

  predicate PublishDue(r: OutboxRow, now: nat) {
    !r.published && (r.nextAttemptAt.None? || r.nextAttemptAt.value <= now)
  }

  function ApplyChoose(b: Publishing, p: PublisherId, e: EventId, now: nat): Publishing {
    if p !in b.publishers && e in b.outbox && PublishDue(b.outbox[e], now)
    then b.(publishers := b.publishers[p := Publisher(e, b.outbox[e].attempts + 1, Chosen)])
    else b
  }

  function ApplyClaimPublish(cfg: Settings, b: Publishing, p: PublisherId, now: nat): Publishing {
    if p !in b.publishers || b.publishers[p].phase != Chosen || b.publishers[p].event !in b.outbox then b
    else
      var x := b.publishers[p];
      var r := b.outbox[x.event];
      if PublishDue(r, now) && r.attempts + 1 == x.attempt
      then Publishing(b.outbox[x.event := OutboxRow(false, x.attempt, Some(now + cfg.leaseMs))],
                      b.publishers[p := x.(phase := Claimed)],
                      b.wins + {PublishWin(x.event, x.attempt, p)})
      else b.(publishers := b.publishers[p := x.(phase := Finished)])
  }

  /** The broker may store a copy and the confirmation may still be lost; a confirmation is only
      sent for a stored copy. */
  function ApplySend(s: State, p: PublisherId, stored: Option<CopyId>, confirmed: bool): State {
    if p !in s.pub.publishers || s.pub.publishers[p].phase != Claimed
       || (confirmed && stored.None?) || (stored.Some? && stored.value in s.copies) then s
    else
      var x := s.pub.publishers[p];
      s.(pub := s.pub.(publishers := s.pub.publishers[p := x.(phase := Sent(confirmed))]),
         copies := if stored.Some? then s.copies[stored.value := Copy(x.event, Queued)] else s.copies)
  }

  function ApplySettlePublish(cfg: Settings, b: Publishing, p: PublisherId, now: nat): Publishing {
    if p !in b.publishers || !b.publishers[p].phase.Sent? || b.publishers[p].event !in b.outbox then b
    else
      var x := b.publishers[p];
      var r := b.outbox[x.event];
      var done := b.publishers[p := x.(phase := Finished)];
      if r.published || r.attempts != x.attempt then b.(publishers := done)
      else if x.phase.ok then b.(outbox := b.outbox[x.event := OutboxRow(true, r.attempts, None)], publishers := done)
      else
        var retryAt := now + Backoff.RetryDelayMs(cfg.publishBaseMs, cfg.publishMaxMs, x.attempt);
        b.(outbox := b.outbox[x.event := r.(nextAttemptAt := Some(retryAt))], publishers := done)
  }

  // ---------------------------------------------------------------- rabbitmq-consumer.service.ts, process

  function ApplyTake(s: State, c: CopyId): State {
    if c in s.copies && s.copies[c].state == Queued
    then s.(copies := s.copies[c := s.copies[c].(state := Held(Received(s.apps.Keys)))])
    else s
  }

  /** The causes for which the worker settles a message as non-retryable: its envelope, its text, its
      payload, a difference from the outbox record, or a target application that does not exist. */
  predicate IsRefused(cfg: Settings, apps: set<AppId>, e: Event) {
    !M.WorkerAccepts(cfg.iso, e.payload) || (e.app.Some? && e.app.value !in apps)
  }

  function ApplyReject(cfg: Settings, s: State, c: CopyId): State {
    if c in s.copies && s.copies[c].state.Held? && s.copies[c].state.work.Received?
       && s.copies[c].event in s.events && IsRefused(cfg, s.apps.Keys, s.events[s.copies[c].event])
    then s.(copies := s.copies[c := s.copies[c].(state := DeadLettered)])
    else s
  }

  function Targets(e: Event, apps: set<AppId>): set<AppId> {
    if e.app.None? then apps else if e.app.value in apps then {e.app.value} else {}
  }

  function ApplyResolve(cfg: Settings, s: State, c: CopyId): State {
    if c in s.copies && s.copies[c].state.Held? && s.copies[c].state.work.Received?
       && s.copies[c].event in s.events && !IsRefused(cfg, s.apps.Keys, s.events[s.copies[c].event])
    then
      var targets := Targets(s.events[s.copies[c].event], s.apps.Keys);
      s.(copies := s.copies[c := s.copies[c].(state := Held(Resolved(s.copies[c].state.work.known, targets)))])
    else s
  }

  function NewRows(rows: map<Key, Row>, e: EventId, targets: set<AppId>): map<Key, Row> {
    (map a | a in targets && Key(e, a) !in rows :: Key(e, a) := NEW_ROW) + rows
  }

  function ApplyCreateRows(s: State, c: CopyId): State {
    if c in s.copies && s.copies[c].state.Held? && s.copies[c].state.work.Resolved?
    then
      var w := s.copies[c].state.work;
      s.(del := s.del.(rows := NewRows(s.del.rows, s.copies[c].event, w.targets)),
         copies := s.copies[c := s.copies[c].(state := Held(Created(w.known, w.targets, map[])))])
    else s
  }

  function ApplyStartTask(s: State, c: CopyId, a: AppId, t: TaskId): State {
    if c in s.copies && s.copies[c].state.Held? && s.copies[c].state.work.Created?
       && a in s.copies[c].state.work.targets && a !in s.copies[c].state.work.started
       && t !in s.del.tasks && Key(s.copies[c].event, a) in s.del.rows
    then
      var w := s.copies[c].state.work;
      var k := Key(s.copies[c].event, a);
      var r := s.del.rows[k];
      s.(del := s.del.(tasks := s.del.tasks[t := Task(k, FromMessage, r.status, r.attemptCount, s.now, Ready)]),
         copies := s.copies[c := s.copies[c].(state := Held(Created(w.known, w.targets, w.started[a := t])))])
    else s
  }

  /** Every target has its task, and none of them reported an error. */
  predicate AllDone(d: Delivering, w: Work)
    requires w.Created?
  {
    && w.started.Keys == w.targets
    && forall a :: a in w.started ==> w.started[a] in d.tasks && d.tasks[w.started[a]].phase == Ended(false)
  }

  function ApplyAck(s: State, c: CopyId): State {
    if c in s.copies && s.copies[c].state.Held? && s.copies[c].state.work.Created?
       && AllDone(s.del, s.copies[c].state.work)
    then
      var w := s.copies[c].state.work;
      s.(copies := s.copies[c := s.copies[c].(state := Acked(w.known, w.targets))])
    else s
  }

  /** A nack with requeue, a lost channel, a shutdown or a crash: the copy returns to the queue, and
      whatever tasks were started for it may go on. */
  function ApplyRequeue(s: State, c: CopyId): State {
    if c in s.copies && s.copies[c].state.Held?
    then s.(copies := s.copies[c := s.copies[c].(state := Queued)])
    else s
  }

  // ---------------------------------------------------------------- processDueRetries

  function ApplyRecover(d: Delivering, k: Key, passAt: nat, now: nat): Delivering {
    if k in d.rows && passAt <= now then d.(rows := d.rows[k := DeliveryRows.Recover(d.rows[k], passAt)]) else d
  }

  function ApplyPickRetry(c: Config, d: Delivering, t: TaskId, k: Key, passAt: nat, now: nat): Delivering {
    if t !in d.tasks && k in d.rows && passAt <= now && Eligible(d.rows[k], passAt)
    then
      var n := d.rows[k].attemptCount;
      var kind := if n >= c.maxAttempts then ToDeadLetter else FromRetry;
      d.(tasks := d.tasks[t := Task(k, kind, Retrying, n, passAt, Ready)])
    else d
  }

  // ---------------------------------------------------------------- deliver and moveToDeadLetter

  function Progress(d: Delivering, t: TaskId, phase: TaskPhase): Delivering
    requires t in d.tasks
  {
    d.(tasks := d.tasks[t := d.tasks[t].(phase := phase)])
  }

  function Rewrite(d: Delivering, t: TaskId, u: Row, phase: TaskPhase): Delivering
    requires t in d.tasks
  {
    d.(rows := d.rows[d.tasks[t].key := u], tasks := d.tasks[t := d.tasks[t].(phase := phase)])
  }

  function WithRedelivery(d: Delivering, k: Key): Delivering {
    d.(redeliveries := d.redeliveries[k := Redelivered(d, k) + 1])
  }

  function Counted(d: Delivering, x: Task): Delivering {
    if x.kind == FromMessage && x.seenStatus == Retrying then WithRedelivery(d, x.key) else d
  }

  function Granted(d: Delivering, t: TaskId, u: Row): Delivering
    requires t in d.tasks
  {
    Rewrite(d, t, u, Working).(wins := d.wins + {DeliveryWin(d.tasks[t].key, u.attemptCount, t)})
  }

  /** A claim of a delivery attempt that the database granted. */
  function WonClaim(d: Delivering, t: TaskId, u: Row): Delivering
    requires t in d.tasks
  {
    Granted(Counted(d, d.tasks[t]), t, u)
  }

  function ApplyClaim(d: Delivering, t: TaskId, now: nat): Delivering {
    if t !in d.tasks || d.tasks[t].phase != Ready || d.tasks[t].key !in d.rows then d
    else
      var x := d.tasks[t];
      var r := d.rows[x.key];
      if x.kind == ToDeadLetter then
        match ClaimDeadLetter(r, x.seenCount, x.startedAt)
        case Some(u) => Rewrite(d, t, u, Working)
        case None => Progress(d, t, Ended(false))
      else
        match ClaimDelivery(r, x.seenStatus, x.seenCount, now)
        case Some(u) => WonClaim(d, t, u)
        case None => Progress(d, t, Ended(false))
  }

  function Redelivered(d: Delivering, k: Key): nat { if k in d.redeliveries then d.redeliveries[k] else 0 }

  /** The application may process the event and the answer may still be lost; it answers with success
      unless it reports a conflicting payload. */
  function ApplyRequest(s: State, t: TaskId, executed: bool, answered: bool): State {
    if t !in s.del.tasks || s.del.tasks[t].phase != Working || s.del.tasks[t].kind == ToDeadLetter
       || s.del.tasks[t].key.app !in s.apps || s.del.tasks[t].key.event !in s.events then s
    else
      var x := s.del.tasks[t];
      var result := L.Deliver(s.apps[x.key.app], s.events[x.key.event].notice);
      var ok := executed && answered && result.1 != L.Conflict;
      s.(apps := if executed then s.apps[x.key.app := result.0] else s.apps,
         del := Progress(s.del, t, Answered(ok)))
  }

  function ApplyPublishDeadLetter(d: Delivering, t: TaskId, stored: bool, confirmed: bool): Delivering {
    if t !in d.tasks || d.tasks[t].phase != Working || d.tasks[t].kind != ToDeadLetter || (confirmed && !stored) then d
    else
      var x := d.tasks[t];
      var queue := if stored then d.deadLetters + {DeadLetter(x.key, x.seenCount)} else d.deadLetters;
      Progress(d.(deadLetters := queue), t, Answered(confirmed))
  }

  /** The update a task makes once it knows the outcome; None when its guard matches no row, which
      the worker reports as an error. */
  function SavedRow(c: Config, r: Row, x: Task, now: nat): Option<Row>
    requires x.phase.Answered?
  {
    if x.kind == ToDeadLetter then
      if x.phase.ok then SaveFailed(r, x.seenCount) else ReleaseDeadLetter(c, r, x.seenCount, x.startedAt)
    else if x.phase.ok then SaveSuccess(r, x.seenCount + 1, now)
    else SaveRetry(c, r, x.seenCount + 1, now)
  }

  function ApplySave(c: Config, d: Delivering, t: TaskId, now: nat): Delivering {
    if t !in d.tasks || !d.tasks[t].phase.Answered? || d.tasks[t].key !in d.rows then d
    else
      var x := d.tasks[t];
      match SavedRow(c, d.rows[x.key], x, now)
      case Some(u) => Rewrite(d, t, u, Ended(false))
      case None => Progress(d, t, Ended(true))
  }
}
