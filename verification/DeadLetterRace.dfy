/** A stored dead letter does not mean that the delivery failed: claiming a row for dead-lettering does
    not raise its attempt number, so a slow delivery of the same attempt can still save its success. */
module DeadLetterRace {
  import opened Vocabulary
  import opened DeliveryRows
  import opened Pipeline
  import PipelineSafety
  import opened PipelineTheorems
  import opened Json
  import opened EventContract
  import opened EventIdentity
  import L = LocalSessions
  import M = MessageSize
  import N = Naming

  function OneAttempt(iso: Clock, names: N.Names): Settings {
    Settings(Config(1, 1, 1), 1, 1, 1, iso, names)
  }

  const ROW := Key(0, 0)

  /** An event for every application, as a password change is. */
  ghost predicate IsChange(iso: Clock, names: N.Names, e: Event) {
    e.notice.eventId == 0 && e.app.None? && M.IsProduced(iso, e.payload) && IsDescribed(names, e)
  }

  ghost function Apply3(iso: Clock, names: N.Names, s: State, a: Step, b: Step, c: Step): State {
    Apply(OneAttempt(iso, names), Apply(OneAttempt(iso, names), Apply(OneAttempt(iso, names), s, a), b), c)
  }

  lemma RunThree(iso: Clock, names: N.Names, s: State, a: Step, b: Step, c: Step)
    ensures Run(OneAttempt(iso, names), s, [a, b, c]) == Apply3(iso, names, s, a, b, c)
  {
    var cfg := OneAttempt(iso, names);
    assert [a, b, c][1..] == [b, c] && [b, c][1..] == [c] && [c][1..] == [];
    var x := Apply(cfg, s, a);
    var y := Apply(cfg, x, b);
    assert Run(cfg, y, [c]) == Run(cfg, Apply(cfg, y, c), []);
    assert Run(cfg, x, [b, c]) == Run(cfg, y, [c]);
  }

  lemma RunThreeMore(iso: Clock, names: N.Names, s: State, steps: seq<Step>, a: Step, b: Step, c: Step)
    ensures Run(OneAttempt(iso, names), s, steps + [a, b, c])
            == Apply3(iso, names, Run(OneAttempt(iso, names), s, steps), a, b, c)
  {
    RunAppends(OneAttempt(iso, names), s, steps, [a, b, c]);
    RunThree(iso, names, Run(OneAttempt(iso, names), s, steps), a, b, c);
  }

  // ---------------------------------------------------------------- six stages of three steps

  ghost predicate World(s: State, e: Event) {
    && s.now == 0 && 0 in s.events && s.events[0] == e && s.apps.Keys == {0} && s.apps[0] == L.EMPTY
  }

  ghost predicate AfterChoose(s: State, e: Event) {
    && World(s, e) && s.del == INITIAL.del && s.copies == map[]
    && s.pub.outbox == map[0 := OutboxRow(false, 0, None)] && s.pub.publishers == map[0 := Publisher(0, 1, Chosen)]
  }

  ghost predicate AfterTake(s: State, e: Event) {
    && World(s, e) && s.del == INITIAL.del && s.copies == map[0 := Copy(0, Held(Received({0})))]
  }

  ghost predicate AfterStart(s: State, e: Event) {
    && World(s, e)
    && s.del.rows == map[ROW := NEW_ROW] && s.del.tasks == map[0 := Task(ROW, FromMessage, Pending, 0, 0, Ready)]
  }

  ghost predicate AfterClaim(s: State, e: Event) {
    && World(s, e)
    && s.del.rows == map[ROW := Row(Processing, 1, Some(0), None, None)]
    && s.del.tasks == map[0 := Task(ROW, FromMessage, Pending, 0, 0, Working)]
  }

  ghost predicate AfterLease(s: State) {
    && s.now == PROCESSING_LEASE_MS
    && s.del.rows == map[ROW := Row(Processing, 1, Some(0), None, None)]
    && s.del.tasks == map[0 := Task(ROW, FromMessage, Pending, 0, 0, Answered(true))]
  }

  ghost predicate AfterRecovery(s: State) {
    && s.now == PROCESSING_LEASE_MS
    && s.del.rows == map[ROW := Row(Retrying, 1, Some(0), Some(PROCESSING_LEASE_MS), None)]
    && s.del.tasks == map[0 := Task(ROW, FromMessage, Pending, 0, 0, Answered(true))]
  }

  /** The answered delivery of an expired lease, and the dead letter for the same attempt. */
  ghost predicate Racing(s: State) {
    && ROW in s.del.rows && 0 in s.del.tasks && 1 in s.del.tasks
    && s.del.rows[ROW].status == Processing && s.del.rows[ROW].attemptCount == 1
    && s.del.tasks[0] == Task(ROW, FromMessage, Pending, 0, 0, Answered(true))
    && s.del.tasks[1] == Task(ROW, ToDeadLetter, Retrying, 1, PROCESSING_LEASE_MS, Working)
  }

  lemma Stage1(iso: Clock, names: N.Names, e: Event)
    requires IsChange(iso, names, e)
    ensures AfterChoose(Apply3(iso, names, INITIAL, Register(0), Commit(e), Choose(0, 0)), e)
  {
    var a := Apply(OneAttempt(iso, names), INITIAL, Register(0));
    assert Apply(OneAttempt(iso, names), a, Commit(e)) == Committed(a, 0, e);
  }

  lemma Stage2(iso: Clock, names: N.Names, s: State, e: Event)
    requires AfterChoose(s, e)
    ensures AfterTake(Apply3(iso, names, s, ClaimPublish(0), Send(0, Some(0), true), Take(0)), e)
  {
  }

  lemma ChangeIsAccepted(iso: Clock, names: N.Names, e: Event)
    requires IsChange(iso, names, e)
    ensures !IsRefused(OneAttempt(iso, names), {0}, e)
  {
    M.ProducedEventsAccepted(iso, e.payload);
  }

  const RESOLVED := map[0 := Copy(0, Held(Resolved({0}, {0})))]

  lemma ResolvedCopies(s: State, e: Event)
    requires s.copies == map[0 := Copy(0, Held(Received({0})))] && e.app.None?
    ensures s.copies[0 := s.copies[0].(state := Held(Resolved({0}, Targets(e, {0}))))] == RESOLVED
  {
  }

  lemma ResolvesChange(iso: Clock, names: N.Names, s: State, e: Event)
    requires AfterTake(s, e) && e.app.None? && !IsRefused(OneAttempt(iso, names), {0}, e)
    ensures ApplyResolve(OneAttempt(iso, names), s, 0) == s.(copies := RESOLVED)
  {
    PipelineSafety.ResolveEffect(OneAttempt(iso, names), s, 0);
    ResolvedCopies(s, e);
  }

  lemma CreatesRow(s: State, e: Event)
    requires World(s, e) && s.del == INITIAL.del && s.copies == RESOLVED
    ensures var b := ApplyCreateRows(s, 0);
            && World(b, e) && b.del == INITIAL.del.(rows := map[ROW := NEW_ROW])
            && b.copies == map[0 := Copy(0, Held(Created({0}, {0}, map[])))]
  {
  }

  lemma StartsTask(s: State, e: Event)
    requires World(s, e) && s.del == INITIAL.del.(rows := map[ROW := NEW_ROW])
    requires s.copies == map[0 := Copy(0, Held(Created({0}, {0}, map[])))]
    ensures AfterStart(ApplyStartTask(s, 0, 0, 0), e)
  {
  }

  lemma Stage3(iso: Clock, names: N.Names, s: State, e: Event)
    requires AfterTake(s, e) && IsChange(iso, names, e)
    ensures AfterStart(Apply3(iso, names, s, Resolve(0), CreateRows(0), StartTask(0, 0, 0)), e)
  {
    ChangeIsAccepted(iso, names, e);
    ResolvesChange(iso, names, s, e);
    CreatesRow(s.(copies := RESOLVED), e);
    StartsTask(ApplyCreateRows(s.(copies := RESOLVED), 0), e);
    ThreeSteps(iso, names, s);
  }

  lemma ThreeSteps(iso: Clock, names: N.Names, s: State)
    ensures Apply3(iso, names, s, Resolve(0), CreateRows(0), StartTask(0, 0, 0))
         == ApplyStartTask(ApplyCreateRows(ApplyResolve(OneAttempt(iso, names), s, 0), 0), 0, 0, 0)
  {
  }

  lemma ClaimsRow(iso: Clock, names: N.Names, s: State, e: Event)
    requires AfterStart(s, e)
    ensures AfterClaim(Apply(OneAttempt(iso, names), s, Claim(0)), e)
  {
  }

  lemma RequestIsExecuted(iso: Clock, names: N.Names, s: State, e: Event)
    requires AfterClaim(s, e) && e.notice.eventId == 0
    ensures var b := Apply(OneAttempt(iso, names), s, Request(0, true, true));
            && b.now == 0 && b.del.rows == s.del.rows
            && b.del.tasks == map[0 := Task(ROW, FromMessage, Pending, 0, 0, Answered(true))]
  {
    assert L.Deliver(L.EMPTY, e.notice).1 == L.ProcessedNow;
  }

  lemma Stage4(iso: Clock, names: N.Names, s: State, e: Event)
    requires AfterStart(s, e) && e.notice.eventId == 0
    ensures AfterLease(Apply3(iso, names, s, Claim(0), Request(0, true, true), Tick(PROCESSING_LEASE_MS)))
  {
    ClaimsRow(iso, names, s, e);
    RequestIsExecuted(iso, names, Apply(OneAttempt(iso, names), s, Claim(0)), e);
  }

  lemma RecoversRow(iso: Clock, names: N.Names, s: State)
    requires AfterLease(s)
    ensures AfterRecovery(Apply(OneAttempt(iso, names), s, RecoverRow(ROW, PROCESSING_LEASE_MS)))
  {
  }

  ghost predicate AfterPick(s: State) {
    && s.now == PROCESSING_LEASE_MS
    && s.del.rows == map[ROW := Row(Retrying, 1, Some(0), Some(PROCESSING_LEASE_MS), None)]
    && 0 in s.del.tasks && 1 in s.del.tasks
    && s.del.tasks[0] == Task(ROW, FromMessage, Pending, 0, 0, Answered(true))
    && s.del.tasks[1] == Task(ROW, ToDeadLetter, Retrying, 1, PROCESSING_LEASE_MS, Ready)
  }

  lemma PicksDeadLetter(iso: Clock, names: N.Names, s: State)
    requires AfterRecovery(s)
    ensures AfterPick(Apply(OneAttempt(iso, names), s, PickRetry(1, ROW, PROCESSING_LEASE_MS)))
  {
  }

  lemma ClaimsDeadLetter(iso: Clock, names: N.Names, s: State)
    requires AfterPick(s)
    ensures Racing(Apply(OneAttempt(iso, names), s, Claim(1)))
  {
  }

  lemma Stage5(iso: Clock, names: N.Names, s: State)
    requires AfterLease(s)
    ensures Racing(Apply3(iso, names, s, RecoverRow(ROW, PROCESSING_LEASE_MS), PickRetry(1, ROW, PROCESSING_LEASE_MS),
                          Claim(1)))
  {
    RecoversRow(iso, names, s);
    var a := Apply(OneAttempt(iso, names), s, RecoverRow(ROW, PROCESSING_LEASE_MS));
    PicksDeadLetter(iso, names, a);
    ClaimsDeadLetter(iso, names, Apply(OneAttempt(iso, names), a, PickRetry(1, ROW, PROCESSING_LEASE_MS)));
  }

  /** The letter is confirmed while the answered delivery can still be saved. */
  ghost predicate BothAnswered(s: State) {
    && ROW in s.del.rows && 0 in s.del.tasks && 1 in s.del.tasks
    && s.del.rows[ROW].status == Processing && s.del.rows[ROW].attemptCount == 1
    && s.del.tasks[0] == Task(ROW, FromMessage, Pending, 0, 0, Answered(true))
    && s.del.tasks[1] == Task(ROW, ToDeadLetter, Retrying, 1, PROCESSING_LEASE_MS, Answered(true))
    && DeadLetter(ROW, 1) in s.del.deadLetters
  }

  ghost predicate SavedFirst(s: State) {
    && Is(s, ROW, Succeeded) && DeadLetter(ROW, 1) in s.del.deadLetters && 1 in s.del.tasks
    && s.del.tasks[1] == Task(ROW, ToDeadLetter, Retrying, 1, PROCESSING_LEASE_MS, Answered(true))
  }

  lemma LetterIsStored(iso: Clock, names: N.Names, s: State)
    requires Racing(s)
    ensures BothAnswered(Apply(OneAttempt(iso, names), s, PublishDeadLetter(1, true, true)))
  {
  }

  lemma SuccessIsSaved(iso: Clock, names: N.Names, s: State)
    requires BothAnswered(s)
    ensures SavedFirst(Apply(OneAttempt(iso, names), s, Save(0)))
  {
  }

  lemma FailureIsLost(iso: Clock, names: N.Names, s: State)
    requires SavedFirst(s)
    ensures var t := Apply(OneAttempt(iso, names), s, Save(1));
            Is(t, ROW, Succeeded) && DeadLetter(ROW, 1) in t.del.deadLetters
  {
  }

  lemma Stage6(iso: Clock, names: N.Names, s: State)
    requires Racing(s)
    ensures var t := Apply3(iso, names, s, PublishDeadLetter(1, true, true), Save(0), Save(1));
            Is(t, ROW, Succeeded) && DeadLetter(ROW, 1) in t.del.deadLetters
  {
    var a := Apply(OneAttempt(iso, names), s, PublishDeadLetter(1, true, true));
    LetterIsStored(iso, names, s);
    SuccessIsSaved(iso, names, a);
    FailureIsLost(iso, names, Apply(OneAttempt(iso, names), a, Save(0)));
  }

  function Race(e: Event): seq<Step> {
    [Register(0), Commit(e), Choose(0, 0)]
    + [ClaimPublish(0), Send(0, Some(0), true), Take(0)]
    + [Resolve(0), CreateRows(0), StartTask(0, 0, 0)]
    + [Claim(0), Request(0, true, true), Tick(PROCESSING_LEASE_MS)]
    + [RecoverRow(ROW, PROCESSING_LEASE_MS), PickRetry(1, ROW, PROCESSING_LEASE_MS), Claim(1)]
    + [PublishDeadLetter(1, true, true), Save(0), Save(1)]
  }

  /** A run in which the dead letter is stored and confirmed and the delivery still succeeds. */
  lemma DeadLetteredYetSucceeded(iso: Clock, names: N.Names, e: Event)
    requires IsChange(iso, names, e)
    ensures var t := Run(OneAttempt(iso, names), INITIAL, Race(e));
            Is(t, ROW, Succeeded) && DeadLetter(ROW, 1) in t.del.deadLetters
  {
    var r1 := [Register(0), Commit(e), Choose(0, 0)];
    var r2 := r1 + [ClaimPublish(0), Send(0, Some(0), true), Take(0)];
    var r3 := r2 + [Resolve(0), CreateRows(0), StartTask(0, 0, 0)];
    var r4 := r3 + [Claim(0), Request(0, true, true), Tick(PROCESSING_LEASE_MS)];
    var r5 := r4 + [RecoverRow(ROW, PROCESSING_LEASE_MS), PickRetry(1, ROW, PROCESSING_LEASE_MS), Claim(1)];
    RunThree(iso, names, INITIAL, Register(0), Commit(e), Choose(0, 0));
    Stage1(iso, names, e);
    RunThreeMore(iso, names, INITIAL, r1, ClaimPublish(0), Send(0, Some(0), true), Take(0));
    Stage2(iso, names, Run(OneAttempt(iso, names), INITIAL, r1), e);
    RunThreeMore(iso, names, INITIAL, r2, Resolve(0), CreateRows(0), StartTask(0, 0, 0));
    Stage3(iso, names, Run(OneAttempt(iso, names), INITIAL, r2), e);
    RunThreeMore(iso, names, INITIAL, r3, Claim(0), Request(0, true, true), Tick(PROCESSING_LEASE_MS));
    Stage4(iso, names, Run(OneAttempt(iso, names), INITIAL, r3), e);
    RunThreeMore(iso, names, INITIAL, r4, RecoverRow(ROW, PROCESSING_LEASE_MS), PickRetry(1, ROW, PROCESSING_LEASE_MS),
                 Claim(1));
    Stage5(iso, names, Run(OneAttempt(iso, names), INITIAL, r4));
    RunThreeMore(iso, names, INITIAL, r5, PublishDeadLetter(1, true, true), Save(0), Save(1));
    Stage6(iso, names, Run(OneAttempt(iso, names), INITIAL, r5));
  }

  // ---------------------------------------------------------------- there is such an event

  function AnyTime(t: Text): Option<Text> { Some(t) }

  function PasswordChange(names: N.Names): Event {
    var v := Enqueued(PasswordReset(names.user(0)), names.event(0), []);
    Event(L.Notice(0, PasswordChanged, 0, None, "password_changed", names.digest(Fingerprint(v))), None,
          M.Enqueuing(PasswordReset(names.user(0)), names.event(0), [], EventToJson(v)))
  }

  lemma ZeroIsNormal()
    ensures IsNormalUuid(N.ZERO_UUID)
  {
    assert forall i :: 0 <= i < 36 && i != 8 && i != 13 && i != 18 && i != 23 ==> N.ZERO_UUID[i] == 0x30;
    assert LowerCase(N.ZERO_UUID) == N.ZERO_UUID;
  }

  lemma ChangeExists(names: N.Names)
    requires IsNormalUuid(names.user(0)) && IsNormalUuid(names.event(0))
    ensures IsChange(AnyTime, names, PasswordChange(names))
  {
    SourceMetadataFits("admin_password_change");
    EventJsonWellFormed(Enqueued(PasswordReset(names.user(0)), names.event(0), []));
  }

  lemma RaceIsPossible()
    ensures N.AreDistinct(N.NAMES) && IsChange(AnyTime, N.NAMES, PasswordChange(N.NAMES))
  {
    N.NamesAreDistinct();
    ZeroIsNormal();
    ChangeExists(N.NAMES);
  }

  /** The exact condition: a worker whose dead letter was confirmed marks the delivery failed if and only
      if the row is still being processed under the attempt number it claimed. */
  lemma ConfirmedDeadLetterFails(c: Config, d: Delivering, t: TaskId, now: nat)
    requires t in d.tasks && d.tasks[t].key in d.rows
    requires d.tasks[t].kind == ToDeadLetter && d.tasks[t].phase == Answered(true)
    requires d.rows[d.tasks[t].key].status != Failed
    ensures ApplySave(c, d, t, now).rows[d.tasks[t].key].status == Failed
       <==> d.rows[d.tasks[t].key].status == Processing && d.rows[d.tasks[t].key].attemptCount == d.tasks[t].seenCount
  {
  }
}
