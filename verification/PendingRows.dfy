/** A delivery row that nobody has claimed yet is never orphaned: some message that will be processed
    again still covers it. */
module PendingRows {
  import opened Vocabulary
  import opened DeliveryRows
  import opened Pipeline
  import opened DeliveryInvariant
  import opened PipelineSafety
  import opened PipelineTheorems

  /** The message is unsettled, and handling it includes this row. */
  predicate Covers(x: Copy, k: Key) {
    x.event == k.event
    && match x.state
       case Queued => true
       case Held(Received(_)) => true
       case Held(Resolved(_, targets)) => k.app in targets
       case Held(Created(_, targets, _)) => k.app in targets
       case Acked(_, _) => false
       case DeadLettered => false
  }

  ghost predicate HasCover(copies: map<CopyId, Copy>, k: Key) {
    exists c :: c in copies && Covers(copies[c], k)
  }

  ghost predicate PendingCovered(s: State) {
    forall k :: Is(s, k, Pending) ==> HasCover(s.copies, k)
  }

  /** A step that leaves the copies alone and creates no row. */
  lemma SameCopies(s: State, t: State)
    requires PendingCovered(s) && t.copies == s.copies && t.del.rows.Keys == s.del.rows.Keys && DelEvolves(s.del, t.del)
    ensures PendingCovered(t)
  {
  }

  /** A step on one copy: what it covered and is still PENDING, it still covers. */
  lemma OneCopy(s: State, c: CopyId, y: Copy)
    requires PendingCovered(s)
    requires c in s.copies ==> forall k :: Is(s, k, Pending) && Covers(s.copies[c], k) ==> Covers(y, k)
    ensures PendingCovered(s.(copies := s.copies[c := y]))
  {
    var t := s.(copies := s.copies[c := y]);
    forall k | Is(t, k, Pending) ensures HasCover(t.copies, k) {
      assert Is(s, k, Pending);
      var x :| x in s.copies && Covers(s.copies[x], k);
      assert Covers(t.copies[x], k);
    }
  }

  lemma ResolveCovers(cfg: Settings, s: State, c: CopyId)
    requires Inv(cfg, s) && PendingCovered(s)
    ensures PendingCovered(ApplyResolve(cfg, s, c))
  {
    if ApplyResolve(cfg, s, c) != s {
      var x := s.copies[c];
      var y := x.(state := Held(Resolved(x.state.work.known, Targets(s.events[x.event], s.apps.Keys))));
      forall k | Is(s, k, Pending) && Covers(x, k) ensures Covers(y, k) {
        assert RowInv(cfg.delivery, s.del, ValidKeys(s.events, s.apps), RecordedKeys(s.events, s.apps), k,
                      s.del.rows[k]);
        assert IsValidKey(s.events, s.apps.Keys, k);
      }
      OneCopy(s, c, y);
    }
  }

  lemma CreateRowsCovers(s: State, c: CopyId)
    requires PendingCovered(s)
    ensures PendingCovered(ApplyCreateRows(s, c))
  {
    var t := ApplyCreateRows(s, c);
    if t != s {
      var x := s.copies[c];
      forall k | Is(t, k, Pending) ensures HasCover(t.copies, k) {
        if k in s.del.rows {
          assert Is(s, k, Pending);
          var o :| o in s.copies && Covers(s.copies[o], k);
          assert Covers(t.copies[o], k);
        } else {
          assert Covers(t.copies[c], k);
        }
      }
    }
  }

  lemma StartTaskCovers(s: State, c: CopyId, a: AppId, t: TaskId)
    requires PendingCovered(s)
    ensures PendingCovered(ApplyStartTask(s, c, a, t))
  {
    var m := ApplyStartTask(s, c, a, t);
    if m != s {
      OneCopy(s, c, m.copies[c]);
      forall k | Is(m, k, Pending) ensures HasCover(m.copies, k) {
        assert Is(s.(copies := m.copies), k, Pending);
      }
    }
  }

  /** A message is acknowledged only when no row it covers is PENDING, so it takes cover from none. */
  lemma AckCovers(cfg: Settings, s: State, c: CopyId)
    requires Inv(cfg, s) && PendingCovered(s)
    ensures PendingCovered(ApplyAck(s, c))
    ensures ApplyAck(s, c) != s ==> forall k :: Covers(s.copies[c], k) ==> !Is(s, k, Pending)
  {
    if ApplyAck(s, c) != s {
      var x := s.copies[c];
      AckKeeps(cfg, s, c);
      var y := ApplyAck(s, c).copies[c];
      assert CopyInv(s.events, s.apps.Keys, s.del, y);
      assert forall k :: Is(s, k, Pending) && Covers(x, k) ==> Covers(y, k) by {
        forall k | Is(s, k, Pending) && Covers(x, k) ensures Covers(y, k) {
          assert k == Key(x.event, k.app);
        }
      }
      OneCopy(s, c, y);
    }
  }

  lemma TakeCovers(s: State, c: CopyId)
    requires PendingCovered(s)
    ensures PendingCovered(ApplyTake(s, c))
  {
    if ApplyTake(s, c) != s {
      OneCopy(s, c, ApplyTake(s, c).copies[c]);
    }
  }

  lemma RequeueCovers(s: State, c: CopyId)
    requires PendingCovered(s)
    ensures PendingCovered(ApplyRequeue(s, c))
  {
    if ApplyRequeue(s, c) != s {
      OneCopy(s, c, ApplyRequeue(s, c).copies[c]);
    }
  }

  predicate IsCopyStep(step: Step) {
    step.Take? || step.Reject? || step.Resolve? || step.CreateRows? || step.StartTask? || step.Ack? || step.Requeue?
        || step.Send?
  }

  lemma CopySteps(cfg: Settings, s: State, step: Step)
    requires Inv(cfg, s) && PendingCovered(s) && IsCopyStep(step)
    ensures PendingCovered(Apply(cfg, s, step))
  {
    if step.CreateRows? || step.StartTask? || step.Ack? || step.Requeue? {
      HandlingSteps(cfg, s, step);
    } else {
      ReceivingSteps(cfg, s, step);
    }
  }

  lemma ReceivingSteps(cfg: Settings, s: State, step: Step)
    requires Inv(cfg, s) && PendingCovered(s) && (step.Take? || step.Reject? || step.Resolve? || step.Send?)
    ensures PendingCovered(Apply(cfg, s, step))
  {
    match step
    case Take(c) => TakeCovers(s, c);
    case Reject(c) => RejectStep(cfg, s, c);
    case Resolve(c) => ResolveCovers(cfg, s, c);
    case Send(p, newCopy, confirmed) => SendCovers(s, p, newCopy, confirmed);
  }

  lemma HandlingSteps(cfg: Settings, s: State, step: Step)
    requires Inv(cfg, s) && PendingCovered(s) && (step.CreateRows? || step.StartTask? || step.Ack? || step.Requeue?)
    ensures PendingCovered(Apply(cfg, s, step))
  {
    match step
    case CreateRows(c) => CreateRowsCovers(s, c);
    case StartTask(c, a, t) => StartTaskCovers(s, c, a, t);
    case Ack(c) => AckCovers(cfg, s, c);
    case Requeue(c) => RequeueCovers(s, c);
  }

  lemma SendCovers(s: State, p: PublisherId, newCopy: Option<CopyId>, confirmed: bool)
    requires PendingCovered(s)
    ensures PendingCovered(ApplySend(s, p, newCopy, confirmed))
  {
    var t := ApplySend(s, p, newCopy, confirmed);
    forall k | Is(t, k, Pending) ensures HasCover(t.copies, k) {
      assert Is(s, k, Pending);
      var c :| c in s.copies && Covers(s.copies[c], k);
      assert c in t.copies && t.copies[c] == s.copies[c];
    }
  }

  predicate IsTaskStep(step: Step) {
    step.RecoverRow? || step.PickRetry? || step.Claim? || step.PublishDeadLetter? || step.Save? || step.Request?
  }

  lemma TaskStepsCreateNoRow(cfg: Settings, s: State, step: Step)
    requires IsTaskStep(step)
    ensures Apply(cfg, s, step).del.rows.Keys == s.del.rows.Keys && Apply(cfg, s, step).copies == s.copies
  {
  }

  lemma DeliveriesAdvance(cfg: Settings, s: State, step: Step)
    requires ValidConfig(cfg.delivery) && Inv(cfg, s)
    ensures DelEvolves(s.del, Apply(cfg, s, step).del)
  {
    StepKeeps(cfg, s, step);
  }

  lemma OtherStepsLeaveDeliveries(cfg: Settings, s: State, step: Step)
    requires !IsTaskStep(step) && !IsCopyStep(step)
    ensures Apply(cfg, s, step).del == s.del && Apply(cfg, s, step).copies == s.copies
  {
  }

  lemma StepCovers(cfg: Settings, s: State, step: Step)
    requires ValidConfig(cfg.delivery) && Inv(cfg, s) && PendingCovered(s)
    ensures PendingCovered(Apply(cfg, s, step))
  {
    if IsCopyStep(step) {
      CopySteps(cfg, s, step);
    } else {
      if IsTaskStep(step) {
        TaskStepsCreateNoRow(cfg, s, step);
      } else {
        OtherStepsLeaveDeliveries(cfg, s, step);
      }
      DeliveriesAdvance(cfg, s, step);
      SameCopies(s, Apply(cfg, s, step));
    }
  }

  lemma {:induction false} RunCovers(cfg: Settings, s: State, steps: seq<Step>)
    requires ValidConfig(cfg.delivery) && Inv(cfg, s) && PendingCovered(s)
    ensures PendingCovered(Run(cfg, s, steps))
    decreases steps
  {
    if steps != [] {
      StepKeeps(cfg, s, steps[0]);
      StepCovers(cfg, s, steps[0]);
      RunCovers(cfg, Apply(cfg, s, steps[0]), steps[1..]);
    }
  }

  /** The row has a message that will be processed again and covers it. */
  ghost predicate Awaited(s: State, k: Key) {
    exists c :: c in s.copies && Unsettled(s.copies[c]) && Covers(s.copies[c], k)
  }

  lemma CoverAwaits(s: State, k: Key)
    requires HasCover(s.copies, k)
    ensures Awaited(s, k)
  {
  }

  /** In every reachable state, each PENDING delivery is covered by an unsettled message. */
  lemma PendingIsNeverOrphaned(cfg: Settings, steps: seq<Step>, k: Key)
    requires ValidConfig(cfg.delivery) && Is(Run(cfg, INITIAL, steps), k, Pending)
    ensures Awaited(Run(cfg, INITIAL, steps), k)
  {
    InitiallyInv(cfg);
    RunCovers(cfg, INITIAL, steps);
    CoverAwaits(Run(cfg, INITIAL, steps), k);
  }
}
