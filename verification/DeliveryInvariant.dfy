/** What every step of the Sync Worker keeps, whatever other workers do in between. The two sets
    stand for the rest of the system: `valid` holds the keys whose event and application exist,
    `recorded` the keys whose application has processed the event. */
module DeliveryInvariant {
  import opened Vocabulary
  import opened DeliveryRows
  import opened Pipeline

  ghost predicate RowInv(c: Config, d: Delivering, valid: iset<Key>, recorded: iset<Key>, k: Key, r: Row) {
    && RowOk(r) && k in valid
    && (r.status == Failed ==> r.attemptCount >= c.maxAttempts && DeadLetter(k, r.attemptCount) in d.deadLetters)
    && (r.status == Succeeded ==> k in recorded)
    && r.attemptCount <= c.maxAttempts + Redelivered(d, k)
  }

  /** What a task has seen of its row is still true of it, as far as it can be. */
  ghost predicate TaskInv(c: Config, d: Delivering, recorded: iset<Key>, x: Task) {
    && x.key in d.rows
    && x.seenCount <= d.rows[x.key].attemptCount
    && (x.kind == FromRetry ==> x.seenCount < c.maxAttempts)
    && (x.kind == ToDeadLetter ==> x.seenCount >= c.maxAttempts)
    && (x.kind != FromMessage ==> x.seenStatus == Retrying)
    && (x.seenStatus == Pending ==> x.seenCount == 0)
    && (x.seenStatus != Pending || x.phase != Ready ==> d.rows[x.key].status != Pending)
    && (x.kind != ToDeadLetter && x.phase == Answered(true) ==> x.key in recorded)
    && (x.kind == ToDeadLetter && x.phase == Answered(true) ==> DeadLetter(x.key, x.seenCount) in d.deadLetters)
  }

  ghost predicate WinInv(d: Delivering, w: DeliveryWin) {
    w.key in d.rows && w.attempt <= d.rows[w.key].attemptCount
  }

  /** A stored dead letter counts at least the configured attempts, and no more than were made. */
  ghost predicate LetterInv(c: Config, d: Delivering, l: DeadLetter) {
    l.key in d.rows && c.maxAttempts <= l.attemptCount <= d.rows[l.key].attemptCount
  }

  ghost predicate WonOnce(wins: set<DeliveryWin>) {
    forall v, w :: v in wins && w in wins && v.key == w.key && v.attempt == w.attempt ==> v == w
  }

  ghost predicate DelInv(c: Config, d: Delivering, valid: iset<Key>, recorded: iset<Key>) {
    && (forall k :: k in d.rows ==> RowInv(c, d, valid, recorded, k, d.rows[k]))
    && (forall t :: t in d.tasks ==> TaskInv(c, d, recorded, d.tasks[t]))
    && (forall w :: w in d.wins ==> WinInv(d, w))
    && (forall l :: l in d.deadLetters ==> LetterInv(c, d, l))
    && WonOnce(d.wins)
  }

  ghost predicate TaskEvolves(x: Task, y: Task) {
    && y.key == x.key && y.kind == x.kind && y.seenStatus == x.seenStatus && y.seenCount == x.seenCount
    && (x.phase.Ended? ==> y == x)
  }

  ghost predicate DelEvolves(d: Delivering, e: Delivering) {
    && (forall k :: k in d.rows ==> k in e.rows && RowEvolves(d.rows[k], e.rows[k]))
    && (forall t :: t in d.tasks ==> t in e.tasks && TaskEvolves(d.tasks[t], e.tasks[t]))
    && d.deadLetters <= e.deadLetters && d.wins <= e.wins
    && (forall k :: Redelivered(d, k) <= Redelivered(e, k))
  }

  lemma SameDelEvolves(d: Delivering)
    ensures DelEvolves(d, d)
  {
  }

  lemma DelEvolvesTransitive(a: Delivering, b: Delivering, c: Delivering)
    requires DelEvolves(a, b) && DelEvolves(b, c)
    ensures DelEvolves(a, c)
  {
  }

  lemma DelFrame(c: Config, d: Delivering, valid: iset<Key>, recorded: iset<Key>, valid': iset<Key>,
                 recorded': iset<Key>)
    requires DelInv(c, d, valid, recorded) && valid <= valid' && recorded <= recorded'
    ensures DelInv(c, d, valid', recorded')
  {
  }

  // ---------------------------------------------------------------- three kinds of change

  lemma ProgressRows(c: Config, d: Delivering, valid: iset<Key>, recorded: iset<Key>, t: TaskId, phase: TaskPhase)
    requires DelInv(c, d, valid, recorded) && t in d.tasks && !d.tasks[t].phase.Ended?
    ensures var e := Progress(d, t, phase);
            && (forall k :: k in e.rows ==> RowInv(c, e, valid, recorded, k, e.rows[k]))
            && (forall w :: w in e.wins ==> WinInv(e, w))
  {
    var e := Progress(d, t, phase);
    forall k | k in e.rows ensures RowInv(c, e, valid, recorded, k, e.rows[k]) {
      assert RowInv(c, d, valid, recorded, k, d.rows[k]);
    }
    forall w | w in e.wins ensures WinInv(e, w) {
      assert WinInv(d, w);
    }
  }

  lemma ProgressTasks(c: Config, d: Delivering, valid: iset<Key>, recorded: iset<Key>, t: TaskId, phase: TaskPhase)
    requires DelInv(c, d, valid, recorded) && t in d.tasks && !d.tasks[t].phase.Ended?
    requires TaskInv(c, d, recorded, d.tasks[t].(phase := phase))
    ensures var e := Progress(d, t, phase);
            (forall u :: u in e.tasks ==> TaskInv(c, e, recorded, e.tasks[u])) && DelEvolves(d, e)
  {
    var e := Progress(d, t, phase);
    forall u | u in e.tasks ensures TaskInv(c, e, recorded, e.tasks[u]) {
      assert TaskInv(c, d, recorded, d.tasks[u]);
    }
  }

  /** A task moves on and its row stays as it is. */
  lemma ProgressStep(c: Config, d: Delivering, valid: iset<Key>, recorded: iset<Key>, t: TaskId, phase: TaskPhase)
    requires DelInv(c, d, valid, recorded) && t in d.tasks && !d.tasks[t].phase.Ended?
    requires TaskInv(c, d, recorded, d.tasks[t].(phase := phase))
    ensures DelInv(c, Progress(d, t, phase), valid, recorded) && DelEvolves(d, Progress(d, t, phase))
  {
    ProgressRows(c, d, valid, recorded, t, phase);
    ProgressTasks(c, d, valid, recorded, t, phase);
  }

  lemma TaskAfterRewrite(c: Config, d: Delivering, recorded: iset<Key>, k: Key, u: Row, x: Task)
    requires TaskInv(c, d, recorded, x) && k in d.rows && RowEvolves(d.rows[k], u)
    ensures TaskInv(c, d.(rows := d.rows[k := u]), recorded, x)
  {
  }

  /** A row is rewritten. */
  lemma RowStep(c: Config, d: Delivering, valid: iset<Key>, recorded: iset<Key>, k: Key, u: Row)
    requires DelInv(c, d, valid, recorded) && k in d.rows && RowEvolves(d.rows[k], u)
    requires RowInv(c, d, valid, recorded, k, u)
    ensures var e := d.(rows := d.rows[k := u]); DelInv(c, e, valid, recorded) && DelEvolves(d, e)
  {
    var e := d.(rows := d.rows[k := u]);
    forall j | j in e.rows ensures RowInv(c, e, valid, recorded, j, e.rows[j]) {
      if j != k {
        assert RowInv(c, d, valid, recorded, j, d.rows[j]);
      }
    }
    forall t | t in e.tasks ensures TaskInv(c, e, recorded, e.tasks[t]) {
      TaskAfterRewrite(c, d, recorded, k, u, d.tasks[t]);
    }
    forall w | w in e.wins ensures WinInv(e, w) {
      assert WinInv(d, w);
    }
    assert DelEvolves(d, e);
  }

  lemma RewriteStep(c: Config, d: Delivering, valid: iset<Key>, recorded: iset<Key>, t: TaskId, u: Row,
                    phase: TaskPhase)
    requires DelInv(c, d, valid, recorded) && t in d.tasks && !d.tasks[t].phase.Ended? && d.tasks[t].key in d.rows
    requires RowEvolves(d.rows[d.tasks[t].key], u) && u.status != Pending
    requires RowInv(c, d, valid, recorded, d.tasks[t].key, u) && !phase.Answered?
    ensures DelInv(c, Rewrite(d, t, u, phase), valid, recorded) && DelEvolves(d, Rewrite(d, t, u, phase))
  {
    var k := d.tasks[t].key;
    var m := d.(rows := d.rows[k := u]);
    RowStep(c, d, valid, recorded, k, u);
    assert TaskInv(c, m, recorded, m.tasks[t]);
    ProgressStep(c, m, valid, recorded, t, phase);
    assert Rewrite(d, t, u, phase) == Progress(m, t, phase);
    DelEvolvesTransitive(d, m, Rewrite(d, t, u, phase));
  }

  lemma MoreDeadLetters(c: Config, d: Delivering, valid: iset<Key>, recorded: iset<Key>, queue: set<DeadLetter>)
    requires DelInv(c, d, valid, recorded) && d.deadLetters <= queue
    requires forall l :: l in queue ==> LetterInv(c, d, l)
    ensures var e := d.(deadLetters := queue); DelInv(c, e, valid, recorded) && DelEvolves(d, e)
  {
    var e := d.(deadLetters := queue);
    forall k | k in e.rows ensures RowInv(c, e, valid, recorded, k, e.rows[k]) {
      assert RowInv(c, d, valid, recorded, k, d.rows[k]);
    }
    forall u | u in e.tasks ensures TaskInv(c, e, recorded, e.tasks[u]) {
      assert TaskInv(c, d, recorded, d.tasks[u]);
    }
    forall w | w in e.wins ensures WinInv(e, w) {
      assert WinInv(d, w);
    }
  }

  lemma OneMoreRedelivery(c: Config, d: Delivering, valid: iset<Key>, recorded: iset<Key>, k: Key)
    requires DelInv(c, d, valid, recorded)
    ensures DelInv(c, WithRedelivery(d, k), valid, recorded) && DelEvolves(d, WithRedelivery(d, k))
  {
    var e := WithRedelivery(d, k);
    forall j ensures Redelivered(d, j) <= Redelivered(e, j) {
    }
    forall j | j in e.rows ensures RowInv(c, e, valid, recorded, j, e.rows[j]) {
      assert RowInv(c, d, valid, recorded, j, d.rows[j]);
    }
    forall u | u in e.tasks ensures TaskInv(c, e, recorded, e.tasks[u]) {
      assert TaskInv(c, d, recorded, d.tasks[u]);
    }
    forall w | w in e.wins ensures WinInv(e, w) {
      assert WinInv(d, w);
    }
  }

  lemma NewWin(c: Config, d: Delivering, valid: iset<Key>, recorded: iset<Key>, w: DeliveryWin)
    requires DelInv(c, d, valid, recorded) && WinInv(d, w)
    requires forall v :: v in d.wins && v.key == w.key ==> v.attempt < w.attempt
    ensures var e := d.(wins := d.wins + {w}); DelInv(c, e, valid, recorded) && DelEvolves(d, e)
  {
    var e := d.(wins := d.wins + {w});
    forall k | k in e.rows ensures RowInv(c, e, valid, recorded, k, e.rows[k]) {
      assert RowInv(c, d, valid, recorded, k, d.rows[k]);
    }
    forall u | u in e.tasks ensures TaskInv(c, e, recorded, e.tasks[u]) {
      assert TaskInv(c, d, recorded, d.tasks[u]);
    }
    forall v | v in e.wins ensures WinInv(e, v) {
      if v != w {
        assert WinInv(d, v);
      }
    }
  }

  // ---------------------------------------------------------------- steps

  lemma RecoverStep(c: Config, d: Delivering, valid: iset<Key>, recorded: iset<Key>, k: Key, passAt: nat, now: nat)
    requires DelInv(c, d, valid, recorded)
    ensures var e := ApplyRecover(d, k, passAt, now); DelInv(c, e, valid, recorded) && DelEvolves(d, e)
  {
    if k in d.rows && passAt <= now {
      assert RowInv(c, d, valid, recorded, k, d.rows[k]);
      RowStep(c, d, valid, recorded, k, DeliveryRows.Recover(d.rows[k], passAt));
    } else {
      SameDelEvolves(d);
    }
  }

  lemma NewTaskStep(c: Config, d: Delivering, valid: iset<Key>, recorded: iset<Key>, t: TaskId, x: Task)
    requires DelInv(c, d, valid, recorded) && t !in d.tasks && TaskInv(c, d, recorded, x)
    ensures var e := d.(tasks := d.tasks[t := x]); DelInv(c, e, valid, recorded) && DelEvolves(d, e)
  {
    var e := d.(tasks := d.tasks[t := x]);
    forall k | k in e.rows ensures RowInv(c, e, valid, recorded, k, e.rows[k]) {
      assert RowInv(c, d, valid, recorded, k, d.rows[k]);
    }
    forall u | u in e.tasks ensures TaskInv(c, e, recorded, e.tasks[u]) {
      if u != t {
        assert TaskInv(c, d, recorded, d.tasks[u]);
      }
    }
    forall w | w in e.wins ensures WinInv(e, w) {
      assert WinInv(d, w);
    }
  }

  /** A task that has just read its row. */
  lemma FreshTask(c: Config, d: Delivering, valid: iset<Key>, recorded: iset<Key>, x: Task)
    requires DelInv(c, d, valid, recorded) && x.key in d.rows && x.phase == Ready
    requires x.seenStatus == d.rows[x.key].status && x.seenCount == d.rows[x.key].attemptCount
    requires x.kind == FromRetry ==> x.seenCount < c.maxAttempts
    requires x.kind == ToDeadLetter ==> x.seenCount >= c.maxAttempts
    requires x.kind != FromMessage ==> x.seenStatus == Retrying
    ensures TaskInv(c, d, recorded, x)
  {
  }

  lemma PickRetryStep(c: Config, d: Delivering, valid: iset<Key>, recorded: iset<Key>, t: TaskId, k: Key, passAt: nat,
                      now: nat)
    requires DelInv(c, d, valid, recorded)
    ensures var e := ApplyPickRetry(c, d, t, k, passAt, now); DelInv(c, e, valid, recorded) && DelEvolves(d, e)
  {
    if t !in d.tasks && k in d.rows && passAt <= now && Eligible(d.rows[k], passAt) {
      var n := d.rows[k].attemptCount;
      var x := Task(k, if n >= c.maxAttempts then ToDeadLetter else FromRetry, Retrying, n, passAt, Ready);
      FreshTask(c, d, valid, recorded, x);
      NewTaskStep(c, d, valid, recorded, t, x);
    } else {
      SameDelEvolves(d);
    }
  }

  /** A row that is still PENDING is exactly as every task that saw it PENDING read it, so the claim
      of such a task is only lost if somebody else moved the row on. */
  lemma LostClaim(c: Config, d: Delivering, valid: iset<Key>, recorded: iset<Key>, x: Task, now: nat)
    requires DelInv(c, d, valid, recorded) && TaskInv(c, d, recorded, x)
    requires x.kind == ToDeadLetter || ClaimDelivery(d.rows[x.key], x.seenStatus, x.seenCount, now).None?
    ensures d.rows[x.key].status != Pending
  {
  }

  lemma ClaimDeadLetterStep(c: Config, d: Delivering, valid: iset<Key>, recorded: iset<Key>, t: TaskId, u: Row)
    requires DelInv(c, d, valid, recorded) && t in d.tasks && d.tasks[t].phase == Ready && d.tasks[t].key in d.rows
    requires ClaimDeadLetter(d.rows[d.tasks[t].key], d.tasks[t].seenCount, d.tasks[t].startedAt) == Some(u)
    ensures DelInv(c, Rewrite(d, t, u, Working), valid, recorded) && DelEvolves(d, Rewrite(d, t, u, Working))
  {
    assert RowInv(c, d, valid, recorded, d.tasks[t].key, d.rows[d.tasks[t].key]);
    RewriteStep(c, d, valid, recorded, t, u, Working);
  }

  lemma GrantedStep(c: Config, d: Delivering, valid: iset<Key>, recorded: iset<Key>, t: TaskId, u: Row)
    requires DelInv(c, d, valid, recorded) && t in d.tasks && !d.tasks[t].phase.Ended? && d.tasks[t].key in d.rows
    requires RowEvolves(d.rows[d.tasks[t].key], u) && u.status != Pending
    requires d.rows[d.tasks[t].key].attemptCount < u.attemptCount
    requires RowInv(c, d, valid, recorded, d.tasks[t].key, u)
    ensures DelInv(c, Granted(d, t, u), valid, recorded) && DelEvolves(d, Granted(d, t, u))
  {
    var n := Rewrite(d, t, u, Working);
    var w := DeliveryWin(d.tasks[t].key, u.attemptCount, t);
    RewriteStep(c, d, valid, recorded, t, u, Working);
    forall v | v in n.wins && v.key == w.key ensures v.attempt < w.attempt {
      assert WinInv(d, v);
    }
    NewWin(c, n, valid, recorded, w);
    DelEvolvesTransitive(d, n, Granted(d, t, u));
  }

  lemma CountedStep(c: Config, d: Delivering, valid: iset<Key>, recorded: iset<Key>, x: Task)
    requires DelInv(c, d, valid, recorded)
    ensures DelInv(c, Counted(d, x), valid, recorded) && DelEvolves(d, Counted(d, x))
  {
    OneMoreRedelivery(c, d, valid, recorded, x.key);
    SameDelEvolves(d);
  }

  /** A granted claim raises the attempt number above every number granted before. */
  lemma WonClaimStep(c: Config, d: Delivering, valid: iset<Key>, recorded: iset<Key>, t: TaskId, u: Row, now: nat)
    requires ValidConfig(c) && DelInv(c, d, valid, recorded)
    requires t in d.tasks && d.tasks[t].phase == Ready && d.tasks[t].kind != ToDeadLetter && d.tasks[t].key in d.rows
    requires ClaimDelivery(d.rows[d.tasks[t].key], d.tasks[t].seenStatus, d.tasks[t].seenCount, now) == Some(u)
    ensures DelInv(c, WonClaim(d, t, u), valid, recorded) && DelEvolves(d, WonClaim(d, t, u))
    ensures forall w :: w in d.wins && w.key == d.tasks[t].key ==> w.attempt < u.attemptCount
    ensures u.attemptCount <= c.maxAttempts + Redelivered(WonClaim(d, t, u), d.tasks[t].key)
  {
    var x := d.tasks[t];
    assert TaskInv(c, d, recorded, x) && RowInv(c, d, valid, recorded, x.key, d.rows[x.key]);
    CountedStep(c, d, valid, recorded, x);
    ClaimedRow(c, d, valid, recorded, x, u, now);
    forall w | w in d.wins && w.key == x.key ensures w.attempt < u.attemptCount {
      assert WinInv(d, w);
    }
    GrantedStep(c, Counted(d, x), valid, recorded, t, u);
    DelEvolvesTransitive(d, Counted(d, x), WonClaim(d, t, u));
  }

  /** The claimed row respects the attempt bound: a first claim and a retry stay below the maximum, and
      a claim of a redelivered message was counted. */
  lemma ClaimedRow(c: Config, d: Delivering, valid: iset<Key>, recorded: iset<Key>, x: Task, u: Row, now: nat)
    requires ValidConfig(c) && x.key in d.rows && RowInv(c, d, valid, recorded, x.key, d.rows[x.key])
    requires TaskInv(c, d, recorded, x) && x.kind != ToDeadLetter
    requires ClaimDelivery(d.rows[x.key], x.seenStatus, x.seenCount, now) == Some(u)
    ensures RowInv(c, Counted(d, x), valid, recorded, x.key, u) && RowEvolves(d.rows[x.key], u) && u.status != Pending
    ensures u.attemptCount == x.seenCount + 1
  {
  }

  lemma ClaimStep(c: Config, d: Delivering, valid: iset<Key>, recorded: iset<Key>, t: TaskId, now: nat)
    requires ValidConfig(c) && DelInv(c, d, valid, recorded)
    ensures DelInv(c, ApplyClaim(d, t, now), valid, recorded) && DelEvolves(d, ApplyClaim(d, t, now))
  {
    if t !in d.tasks || d.tasks[t].phase != Ready || d.tasks[t].key !in d.rows {
      SameDelEvolves(d);
    } else {
      var x := d.tasks[t];
      var r := d.rows[x.key];
      assert TaskInv(c, d, recorded, x);
      if x.kind == ToDeadLetter && ClaimDeadLetter(r, x.seenCount, x.startedAt).Some? {
        ClaimDeadLetterStep(c, d, valid, recorded, t, ClaimDeadLetter(r, x.seenCount, x.startedAt).value);
      } else if x.kind != ToDeadLetter && ClaimDelivery(r, x.seenStatus, x.seenCount, now).Some? {
        WonClaimStep(c, d, valid, recorded, t, ClaimDelivery(r, x.seenStatus, x.seenCount, now).value, now);
      } else {
        LostClaim(c, d, valid, recorded, x, now);
        ProgressStep(c, d, valid, recorded, t, Ended(false));
      }
    }
  }

  lemma SavedRowFits(c: Config, d: Delivering, valid: iset<Key>, recorded: iset<Key>, x: Task, u: Row, now: nat)
    requires x.key in d.rows && RowInv(c, d, valid, recorded, x.key, d.rows[x.key]) && TaskInv(c, d, recorded, x)
    requires x.phase.Answered? && SavedRow(c, d.rows[x.key], x, now) == Some(u)
    ensures RowInv(c, d, valid, recorded, x.key, u) && RowEvolves(d.rows[x.key], u) && u.status != Pending
  {
  }

  lemma SaveStep(c: Config, d: Delivering, valid: iset<Key>, recorded: iset<Key>, t: TaskId, now: nat)
    requires DelInv(c, d, valid, recorded)
    ensures DelInv(c, ApplySave(c, d, t, now), valid, recorded) && DelEvolves(d, ApplySave(c, d, t, now))
  {
    if t in d.tasks && d.tasks[t].phase.Answered? {
      var x := d.tasks[t];
      assert TaskInv(c, d, recorded, x);
      match SavedRow(c, d.rows[x.key], x, now)
      case Some(u) =>
        SavedRowFits(c, d, valid, recorded, x, u, now);
        RewriteStep(c, d, valid, recorded, t, u, Ended(false));
      case None => ProgressStep(c, d, valid, recorded, t, Ended(true));
    } else {
      SameDelEvolves(d);
    }
  }

  lemma PublishDeadLetterStep(c: Config, d: Delivering, valid: iset<Key>, recorded: iset<Key>,
                              t: TaskId, stored: bool, confirmed: bool)
    requires DelInv(c, d, valid, recorded)
    ensures var e := ApplyPublishDeadLetter(d, t, stored, confirmed); DelInv(c, e, valid, recorded) && DelEvolves(d, e)
  {
    if t !in d.tasks || d.tasks[t].phase != Working || d.tasks[t].kind != ToDeadLetter || (confirmed && !stored) {
      SameDelEvolves(d);
    } else {
      var x := d.tasks[t];
      var queue := if stored then d.deadLetters + {DeadLetter(x.key, x.seenCount)} else d.deadLetters;
      var m := d.(deadLetters := queue);
      assert TaskInv(c, d, recorded, x);
      MoreDeadLetters(c, d, valid, recorded, queue);
      assert TaskInv(c, m, recorded, x);
      ProgressStep(c, m, valid, recorded, t, Answered(confirmed));
      DelEvolvesTransitive(d, m, Progress(m, t, Answered(confirmed)));
    }
  }

  lemma AnswerStep(c: Config, d: Delivering, valid: iset<Key>, recorded: iset<Key>, t: TaskId, ok: bool)
    requires DelInv(c, d, valid, recorded) && t in d.tasks && d.tasks[t].phase == Working
             && d.tasks[t].kind != ToDeadLetter
    requires ok ==> d.tasks[t].key in recorded
    ensures var e := Progress(d, t, Answered(ok)); DelInv(c, e, valid, recorded) && DelEvolves(d, e)
  {
    assert TaskInv(c, d, recorded, d.tasks[t]);
    ProgressStep(c, d, valid, recorded, t, Answered(ok));
  }

  lemma CreateRowsStep(c: Config, d: Delivering, valid: iset<Key>, recorded: iset<Key>, e: EventId, targets: set<AppId>)
    requires DelInv(c, d, valid, recorded) && forall a :: a in targets ==> Key(e, a) in valid
    ensures var d' := d.(rows := NewRows(d.rows, e, targets));
            && DelInv(c, d', valid, recorded) && DelEvolves(d, d')
            && forall a :: a in targets ==> Key(e, a) in d'.rows
  {
    var d' := d.(rows := NewRows(d.rows, e, targets));
    forall k | k in d'.rows ensures RowInv(c, d', valid, recorded, k, d'.rows[k]) {
      if k in d.rows {
        assert RowInv(c, d, valid, recorded, k, d.rows[k]);
      }
    }
    forall u | u in d'.tasks ensures TaskInv(c, d', recorded, d'.tasks[u]) {
      assert TaskInv(c, d, recorded, d.tasks[u]);
    }
    forall w | w in d'.wins ensures WinInv(d', w) {
      assert WinInv(d, w);
    }
    assert DelEvolves(d, d');
  }
}
