/** What one call of the delivery worker does to one row, whatever other workers do to that row in the
    meantime, and how a delivery ends when its application never answers. */
module DeliveryOutcomes {
  import opened Vocabulary
  import opened DeliveryRows
  import opened Backoff
  import opened Pipeline
  import opened Sequences

  /** The world as one delivery meets it: what other workers make of the row before the claim and before
      the outcome is saved, when the attempt starts and is answered, and whether it succeeds. */
  datatype World = World(
    readable: bool,
    beforeClaim: Option<Row>,
    attemptedAt: nat,
    ok: bool,
    beforeSave: Option<Row>,
    answeredAt: nat)

  /** A row with its history: requests sent to the application, dead letters confirmed. */
  datatype Delivery = Delivery(row: Row, requests: nat, letters: nat)

  datatype Outcome = Outcome(delivery: Delivery, threw: bool)

  function Raced(r: Row, race: Option<Row>): Row { if race.Some? then race.value else r }

  /** Other workers only do to a row what every update does. */
  ghost predicate Lawful(r: Row, race: Option<Row>) { Updates(r, race) }

  // ---------------------------------------------------------------- deliver

  function Deliver(c: Config, x: Delivery, w: World): Outcome {
    if x.row.status != Pending && x.row.status != Retrying then Outcome(x, false)
    else
      var attempt := x.row.attemptCount + 1;
      var r := Raced(x.row, w.beforeClaim);
      match ClaimDelivery(r, x.row.status, x.row.attemptCount, w.attemptedAt)
      case None => Outcome(x.(row := r), false)
      case Some(claimed) =>
        var sent := x.(row := Raced(claimed, w.beforeSave), requests := x.requests + 1);
        match (if w.ok then SaveSuccess(sent.row, attempt, w.answeredAt)
               else SaveRetry(c, sent.row, attempt, w.answeredAt))
        case None => Outcome(sent, true)
        case Some(saved) => Outcome(sent.(row := saved), false)
  }

  ghost predicate LawfulDelivery(x: Delivery, w: World) {
    && Lawful(x.row, w.beforeClaim)
    && var claim := ClaimDelivery(Raced(x.row, w.beforeClaim), x.row.status, x.row.attemptCount, w.attemptedAt);
       claim.Some? ==> Lawful(claim.value, w.beforeSave)
  }

  /** Whether or not it wins the claim, a delivery never leaves its row PENDING, keeps the row's books,
      and sends at most one request. */
  lemma DeliverLeavesPending(c: Config, x: Delivery, w: World)
    requires RowOk(x.row) && LawfulDelivery(x, w)
    ensures var y := Deliver(c, x, w).delivery;
            && y.row.status != Pending && RowOk(y.row) && RowEvolves(x.row, y.row)
            && x.requests <= y.requests <= x.requests + 1 && y.letters == x.letters
  {
  }

  ghost predicate WasOvertaken(r: Row, attempt: nat, w: World) {
    w.beforeSave == Some(r) && !(r.status == Processing && r.attemptCount == attempt)
  }

  /** A delivery reports an error only after it sent its request and somebody else then took the row. */
  lemma DeliverThrowsOnlyWhenOvertaken(c: Config, x: Delivery, w: World)
    ensures var o := Deliver(c, x, w);
            o.threw ==> o.delivery.requests == x.requests + 1 && WasOvertaken(o.delivery.row, x.row.attemptCount + 1, w)
  {
  }

  /** The row may be taken as it was read, and is due by then. */
  predicate IsFree(read: Row, now: Row, at: nat) {
    && now.status == read.status && now.attemptCount == read.attemptCount
    && (now.status == Pending
        || (now.status == Retrying && (now.nextRetryAt.Some? ==> now.nextRetryAt.value <= at)))
  }

  predicate IsHeld(r: Row, n: nat) { r.status == Processing && r.attemptCount == n }

  /** One request is sent exactly if the row is free when it is claimed, under the next attempt number. Its
      outcome is saved, SUCCEEDED or RETRYING as the application answered, exactly if the row is still held
      under that number; otherwise the delivery throws and leaves the row to whoever took it. */
  lemma DeliveryExactly(c: Config, x: Delivery, w: World)
    ensures var o := Deliver(c, x, w);
            var seen := Raced(x.row, w.beforeClaim);
            var n := x.row.attemptCount + 1;
            var held := Raced(Row(Processing, n, Some(w.attemptedAt), None, seen.processedAt), w.beforeSave);
            if !IsFree(x.row, seen, w.attemptedAt)
            then !o.threw && o.delivery.requests == x.requests && o.delivery.letters == x.letters
                 && (o.delivery.row == seen || (o.delivery.row == x.row && x.row.status !in {Pending, Retrying}))
            else && o.delivery.requests == x.requests + 1 && o.delivery.letters == x.letters
                 && (o.threw <==> !IsHeld(held, n))
                 && (if o.threw then o.delivery.row == held
                     else o.delivery.row.attemptCount == n && o.delivery.row.lastAttemptAt == held.lastAttemptAt
                          && (o.delivery.row.status == Succeeded <==> w.ok)
                          && (o.delivery.row.status == Retrying <==> !w.ok))
  {
  }

  // ---------------------------------------------------------------- moveToDeadLetter

  function MoveToDeadLetter(c: Config, x: Delivery, now: nat, w: World): Outcome {
    var r := Raced(x.row, w.beforeClaim);
    match ClaimDeadLetter(r, x.row.attemptCount, now)
    case None => Outcome(x.(row := r), false)
    case Some(claimed) =>
      var sent := x.(row := Raced(claimed, w.beforeSave), letters := x.letters + if w.ok then 1 else 0);
      match (if w.ok then SaveFailed(sent.row, x.row.attemptCount)
             else ReleaseDeadLetter(c, sent.row, x.row.attemptCount, now))
      case None => Outcome(sent, true)
      case Some(saved) => Outcome(sent.(row := saved), false)
  }

  /** A dead letter is published, and counted if it is confirmed, exactly if the row waits as it was read
      and is due. The row then fails, or waits again if it was not confirmed, exactly if it is still held;
      otherwise the call throws. No request is sent. */
  lemma DeadLetteringExactly(c: Config, x: Delivery, now: nat, w: World)
    ensures var o := MoveToDeadLetter(c, x, now, w);
            var seen := Raced(x.row, w.beforeClaim);
            var n := x.row.attemptCount;
            var held := Raced(Row(Processing, n, Some(now), None, seen.processedAt), w.beforeSave);
            var granted := IsFree(seen, seen, now) && seen.status == Retrying && seen.attemptCount == n;
            && o.delivery.requests == x.requests
            && o.delivery.letters == x.letters + (if granted && w.ok then 1 else 0)
            && (o.threw <==> granted && !IsHeld(held, n))
            && (!granted ==> o.delivery.row == seen)
            && (o.threw ==> o.delivery.row == held)
            && (granted && !o.threw ==>
                  o.delivery.row.attemptCount == n && o.delivery.row.status == if w.ok then Failed else Retrying)
  {
  }

  // ---------------------------------------------------------------- processDueRetries

  function Retry(c: Config, x: Delivery, now: nat, w: World): Outcome {
    if !w.readable then Outcome(x, true)
    else if x.row.attemptCount >= c.maxAttempts then MoveToDeadLetter(c, x, now, w)
    else Deliver(c, x, w)
  }

  /** A candidate that cannot be read counts as a failure and stays; at the attempt limit it is
      dead-lettered and sends no request; below it, it is delivered and no dead letter is published. */
  lemma CandidateExactly(c: Config, x: Delivery, now: nat, w: World)
    ensures var o := Retry(c, x, now, w);
            && (!w.readable ==> o.threw && o.delivery == x)
            && (x.row.attemptCount >= c.maxAttempts ==> o.delivery.requests == x.requests)
            && (x.row.attemptCount < c.maxAttempts ==> o.delivery.letters == x.letters)
            && (w.readable && x.row.attemptCount >= c.maxAttempts ==> o == MoveToDeadLetter(c, x, now, w))
            && (w.readable && x.row.attemptCount < c.maxAttempts ==> o == Deliver(c, x, w))
  {
  }

  /** The worker handles a row for a message, or as a candidate of the retry pass that began at `at`. */
  datatype Job = ForMessage | ForPass(at: nat)

  function Handle(c: Config, x: Delivery, job: Job, w: World): Outcome {
    match job
    case ForMessage => Deliver(c, x, w)
    case ForPass(at) => Retry(c, x, at, w)
  }

  function Recovered(x: Delivery, now: nat): Delivery { x.(row := Recover(x.row, now)) }

  ghost predicate InRetryOrder(rows: map<Key, Row>, j: Key, k: Key) {
    j in rows && k in rows
    && (rows[j].nextRetryAt.None?
        || (rows[k].nextRetryAt.Some? && rows[j].nextRetryAt.value <= rows[k].nextRetryAt.value))
  }

  function DueKeys(rows: map<Key, Row>, now: nat): set<Key> {
    set k | k in rows && Eligible(rows[k], now)
  }

  /** The rows the query returns: due rows, each once, earliest first, as many as there are up to the
      batch size, and none that is due earlier is passed over. */
  ghost predicate IsBatch(rows: map<Key, Row>, now: nat, batch: seq<Key>) {
    && Distinct(batch) && |batch| == Min(|DueKeys(rows, now)|, RETRY_BATCH_SIZE)
    && (forall i :: 0 <= i < |batch| ==> batch[i] in DueKeys(rows, now))
    && (forall i, j :: 0 <= i < j < |batch| ==> InRetryOrder(rows, batch[i], batch[j]))
    && (forall i, k :: 0 <= i < |batch| && k in DueKeys(rows, now) && k !in batch ==> InRetryOrder(rows, batch[i], k))
  }

  /** A batch that is not full takes every due row. */
  lemma SmallBatchTakesAll(rows: map<Key, Row>, now: nat, batch: seq<Key>)
    requires IsBatch(rows, now, batch) && |DueKeys(rows, now)| <= 50
    ensures forall k :: k in batch <==> k in DueKeys(rows, now)
  {
    DistinctCount(batch);
    SubsetOfSameSize(Members(batch), DueKeys(rows, now));
    forall k ensures k in batch <==> k in DueKeys(rows, now) {
      assert k in batch <==> k in Members(batch);
    }
  }

  // ---------------------------------------------------------------- retry passes over the whole table

  type Table = map<Key, Delivery>

  function Rows(t: Table): map<Key, Row> { map k | k in t :: t[k].row }

  function RecoverAll(t: Table, now: nat): Table { map k | k in t :: Recovered(t[k], now) }

  datatype Round = Round(now: nat, batch: seq<Key>, world: map<Key, World>)

  /** All these rows are handled, each on its own. */
  function HandleAll(c: Config, t: Table, job: Job, batch: seq<Key>, world: map<Key, World>): Table
    requires Members(batch) <= world.Keys
  {
    map k | k in t :: if k in Members(batch) then Handle(c, t[k], job, world[k]).delivery else t[k]
  }

  ghost predicate AnyThrew(c: Config, t: Table, job: Job, batch: seq<Key>, world: map<Key, World>)
    requires Members(batch) <= world.Keys
  {
    exists k :: k in Members(batch) && k in t && Handle(c, t[k], job, world[k]).threw
  }

  lemma HandleOneMore(c: Config, t: Table, job: Job, batch: seq<Key>, k: Key, world: map<Key, World>)
    requires Members(batch) + {k} <= world.Keys && k in t && k !in batch
    ensures Members(batch + [k]) == Members(batch) + {k}
    ensures HandleAll(c, t, job, batch, world)[k] == t[k]
    ensures HandleAll(c, t, job, batch + [k], world)
         == HandleAll(c, t, job, batch, world)[k := Handle(c, t[k], job, world[k]).delivery]
    ensures AnyThrew(c, t, job, batch + [k], world)
       <==> AnyThrew(c, t, job, batch, world) || Handle(c, t[k], job, world[k]).threw
  {
  }

  function RetryPass(c: Config, t: Table, r: Round): Table
    requires Members(r.batch) <= r.world.Keys
  {
    HandleAll(c, RecoverAll(t, r.now), ForPass(r.now), r.batch, r.world)
  }

  function TargetKeys(e: EventId, apps: seq<AppId>): (keys: seq<Key>)
    ensures |keys| == |apps| && forall i :: 0 <= i < |apps| ==> keys[i] == Key(e, apps[i])
  {
    seq(|apps|, i requires 0 <= i < |apps| => Key(e, apps[i]))
  }

  function CreateMissing(t: Table, keys: seq<Key>): Table {
    (map k | k in Members(keys) :: Delivery(NEW_ROW, 0, 0)) + t
  }

  function ProcessMessage(c: Config, t: Table, keys: seq<Key>, world: map<Key, World>): Table
    requires Members(keys) <= world.Keys
  {
    HandleAll(c, CreateMissing(t, keys), ForMessage, keys, world)
  }

  /** Whatever other workers do, a message that was handled has a row past PENDING for every target. */
  lemma HandledIsPastPending(c: Config, t: Table, keys: seq<Key>, world: map<Key, World>)
    requires Members(keys) <= world.Keys
    requires forall k :: k in CreateMissing(t, keys) ==> RowOk(CreateMissing(t, keys)[k].row)
    requires forall k :: k in Members(keys) ==> LawfulDelivery(CreateMissing(t, keys)[k], world[k])
    ensures var u := ProcessMessage(c, t, keys, world);
            forall k :: k in Members(keys) ==> k in u && u[k].row.status != Pending && RowOk(u[k].row)
  {
    var m := CreateMissing(t, keys);
    forall k | k in Members(keys)
      ensures k in m && Deliver(c, m[k], world[k]).delivery.row.status != Pending
           && RowOk(Deliver(c, m[k], world[k]).delivery.row)
    {
      DeliverLeavesPending(c, m[k], world[k]);
    }
  }

  /** What a pass makes of one row: orphaned for 30 seconds it waits again and is due; in the batch it is
      then handled on its own; else that is all. A message does the same for its targets, whose missing
      rows are new, and touches no other row. */
  lemma EachRowExactly(c: Config, t: Table, r: Round, keys: seq<Key>, world: map<Key, World>, k: Key)
    requires Members(r.batch) <= r.world.Keys && Members(keys) <= world.Keys
    requires k in t ==> RowOk(t[k].row)
    ensures k in t ==>
              var x := t[k].row;
              var waiting := if x.status == Processing && x.lastAttemptAt.value + 30_000 <= r.now
                             then t[k].(row := x.(status := Retrying, nextRetryAt := Some(r.now))) else t[k];
              k in RetryPass(c, t, r)
              && RetryPass(c, t, r)[k]
                 == if k in r.batch then Retry(c, waiting, r.now, r.world[k]).delivery else waiting
    ensures k in ProcessMessage(c, t, keys, world) <==> k in t || k in keys
    ensures k in t || k in keys ==>
              var before := if k in t then t[k] else Delivery(Row(Pending, 0, None, None, None), 0, 0);
              ProcessMessage(c, t, keys, world)[k] == if k in keys then Deliver(c, before, world[k]).delivery
                  else before
  {
    assert k in r.batch <==> k in Members(r.batch);
    assert k in keys <==> k in Members(keys);
  }

  // ---------------------------------------------------------------- an application that never answers

  /** Nobody else touches the row; the request fails, and the dead-letter queue works. */
  predicate NeverAnswers(c: Config, x: Delivery, now: nat, w: World) {
    && w.readable && w.beforeClaim.None? && w.beforeSave.None? && now <= w.attemptedAt <= w.answeredAt
    && (w.ok <==> x.row.attemptCount >= c.maxAttempts)
  }

  /** A pass in which the application of `k` does not answer and nobody else touches that row. The pass
      takes the row if it is due, as it must if at most a batch of rows is due. Every other row may be
      delivered, fail, be taken over or be left to a later pass. */
  ghost predicate QuietRound(c: Config, t: Table, r: Round, k: Key) {
    var due := DueKeys(Rows(RecoverAll(t, r.now)), r.now);
    && Members(r.batch) <= r.world.Keys
    && IsBatch(Rows(RecoverAll(t, r.now)), r.now, r.batch)
    && (|due| <= RETRY_BATCH_SIZE || (k in due ==> k in r.batch))
    && (k in r.batch && k in t ==> NeverAnswers(c, t[k], r.now, r.world[k]))
  }

  ghost predicate QuietRounds(c: Config, t: Table, rounds: seq<Round>, k: Key)
    decreases rounds
  {
    rounds == [] || (QuietRound(c, t, rounds[0], k) && QuietRounds(c, RetryPass(c, t, rounds[0]), rounds[1..], k))
  }

  predicate AreCovered(rounds: seq<Round>) {
    forall i :: 0 <= i < |rounds| ==> Members(rounds[i].batch) <= rounds[i].world.Keys
  }

  function RunRounds(c: Config, t: Table, rounds: seq<Round>): Table
    requires AreCovered(rounds)
    decreases rounds
  {
    if rounds == [] then t else RunRounds(c, RetryPass(c, t, rounds[0]), rounds[1..])
  }

  /** Every round comes when the row is due, unless the delivery has ended. */
  ghost predicate OnTime(c: Config, t: Table, rounds: seq<Round>, k: Key)
    requires AreCovered(rounds)
    decreases rounds
  {
    rounds == [] || (
      && k in t && RowOk(t[k].row)
      && (t[k].row.status == Retrying ==> DueAt(t[k].row) <= rounds[0].now)
      && OnTime(c, RetryPass(c, t, rounds[0]), rounds[1..], k))
  }

  /** What is true of a delivery whose application never answers: one request an attempt, and a dead
      letter exactly when it failed. */
  predicate Failing(c: Config, x: Delivery) {
    && RowOk(x.row) && x.requests == x.row.attemptCount <= c.maxAttempts
    && (x.row.status == Retrying || x.row.status == Failed)
    && x.letters == (if x.row.status == Failed then 1 else 0)
    && (x.row.status == Failed ==> x.row.attemptCount == c.maxAttempts)
  }

  /** The rounds still needed. */
  function Remaining(c: Config, r: Row): nat {
    if r.status == Failed then 0 else 1 + Max(c.maxAttempts - r.attemptCount, 0)
  }

  lemma FailedAttempt(c: Config, x: Delivery, now: nat, w: World)
    requires ValidConfig(c) && Failing(c, x) && Eligible(x.row, now) && NeverAnswers(c, x, now, w)
    ensures var y := Retry(c, x, now, w).delivery; Failing(c, y) && Remaining(c, y.row) == Remaining(c, x.row) - 1
  {
  }

  lemma DueIsTaken(c: Config, t: Table, r: Round, k: Key)
    requires k in t && t[k].row.status != Processing && QuietRound(c, t, r, k)
    ensures RecoverAll(t, r.now)[k] == t[k]
    ensures k in Members(r.batch) <==> Eligible(t[k].row, r.now)
  {
    var rows := Rows(RecoverAll(t, r.now));
    assert RecoverAll(t, r.now)[k] == t[k];
    assert k in DueKeys(rows, r.now) <==> Eligible(t[k].row, r.now);
    assert k in r.batch <==> k in Members(r.batch);
    if |DueKeys(rows, r.now)| <= RETRY_BATCH_SIZE {
      SmallBatchTakesAll(rows, r.now, r.batch);
    }
  }

  /** A round that finds the row due brings its end one step closer; any other leaves it alone. */
  lemma RoundProgress(c: Config, t: Table, r: Round, k: Key)
    requires ValidConfig(c) && k in t && Failing(c, t[k]) && QuietRound(c, t, r, k)
    ensures var y := RetryPass(c, t, r)[k];
            && Failing(c, y)
            && (if Eligible(t[k].row, r.now) then Remaining(c, y.row) == Remaining(c, t[k].row) - 1 else y == t[k])
  {
    DueIsTaken(c, t, r, k);
    if Eligible(t[k].row, r.now) {
      FailedAttempt(c, t[k], r.now, r.world[k]);
    }
  }

  lemma {:induction false} RoundsCountDown(c: Config, t: Table, rounds: seq<Round>, k: Key)
    requires ValidConfig(c) && k in t && Failing(c, t[k]) && AreCovered(rounds) && QuietRounds(c, t, rounds, k)
             && OnTime(c, t, rounds, k)
    ensures var u := RunRounds(c, t, rounds);
            k in u && Failing(c, u[k]) && Remaining(c, u[k].row) == Max(Remaining(c, t[k].row) - |rounds|, 0)
    decreases rounds
  {
    if rounds != [] {
      RoundProgress(c, t, rounds[0], k);
      assert t[k].row.status == Retrying ==> Eligible(t[k].row, rounds[0].now);
      RoundsCountDown(c, RetryPass(c, t, rounds[0]), rounds[1..], k);
    }
  }

  /** The first delivery of a message to an application that does not answer. */
  predicate FirstAttemptFails(t: Table, keys: seq<Key>, world: map<Key, World>, k: Key) {
    && Members(keys) <= world.Keys && k in Members(keys) && k !in t
    && !world[k].ok && world[k].beforeClaim.None? && world[k].beforeSave.None?
  }

  lemma FirstAttempt(c: Config, t: Table, keys: seq<Key>, world: map<Key, World>, k: Key)
    requires ValidConfig(c) && FirstAttemptFails(t, keys, world, k)
    ensures var u := ProcessMessage(c, t, keys, world);
            k in u && Failing(c, u[k]) && u[k].row.status == Retrying && u[k].row.attemptCount == 1
  {
    assert CreateMissing(t, keys)[k] == Delivery(NEW_ROW, 0, 0);
  }

  /** A message with one target that never answers: after its first attempt and n rounds that each come
      when the row is due, that delivery waits with n + 1 requests made, or, from n == maxAttempts on, has
      failed after exactly maxAttempts requests with exactly one dead letter. What becomes of the other
      targets and of all other deliveries does not matter. */
  lemma NeverAnsweredFailsExactly(c: Config, t: Table, keys: seq<Key>, world: map<Key, World>, k: Key,
                                  rounds: seq<Round>)
    requires ValidConfig(c) && FirstAttemptFails(t, keys, world, k)
    requires AreCovered(rounds) && QuietRounds(c, ProcessMessage(c, t, keys, world), rounds, k)
    requires OnTime(c, ProcessMessage(c, t, keys, world), rounds, k)
    ensures var u := RunRounds(c, ProcessMessage(c, t, keys, world), rounds);
            && k in u
            && (if |rounds| < c.maxAttempts
                then u[k].row.status == Retrying && u[k].requests == |rounds| + 1 && u[k].letters == 0
                else u[k].row.status == Failed && u[k].requests == c.maxAttempts && u[k].letters == 1)
  {
    FirstAttempt(c, t, keys, world, k);
    RoundsCountDown(c, ProcessMessage(c, t, keys, world), rounds, k);
  }

  /** The second row is one attempt further and due the scheduled delay after this answer. */
  predicate IsSpaced(c: Config, x: Row, y: Row, answeredAt: nat)
    requires RowOk(x) && RowOk(y) && x.status == Retrying && y.status == Retrying
  {
    && y.attemptCount == x.attemptCount + 1 && DueAt(x) <= answeredAt
    && DueAt(y) == answeredAt + RetryDelayMs(c.retryBaseMs, c.retryMaxMs, y.attemptCount)
  }

  lemma NextAttempt(c: Config, t: Table, r: Round, k: Key)
    requires ValidConfig(c) && k in t && Failing(c, t[k]) && QuietRound(c, t, r, k)
    requires t[k].row.status == Retrying && DueAt(t[k].row) <= r.now && t[k].row.attemptCount + 1 < c.maxAttempts
    ensures var y := RetryPass(c, t, r)[k];
            && Failing(c, y) && y.row.status == Retrying
            && k in r.world && IsSpaced(c, t[k].row, y.row, r.world[k].answeredAt)
  {
    RoundProgress(c, t, r, k);
    DueIsTaken(c, t, r, k);
  }

  /** How much later than due the answers of these rounds came, all in all. */
  ghost function Lateness(c: Config, t: Table, rounds: seq<Round>, k: Key): int
    requires AreCovered(rounds)
    decreases rounds
  {
    if rounds == [] then 0
    else
      (if k in rounds[0].world && k in t && t[k].row.nextRetryAt.Some?
       then rounds[0].world[k].answeredAt - t[k].row.nextRetryAt.value else 0)
      + Lateness(c, RetryPass(c, t, rounds[0]), rounds[1..], k)
  }

  /** The second row is `n` attempts further, and due the waits between them and the lateness later. */
  predicate HasWaited(c: Config, x: Row, y: Row, n: nat, late: int)
    requires RowOk(x) && RowOk(y) && x.status == Retrying && y.status == Retrying
  {
    && y.attemptCount == x.attemptCount + n && late >= 0
    && DueAt(y) - DueAt(x)
       == TotalWait(c.retryBaseMs, c.retryMaxMs, y.attemptCount)
          - TotalWait(c.retryBaseMs, c.retryMaxMs, x.attemptCount) + late
  }

  lemma WaitsChain(c: Config, x: Row, y: Row, z: Row, n: nat, answeredAt: nat, late: int)
    requires RowOk(x) && RowOk(y) && RowOk(z) && x.status == Retrying && y.status == Retrying && z.status == Retrying
    requires IsSpaced(c, x, y, answeredAt) && HasWaited(c, y, z, n, late)
    ensures HasWaited(c, x, z, n + 1, answeredAt - DueAt(x) + late)
  {
  }

  /** Between two attempts that may still be repeated lies exactly the sum of the scheduled waits and of
      the time by which the answers came later than the rows were due: never less than the waits, and no
      more if each pass comes when the row is due and its request is answered at once. */
  lemma {:induction false} WaitsAddUp(c: Config, t: Table, rounds: seq<Round>, k: Key)
    requires ValidConfig(c) && k in t && Failing(c, t[k]) && t[k].row.status == Retrying
    requires AreCovered(rounds) && QuietRounds(c, t, rounds, k) && OnTime(c, t, rounds, k)
             && t[k].row.attemptCount + |rounds| < c.maxAttempts
    ensures var u := RunRounds(c, t, rounds);
            && k in u && Failing(c, u[k]) && u[k].row.status == Retrying
            && HasWaited(c, t[k].row, u[k].row, |rounds|, Lateness(c, t, rounds, k))
    decreases rounds
  {
    if rounds != [] {
      var m := RetryPass(c, t, rounds[0]);
      NextAttempt(c, t, rounds[0], k);
      WaitsAddUp(c, m, rounds[1..], k);
      WaitsChain(c, t[k].row, m[k].row, RunRounds(c, t, rounds)[k].row, |rounds| - 1, rounds[0].world[k].answeredAt,
                 Lateness(c, m, rounds[1..], k));
    }
  }
}
