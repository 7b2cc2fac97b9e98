/** One delivery row: the guarded updates of the Sync Worker as functions that give the new row,
    or None when the guard matches no row. */
module DeliveryRows {
  import opened Vocabulary
  import opened Backoff

  datatype DeliveryStatus = Pending | Processing | Succeeded | Retrying | Failed

  datatype Row = Row(
    status: DeliveryStatus,
    attemptCount: nat,
    lastAttemptAt: Option<nat>,
    nextRetryAt: Option<nat>,
    processedAt: Option<nat>)

  datatype Config = Config(maxAttempts: nat, retryBaseMs: nat, retryMaxMs: nat)

  const PROCESSING_LEASE_MS := 30_000
  const RETRY_BATCH_SIZE := 50
  const NEW_ROW := Row(Pending, 0, None, None, None)

  /** What the environment check of the worker enforces. */
  predicate ValidConfig(c: Config) {
    c.maxAttempts >= 1 && 1 <= c.retryBaseMs <= c.retryMaxMs
  }

  predicate DueBy(r: Row, now: nat) { r.nextRetryAt.None? || r.nextRetryAt.value <= now }

  // ---------------------------------------------------------------- deliver

  function ClaimDelivery(r: Row, seenStatus: DeliveryStatus, seenCount: nat, at: nat): Option<Row> {
    if (seenStatus == Pending || seenStatus == Retrying)
       && r.status == seenStatus && r.attemptCount == seenCount
       && (seenStatus == Retrying ==> DueBy(r, at))
    then Some(r.(status := Processing, attemptCount := seenCount + 1, lastAttemptAt := Some(at), nextRetryAt := None))
    else None
  }

  function NextRetryAt(c: Config, attempt: nat, failedAt: nat): nat {
    if attempt >= c.maxAttempts then failedAt else failedAt + RetryDelayMs(c.retryBaseMs, c.retryMaxMs, attempt)
  }

  function SaveRetry(c: Config, r: Row, attempt: nat, failedAt: nat): Option<Row> {
    if r.status == Processing && r.attemptCount == attempt
    then Some(r.(status := Retrying, nextRetryAt := Some(NextRetryAt(c, attempt, failedAt))))
    else None
  }

  function SaveSuccess(r: Row, attempt: nat, at: nat): Option<Row> {
    if r.status == Processing && r.attemptCount == attempt
    then Some(r.(status := Succeeded, processedAt := Some(at), nextRetryAt := None))
    else None
  }

  // ---------------------------------------------------------------- retry pass

  function Recover(r: Row, now: nat): Row {
    if r.status == Processing && r.lastAttemptAt.Some? && r.lastAttemptAt.value + PROCESSING_LEASE_MS <= now
    then r.(status := Retrying, nextRetryAt := Some(now))
    else r
  }

  predicate Eligible(r: Row, now: nat) { r.status == Retrying && DueBy(r, now) }

  // ---------------------------------------------------------------- moveToDeadLetter

  function ClaimDeadLetter(r: Row, seenCount: nat, now: nat): Option<Row> {
    if r.status == Retrying && r.attemptCount == seenCount && DueBy(r, now)
    then Some(r.(status := Processing, lastAttemptAt := Some(now), nextRetryAt := None))
    else None
  }

  function ReleaseDeadLetter(c: Config, r: Row, seenCount: nat, now: nat): Option<Row> {
    if r.status == Processing && r.attemptCount == seenCount
    then Some(r.(status := Retrying, nextRetryAt := Some(now + c.retryBaseMs)))
    else None
  }

  function SaveFailed(r: Row, seenCount: nat): Option<Row> {
    if r.status == Processing && r.attemptCount == seenCount
    then Some(r.(status := Failed, nextRetryAt := None))
    else None
  }

  // ---------------------------------------------------------------- bookkeeping

  /** The columns of a row agree with its status. */
  predicate RowOk(r: Row) {
    && (r.nextRetryAt.Some? <==> r.status == Retrying)
    && (r.status == Processing ==> r.lastAttemptAt.Some?)
    && (r.attemptCount == 0 <==> r.status == Pending)
    && (r.status == Succeeded <==> r.processedAt.Some?)
  }

  /** What any update by any worker may do to a row: attempts are only added, a row never returns to
      PENDING, and SUCCEEDED and FAILED are final. */
  predicate RowEvolves(a: Row, b: Row) {
    && a.attemptCount <= b.attemptCount
    && (a.status != Pending ==> b.status != Pending)
    && (a.status == Succeeded || a.status == Failed ==> b == a)
  }

  ghost predicate Updates(r: Row, u: Option<Row>) {
    u.Some? ==> RowOk(u.value) && RowEvolves(r, u.value)
  }

  lemma EveryUpdateKeepsBooks(c: Config, r: Row, status: DeliveryStatus, n: nat, t: nat)
    requires RowOk(r)
    ensures Updates(r, ClaimDelivery(r, status, n, t)) && Updates(r, SaveRetry(c, r, n, t))
    ensures Updates(r, SaveSuccess(r, n, t)) && Updates(r, ClaimDeadLetter(r, n, t))
    ensures Updates(r, ReleaseDeadLetter(c, r, n, t)) && Updates(r, SaveFailed(r, n))
    ensures Updates(r, Some(Recover(r, t))) && RowOk(NEW_ROW)
  {
  }

  // ---------------------------------------------------------------- what the updates mean

  /** An attempt is granted exactly on a row that is as it was read, PENDING or due for a retry; it is the
      next attempt, and starts now. */
  lemma AttemptGrantedExactly(r: Row, seenStatus: DeliveryStatus, n: nat, at: nat)
    ensures var u := ClaimDelivery(r, seenStatus, n, at);
            && (u.Some? <==>
                  && r.status == seenStatus && r.attemptCount == n
                  && (r.status == Pending
                      || (r.status == Retrying && (r.nextRetryAt.Some? ==> r.nextRetryAt.value <= at))))
            && (u.Some? ==> u.value == Row(Processing, n + 1, Some(at), None, r.processedAt))
  {
  }

  /** A row is taken for dead-lettering exactly while it waits under the count that was read and is due;
      that is no new attempt. */
  lemma DeadLetteringGrantedExactly(r: Row, n: nat, at: nat)
    ensures var u := ClaimDeadLetter(r, n, at);
            && (u.Some? <==> r.status == Retrying && r.attemptCount == n
                             && (r.nextRetryAt.Some? ==> r.nextRetryAt.value <= at))
            && (u.Some? ==> u.value == Row(Processing, n, Some(at), None, r.processedAt))
  {
  }

  /** Any outcome is saved exactly while the row is still being processed under the attempt number of who
      saves it. */
  lemma OutcomeSavedExactly(c: Config, r: Row, n: nat, at: nat)
    ensures var held := r.status == Processing && r.attemptCount == n;
            && SaveSuccess(r, n, at)
               == (if held then Some(Row(Succeeded, n, r.lastAttemptAt, None, Some(at))) else None)
            && SaveFailed(r, n) == (if held then Some(Row(Failed, n, r.lastAttemptAt, None, r.processedAt)) else None)
            && ReleaseDeadLetter(c, r, n, at)
               == (if held then Some(Row(Retrying, n, r.lastAttemptAt, Some(at + c.retryBaseMs), r.processedAt))
                   else None)
  {
  }

  /** A row is taken from its worker exactly 30 seconds after its attempt began, and is due at once. */
  lemma RecoveredExactly(r: Row, now: nat)
    requires RowOk(r)
    ensures Recover(r, now)
         == if r.status == Processing && r.lastAttemptAt.value + 30_000 <= now
            then Row(Retrying, r.attemptCount, r.lastAttemptAt, Some(now), r.processedAt) else r
  {
  }

  // ---------------------------------------------------------------- what a failure means

  /** The outcome of attempt `n` is saved exactly while the row is still at that attempt. After a failure
      the row is due at once if no attempt is left, and otherwise after the base delay doubled once for
      each attempt before, 30 times at most, and never later than the cap. */
  lemma FailureIsDue(c: Config, r: Row, n: nat, t: nat)
    requires RowOk(r)
    ensures var u := SaveRetry(c, r, n, t);
            && (u.Some? <==> r.status == Processing && r.attemptCount == n)
            && (u.Some? ==>
                  && n >= 1 && u.value == r.(status := Retrying, nextRetryAt := u.value.nextRetryAt)
                  && u.value.nextRetryAt.Some?
                  && DueAt(u.value)
                     == t + if n >= c.maxAttempts then 0 else Min(c.retryBaseMs * Pow2(Min(n - 1, 30)), c.retryMaxMs))
  {
  }

  /** From this time on a retry pass takes the row up, recovering it first if its worker is gone. */
  function DueAt(r: Row): nat
    requires RowOk(r) && (r.status == Retrying || r.status == Processing)
  {
    if r.status == Retrying then r.nextRetryAt.value else r.lastAttemptAt.value + PROCESSING_LEASE_MS
  }

  /** No row that waits or is being worked on is ever stranded. */
  lemma NeverStranded(r: Row, now: nat)
    requires RowOk(r) && (r.status == Retrying || r.status == Processing)
    ensures Eligible(Recover(r, now), now) <==> DueAt(r) <= now
  {
  }

  /** A row is taken up again no later than the cap, the retry base or the lease after the update
      that put it where it is. */
  lemma WaitBounded(c: Config, r: Row, status: DeliveryStatus, n: nat, t: nat)
    requires RowOk(r) && ValidConfig(c)
    ensures var u := SaveRetry(c, r, n, t); u.Some? ==> t <= DueAt(u.value) <= t + c.retryMaxMs
    ensures var u := ReleaseDeadLetter(c, r, n, t); u.Some? ==> DueAt(u.value) == t + c.retryBaseMs
    ensures var u := ClaimDelivery(r, status, n, t); u.Some? ==> DueAt(u.value) == t + PROCESSING_LEASE_MS
    ensures var u := ClaimDeadLetter(r, n, t); u.Some? ==> DueAt(u.value) == t + PROCESSING_LEASE_MS
  {
  }
}
