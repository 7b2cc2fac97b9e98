/** One cycle of the outbox publisher: it claims each candidate under a lease and an attempt number,
    hands it to the broker, and settles it, while other publishers work on the same outbox. */
module OutboxPublisher {
  import opened Vocabulary
  import opened Pipeline
  import opened Sequences
  import Backoff

  datatype Answer = Confirmed | BrokerFailed | OtherFailure

  /** The world as one candidate meets it: what other publishers make of the row before the claim and
      before the settlement, when the attempt starts and is settled, and how the broker answers. */
  datatype Sending = Sending(
    beforeClaim: Option<OutboxRow>,
    startedAt: nat,
    answer: Answer,
    beforeSettling: Option<OutboxRow>,
    settledAt: nat)

  function Raced(r: OutboxRow, race: Option<OutboxRow>): OutboxRow { if race.Some? then race.value else r }

  type Outbox = map<EventId, OutboxRow>

  // ---------------------------------------------------------------- the guarded updates

  function ClaimLease(cfg: Settings, r: OutboxRow, seenCount: nat, at: nat): Option<OutboxRow> {
    if PublishDue(r, at) && r.attempts == seenCount
        then Some(OutboxRow(false, seenCount + 1, Some(at + cfg.leaseMs))) else None
  }

  function MarkPublished(r: OutboxRow, attempt: nat): Option<OutboxRow> {
    if !r.published && r.attempts == attempt then Some(OutboxRow(true, attempt, None)) else None
  }

  function PostponeRetry(cfg: Settings, r: OutboxRow, attempt: nat, failedAt: nat): Option<OutboxRow> {
    if !r.published && r.attempts == attempt
    then Some(r.(nextAttemptAt := Some(failedAt + Backoff.RetryDelayMs(cfg.publishBaseMs, cfg.publishMaxMs, attempt))))
    else None
  }

  // ---------------------------------------------------------------- one candidate, and a whole cycle

  /** `sent` says that the broker was called, `own` that this call itself published the row. */
  datatype Outcome = Outcome(row: OutboxRow, sent: bool, own: bool, stop: bool)

  function PublishOne(cfg: Settings, r: OutboxRow, seenCount: nat, w: Sending): Outcome {
    match ClaimLease(cfg, Raced(r, w.beforeClaim), seenCount, w.startedAt)
    case None => Outcome(Raced(r, w.beforeClaim), false, false, false)
    case Some(claimed) =>
      var raced := Raced(claimed, w.beforeSettling);
      var update := if w.answer.Confirmed? then MarkPublished(raced, seenCount + 1)
                    else PostponeRetry(cfg, raced, seenCount + 1, w.settledAt);
      Outcome(Raced(raced, update), true, w.answer.Confirmed? && update.Some?, w.answer.BrokerFailed?)
  }

  datatype Cycle = Cycle(outbox: Outbox, published: seq<EventId>)

  /** A claim is granted exactly on a pending row that is due and has the attempts that were read; its
      lease keeps every later claim out until it has run out. */
  lemma LeaseKeepsOthersOut(cfg: Settings, r: OutboxRow, seenCount: nat, at: nat, laterCount: nat, later: nat)
    ensures var u := ClaimLease(cfg, r, seenCount, at);
            && (u.Some? <==> !r.published && r.attempts == seenCount
                             && (r.nextAttemptAt.Some? ==> r.nextAttemptAt.value <= at))
            && (u.Some? ==>
                  && !u.value.published && u.value.attempts == seenCount + 1
                  && (ClaimLease(cfg, u.value, laterCount, later).Some? <==>
                        laterCount == seenCount + 1 && at + cfg.leaseMs <= later))
  {
  }

  /** A failed attempt `n` makes the row due after the base delay doubled once for each attempt before, 30
      times at most, and never later than the cap; whoever was overtaken postpones nothing. */
  lemma FailureIsDue(cfg: Settings, r: OutboxRow, n: nat, failedAt: nat)
    requires n >= 1
    ensures var u := PostponeRetry(cfg, r, n, failedAt);
            && (u.Some? <==> !r.published && r.attempts == n)
            && (u.Some? ==>
                  u.value == r.(nextAttemptAt := Some(
                    failedAt + Min(cfg.publishBaseMs * Backoff.Pow2(Min(n - 1, 30)), cfg.publishMaxMs))))
  {
  }

  /** What becomes of one candidate, by what the broker answers and what others did: it is sent exactly
      under a granted claim; this call published it exactly if the broker confirmed and nobody published
      it or claimed it again meanwhile; the cycle stops exactly at a failure of the broker. */
  lemma CandidateExactly(cfg: Settings, r: OutboxRow, seenCount: nat, w: Sending)
    ensures var o := PublishOne(cfg, r, seenCount, w);
            var seen := Raced(r, w.beforeClaim);
            var claimed := OutboxRow(false, seenCount + 1, Some(w.startedAt + cfg.leaseMs));
            var held := Raced(claimed, w.beforeSettling);
            && (o.sent <==> !seen.published && seen.attempts == seenCount
                            && (seen.nextAttemptAt.Some? ==> seen.nextAttemptAt.value <= w.startedAt))
            && (o.own <==> o.sent && w.answer.Confirmed? && !held.published && held.attempts == seenCount + 1)
            && (o.stop <==> o.sent && w.answer.BrokerFailed?)
            && (if o.own then o.row == OutboxRow(true, seenCount + 1, None)
                else if !o.sent then o.row == seen
                else o.row.published == held.published && o.row.attempts == held.attempts)
  {
  }

  /** The candidates are taken in turn; a failure of the broker ends the cycle. */
  function PublishAll(cfg: Settings, t: Outbox, batch: seq<EventId>, seen: map<EventId, nat>,
                      world: map<EventId, Sending>): Cycle
    requires forall e :: e in batch ==> e in t && e in seen && e in world
    decreases batch
  {
    if batch == [] then Cycle(t, [])
    else
      var o := PublishOne(cfg, t[batch[0]], seen[batch[0]], world[batch[0]]);
      var mine := if o.own then [batch[0]] else [];
      var t' := t[batch[0] := o.row];
      if o.stop then Cycle(t', mine)
      else
        var rest := PublishAll(cfg, t', batch[1..], seen, world);
        rest.(published := mine + rest.published)
  }

  /** The steps of the transition system that one candidate goes through. */
  function AsSteps(cfg: Settings, b: Publishing, p: PublisherId, w: Sending): Publishing
    requires p in b.publishers && b.publishers[p].event in b.outbox
  {
    var e := b.publishers[p].event;
    var claimed := ApplyClaimPublish(cfg, b.(outbox := b.outbox[e := Raced(b.outbox[e], w.beforeClaim)]), p,
                                     w.startedAt);
    if claimed.publishers[p].phase != Claimed then claimed
    else
      var raced := Raced(claimed.outbox[e], w.beforeSettling);
      var sent := claimed.publishers[p].(phase := Sent(w.answer.Confirmed?));
      ApplySettlePublish(cfg, Publishing(claimed.outbox[e := raced], claimed.publishers[p := sent], claimed.wins), p,
                         w.settledAt)
  }

  /** Handling a candidate is exactly those steps, so what holds in every state of the pipeline holds
      of the publisher. */
  lemma PublishTakesSteps(cfg: Settings, b: Publishing, p: PublisherId, w: Sending)
    requires p in b.publishers && b.publishers[p].event in b.outbox
    requires b.publishers[p].phase == Chosen && b.publishers[p].attempt >= 1
    ensures var x := b.publishers[p];
            var o := PublishOne(cfg, b.outbox[x.event], x.attempt - 1, w);
            && AsSteps(cfg, b, p, w).outbox == b.outbox[x.event := o.row]
            && AsSteps(cfg, b, p, w).publishers == b.publishers[p := x.(phase := Finished)]
            && AsSteps(cfg, b, p, w).wins == b.wins + if o.sent then {PublishWin(x.event, x.attempt, p)} else {}
  {
  }

  predicate PublishedByOther(w: Sending) {
    (w.beforeClaim.Some? && w.beforeClaim.value.published)
        || (w.beforeSettling.Some? && w.beforeSettling.value.published)
  }

  /** A candidate is published afterwards by this call, with the broker's confirmation, or by another
      publisher. */
  lemma OneIsAccountedFor(cfg: Settings, r: OutboxRow, seenCount: nat, w: Sending)
    requires !r.published
    ensures var o := PublishOne(cfg, r, seenCount, w);
            && (o.own ==> o.row.published && w.answer.Confirmed? && !o.stop)
            && (o.row.published && !o.own ==> PublishedByOther(w))
            && (o.own ==> !(w.beforeSettling.Some? && w.beforeSettling.value.published))
  {
  }

  /** What a cycle reports as published is exactly what this call published: each row once, only rows
      that the broker confirmed, and every other candidate that ends up published was published by
      another publisher. Rows that are no candidates stay as they are. */
  lemma {:induction false} CycleCountsOwn(cfg: Settings, t: Outbox, batch: seq<EventId>, seen: map<EventId, nat>,
                                          world: map<EventId, Sending>)
    requires forall e :: e in batch ==> e in t && e in seen && e in world && !t[e].published
    requires Distinct(batch)
    ensures var c := PublishAll(cfg, t, batch, seen, world);
            && c.outbox.Keys == t.Keys && Distinct(c.published)
            && (forall e :: e in t && e !in batch ==> c.outbox[e] == t[e])
            && (forall e :: e in c.published ==> e in batch && c.outbox[e].published && world[e].answer.Confirmed?)
            && (forall e :: e in batch && c.outbox[e].published && e !in c.published ==> PublishedByOther(world[e]))
    decreases batch
  {
    if batch != [] {
      var o := PublishOne(cfg, t[batch[0]], seen[batch[0]], world[batch[0]]);
      OneIsAccountedFor(cfg, t[batch[0]], seen[batch[0]], world[batch[0]]);
      if !o.stop {
        var t' := t[batch[0] := o.row];
        assert forall e :: e in batch[1..] ==> e in batch && e != batch[0];
        CycleCountsOwn(cfg, t', batch[1..], seen, world);
      }
    }
  }

  ghost predicate IsReached(cfg: Settings, t: Outbox, batch: seq<EventId>, seen: map<EventId, nat>,
                            world: map<EventId, Sending>, i: nat)
    requires forall e :: e in batch ==> e in t && e in seen && e in world
    requires i < |batch|
  {
    forall j :: 0 <= j < i ==> !PublishOne(cfg, t[batch[j]], seen[batch[j]], world[batch[j]]).stop
  }

  /** A cycle handles every candidate, in turn and each on its own, up to the first failure of the broker,
      and leaves those after it as they are. */
  lemma {:induction false} CycleHandlesAll(cfg: Settings, t: Outbox, batch: seq<EventId>, seen: map<EventId, nat>,
                                           world: map<EventId, Sending>, i: nat)
    requires forall e :: e in batch ==> e in t && e in seen && e in world
    requires Distinct(batch) && i < |batch|
    ensures var c := PublishAll(cfg, t, batch, seen, world);
            var o := PublishOne(cfg, t[batch[i]], seen[batch[i]], world[batch[i]]);
            var reached := IsReached(cfg, t, batch, seen, world, i);
            && batch[i] in c.outbox && c.outbox[batch[i]] == (if reached then o.row else t[batch[i]])
            && (batch[i] in c.published <==> reached && o.own)
    decreases batch
  {
    var o := PublishOne(cfg, t[batch[0]], seen[batch[0]], world[batch[0]]);
    var t' := t[batch[0] := o.row];
    assert forall e :: e in batch[1..] ==> e in batch && e != batch[0];
    if !o.stop {
      if i > 0 {
        CycleHandlesAll(cfg, t', batch[1..], seen, world, i - 1);
        assert forall j :: 0 <= j < |batch[1..]| ==>
               batch[1..][j] == batch[j + 1] && t'[batch[j + 1]] == t[batch[j + 1]];
        SameReach(cfg, t, t', batch, seen, world, i);
      } else {
        OnlyCandidates(cfg, t', batch[1..], seen, world, batch[0]);
      }
    }
  }

  lemma SameReach(cfg: Settings, t: Outbox, t': Outbox, batch: seq<EventId>, seen: map<EventId, nat>,
                  world: map<EventId, Sending>, i: nat)
    requires forall e :: e in batch ==> e in t && e in t' && e in seen && e in world
    requires 0 < i < |batch| && forall j :: 0 < j < |batch| ==> t'[batch[j]] == t[batch[j]]
    requires !PublishOne(cfg, t[batch[0]], seen[batch[0]], world[batch[0]]).stop
    ensures IsReached(cfg, t, batch, seen, world, i) <==> IsReached(cfg, t', batch[1..], seen, world, i - 1)
  {
    assert forall j :: 0 <= j < |batch[1..]| ==> batch[1..][j] == batch[j + 1];
    if IsReached(cfg, t', batch[1..], seen, world, i - 1) {
      forall j | 0 <= j < i ensures !PublishOne(cfg, t[batch[j]], seen[batch[j]], world[batch[j]]).stop {
        assert j > 0 ==> batch[1..][j - 1] == batch[j];
      }
    }
  }

  lemma {:induction false} OnlyCandidates(cfg: Settings, t: Outbox, batch: seq<EventId>, seen: map<EventId, nat>,
                                          world: map<EventId, Sending>, e: EventId)
    requires forall e :: e in batch ==> e in t && e in seen && e in world
    requires e in t && e !in batch
    ensures var c := PublishAll(cfg, t, batch, seen, world);
            e in c.outbox && c.outbox[e] == t[e] && e !in c.published
    decreases batch
  {
    if batch != [] {
      var o := PublishOne(cfg, t[batch[0]], seen[batch[0]], world[batch[0]]);
      if !o.stop {
        OnlyCandidates(cfg, t[batch[0] := o.row], batch[1..], seen, world, e);
      }
    }
  }

  // ---------------------------------------------------------------- the publisher

  class OutboxPublisherService {
    const settings: Settings
    var outbox: Outbox

    constructor (settings: Settings, outbox: Outbox)
      ensures this.settings == settings && this.outbox == outbox
    {
      this.settings, this.outbox := settings, outbox;
    }

    /** Other publishers run while this one waits. */
    method OthersRun(e: EventId, race: Option<OutboxRow>)
      requires e in outbox
      modifies this`outbox
      ensures e in outbox && outbox == old(outbox)[e := outbox[e]] && outbox[e] == Raced(old(outbox[e]), race)
    {
      if race.Some? {
        outbox := outbox[e := race.value];
      }
    }

    method UpdateMany(e: EventId, update: Option<OutboxRow>) returns (count: nat)
      requires e in outbox
      modifies this`outbox
      ensures e in outbox && outbox == old(outbox)[e := outbox[e]] && outbox[e] == Raced(old(outbox[e]), update)
      ensures count == if update.Some? then 1 else 0
    {
      if update.None? {
        return 0;
      }
      outbox := outbox[e := update.value];
      return 1;
    }

    method PublishCandidate(e: EventId, seenCount: nat, w: Sending) returns (count: nat, stop: bool)
      requires e in outbox
      modifies this`outbox
      ensures e in outbox && outbox == old(outbox)[e := outbox[e]]
      ensures var o := PublishOne(settings, old(outbox[e]), seenCount, w);
              outbox[e] == o.row && stop == o.stop && count == if o.own then 1 else 0
    {
      var attemptNumber := seenCount + 1;
      OthersRun(e, w.beforeClaim);
      var claim := UpdateMany(e, ClaimLease(settings, outbox[e], seenCount, w.startedAt));
      if claim != 1 {
        return 0, false;
      }
      OthersRun(e, w.beforeSettling);
      if w.answer.Confirmed? {
        count := UpdateMany(e, MarkPublished(outbox[e], attemptNumber));
        return count, false;
      }
      var _ := UpdateMany(e, PostponeRetry(settings, outbox[e], attemptNumber, w.settledAt));
      return 0, w.answer.BrokerFailed?;
    }

    /** `candidates` is the answer of the database to the query for due rows. The number returned is the
        number of rows this call published. */
    method PublishPendingBatch(candidates: seq<EventId>, eligibleAt: nat, world: map<EventId, Sending>)
      returns (publishedCount: nat)
      requires Distinct(candidates)
      requires forall e :: e in candidates ==> e in outbox && e in world && PublishDue(outbox[e], eligibleAt)
      modifies this`outbox
      ensures var c := PublishAll(settings, old(outbox), candidates, Attempts(old(outbox)), world);
              outbox == c.outbox && publishedCount == |c.published|
    {
      publishedCount := 0;
      var seen := Attempts(outbox);
      var i, stop := 0, false;
      ghost var whole := PublishAll(settings, outbox, candidates, seen, world);
      while i < |candidates| && !stop
        invariant 0 <= i <= |candidates| && outbox.Keys == old(outbox).Keys
        invariant stop ==> outbox == whole.outbox && publishedCount == |whole.published|
        invariant !stop ==>
                    var rest := PublishAll(settings, outbox, candidates[i..], seen, world);
                    whole.outbox == rest.outbox && |whole.published| == publishedCount + |rest.published|
        decreases |candidates| - i, !stop
      {
        var e := candidates[i];
        assert candidates[i..][0] == e && candidates[i..][1..] == candidates[i + 1..];
        var count, failed := PublishCandidate(e, seen[e], world[e]);
        publishedCount := publishedCount + count;
        if failed {
          stop := true;
        } else {
          i := i + 1;
        }
      }
    }
  }

  function Attempts(t: Outbox): map<EventId, nat> { map e | e in t :: t[e].attempts }
}
