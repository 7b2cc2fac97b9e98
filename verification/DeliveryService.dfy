/** The delivery worker over the delivery table: the handling of a message, the retry pass, the recovery
    of orphaned deliveries and dead-lettering. */
module DeliveryService {
  import opened Vocabulary
  import opened DeliveryRows
  import opened Pipeline
  import opened Sequences
  import opened DeliveryOutcomes
  import opened Json
  import opened EventContract
  import EventIdentity

  datatype Settlement = Acknowledge | NonRetryable | Requeue

  // ---------------------------------------------------------------- the steps of the pipeline

  function WithRow(d: Delivering, k: Key, r: Row): Delivering { d.(rows := d.rows[k := r]) }

  /** The steps of the transition system that one call of the worker takes for one row. */
  function AsSteps(c: Config, d: Delivering, t: TaskId, w: World): Delivering
    requires t in d.tasks && d.tasks[t].key in d.rows
  {
    var k := d.tasks[t].key;
    var claimed := ApplyClaim(WithRow(d, k, Raced(d.rows[k], w.beforeClaim)), t, w.attemptedAt);
    if claimed.tasks[t].phase != Working then claimed
    else
      var raced := WithRow(claimed, k, Raced(claimed.rows[k], w.beforeSave));
      ApplySave(c, Progress(raced, t, Answered(w.ok)), t, w.answeredAt)
  }

  lemma ClaimEffect(d: Delivering, t: TaskId, at: nat)
    requires t in d.tasks && d.tasks[t].key in d.rows && d.tasks[t].phase == Ready && d.tasks[t].kind != ToDeadLetter
    ensures var x := d.tasks[t];
            var e := ApplyClaim(d, t, at);
            match ClaimDelivery(d.rows[x.key], x.seenStatus, x.seenCount, at)
            case Some(u) => e.rows == d.rows[x.key := u] && e.tasks == d.tasks[t := x.(phase := Working)]
            case None => e.rows == d.rows && e.tasks == d.tasks[t := x.(phase := Ended(false))]
  {
  }

  lemma SaveEffect(c: Config, d: Delivering, t: TaskId, at: nat)
    requires t in d.tasks && d.tasks[t].key in d.rows && d.tasks[t].phase.Answered?
    ensures var x := d.tasks[t];
            var e := ApplySave(c, d, t, at);
            match SavedRow(c, d.rows[x.key], x, at)
            case Some(u) => e.rows == d.rows[x.key := u] && e.tasks == d.tasks[t := x.(phase := Ended(false))]
            case None => e.rows == d.rows && e.tasks == d.tasks[t := x.(phase := Ended(true))]
  {
  }

  /** A call of `deliver` is exactly those steps, so what holds in every state of the pipeline holds of
      the worker. */
  lemma DeliverTakesSteps(c: Config, d: Delivering, t: TaskId, x: Delivery, w: World)
    requires t in d.tasks && d.tasks[t].key in d.rows && d.rows[d.tasks[t].key] == x.row
    requires d.tasks[t].phase == Ready && d.tasks[t].kind != ToDeadLetter
    requires d.tasks[t].seenStatus == x.row.status && d.tasks[t].seenCount == x.row.attemptCount
    requires x.row.status == Pending || x.row.status == Retrying
    ensures var o := Deliver(c, x, w);
            var e := AsSteps(c, d, t, w);
            && e.rows == d.rows[d.tasks[t].key := o.delivery.row]
            && e.tasks == d.tasks[t := d.tasks[t].(phase := Ended(o.threw))]
  {
    var k := d.tasks[t].key;
    var before := WithRow(d, k, Raced(d.rows[k], w.beforeClaim));
    ClaimEffect(before, t, w.attemptedAt);
    var claimed := ApplyClaim(before, t, w.attemptedAt);
    if claimed.tasks[t].phase == Working {
      var raced := WithRow(claimed, k, Raced(claimed.rows[k], w.beforeSave));
      SaveEffect(c, Progress(raced, t, Answered(w.ok)), t, w.answeredAt);
    }
  }

  lemma MoveToDeadLetterTakesSteps(c: Config, d: Delivering, t: TaskId, x: Delivery, w: World)
    requires t in d.tasks && d.tasks[t].key in d.rows && d.rows[d.tasks[t].key] == x.row
    requires d.tasks[t].phase == Ready && d.tasks[t].kind == ToDeadLetter && d.tasks[t].seenCount == x.row.attemptCount
    ensures var o := MoveToDeadLetter(c, x, d.tasks[t].startedAt, w);
            var e := AsSteps(c, d, t, w);
            && e.rows == d.rows[d.tasks[t].key := o.delivery.row]
            && e.tasks == d.tasks[t := d.tasks[t].(phase := Ended(o.threw))]
  {
  }

  // ---------------------------------------------------------------- the worker

  lemma KeysCovered(e: EventId, targets: seq<AppId>, registered: seq<AppId>)
    requires Distinct(registered) && (targets == registered || (|targets| == 1 && targets[0] in registered))
    ensures Distinct(TargetKeys(e, targets)) && Members(TargetKeys(e, targets)) <= Members(TargetKeys(e, registered))
  {
  }

  /** The outbox record holds this event. */
  ghost predicate IsStored(iso: Clock, stored: Option<Json>, queued: RevocationEvent) {
    && stored.Some? && ParseRevocationEvent(iso, stored.value).Some?
    && EventIdentity.SameEvent(ParseRevocationEvent(iso, stored.value).value, queued)
  }

  /** Only the entry of `k` may differ. */
  ghost predicate OnlyAt<V>(k: Key, m: map<Key, V>, n: map<Key, V>) { k in n && n == m[k := n[k]] }

  class RevocationDeliveryService {
    const config: Config
    var rows: map<Key, Row>
    ghost var requests: map<Key, nat>
    ghost var letters: map<Key, nat>

    constructor (config: Config)
      ensures Valid() && View() == map[] && this.config == config
    {
      this.config := config;
      rows, requests, letters := map[], map[], map[];
    }

    ghost predicate Valid()
      reads this
    {
      requests.Keys == rows.Keys && letters.Keys == rows.Keys
    }

    ghost function At(k: Key): Delivery
      reads this
      requires Valid() && k in rows
    {
      Delivery(rows[k], requests[k], letters[k])
    }

    ghost function View(): Table
      reads this
      requires Valid()
    {
      map k | k in rows :: At(k)
    }

    /** Other workers run while this one waits. */
    method OthersRun(k: Key, race: Option<Row>)
      requires k in rows
      modifies this`rows
      ensures OnlyAt(k, old(rows), rows) && rows[k] == Raced(old(rows[k]), race)
    {
      if race.Some? {
        rows := rows[k := race.value];
      }
    }

    /** A guarded update of one row; the count says whether the guard matched. */
    method UpdateMany(k: Key, update: Option<Row>) returns (count: nat)
      requires k in rows
      modifies this`rows
      ensures OnlyAt(k, old(rows), rows) && rows[k] == Raced(old(rows[k]), update)
      ensures count == if update.Some? then 1 else 0
    {
      if update.None? {
        return 0;
      }
      rows := rows[k := update.value];
      return 1;
    }

    method Deliver(k: Key, w: World) returns (threw: bool)
      requires Valid() && k in rows
      modifies this
      ensures Valid() && OnlyAt(k, old(rows), rows)
      ensures OnlyAt(k, old(requests), requests) && letters == old(letters)
      ensures Outcome(At(k), threw) == DeliveryOutcomes.Deliver(config, old(At(k)), w)
    {
      var delivery := rows[k];
      if delivery.status != Pending && delivery.status != Retrying {
        return false;
      }
      var attemptNumber := delivery.attemptCount + 1;
      OthersRun(k, w.beforeClaim);
      var claim := UpdateMany(k, ClaimDelivery(rows[k], delivery.status, delivery.attemptCount, w.attemptedAt));
      if claim != 1 {
        return false;
      }
      requests := requests[k := requests[k] + 1];
      OthersRun(k, w.beforeSave);
      if !w.ok {
        var retrying := UpdateMany(k, SaveRetry(config, rows[k], attemptNumber, w.answeredAt));
        return retrying != 1;
      }
      var succeeded := UpdateMany(k, SaveSuccess(rows[k], attemptNumber, w.answeredAt));
      return succeeded != 1;
    }

    method MoveToDeadLetter(k: Key, now: nat, w: World) returns (threw: bool)
      requires Valid() && k in rows
      modifies this
      ensures Valid() && OnlyAt(k, old(rows), rows)
      ensures requests == old(requests) && OnlyAt(k, old(letters), letters)
      ensures Outcome(At(k), threw) == DeliveryOutcomes.MoveToDeadLetter(config, old(At(k)), now, w)
    {
      var attemptCount := rows[k].attemptCount;
      OthersRun(k, w.beforeClaim);
      var claim := UpdateMany(k, ClaimDeadLetter(rows[k], attemptCount, now));
      if claim != 1 {
        return false;
      }
      OthersRun(k, w.beforeSave);
      if !w.ok {
        var released := UpdateMany(k, ReleaseDeadLetter(config, rows[k], attemptCount, now));
        return released != 1;
      }
      letters := letters[k := letters[k] + 1];
      var failed := UpdateMany(k, SaveFailed(rows[k], attemptCount));
      return failed != 1;
    }

    method RecoverOrphanedDeliveries(now: nat)
      requires Valid()
      modifies this`rows
      ensures Valid() && View() == RecoverAll(old(View()), now)
    {
      rows := map k | k in rows :: Recover(rows[k], now);
    }

    /** `stored` is the payload in the outbox record of the queued event, if there is one; `registered` is
        the answer of the database to the query for applications. The event is handled exactly if the
        outbox holds the same event, up to key order, and its target exists. */
    method Process(iso: Clock, e: EventId, stored: Option<Json>, queued: RevocationEvent, target: Option<AppId>,
                   registered: seq<AppId>, world: map<Key, World>)
      returns (settlement: Settlement)
      requires Valid() && Distinct(registered) && Members(TargetKeys(e, registered)) <= world.Keys
      requires (stored.Some? ==> WellFormed(stored.value)) && WellFormed(queued.metadata)
      requires target.Some? <==> queued.applicationId.Some?
      modifies this
      ensures Valid()
      ensures settlement == NonRetryable <==>
                !IsStored(iso, stored, queued) || (target.Some? && target.value !in registered)
      ensures settlement == NonRetryable ==> View() == old(View())
      ensures settlement != NonRetryable ==>
                var keys := TargetKeys(e, if target.Some? then [target.value] else registered);
                && Members(keys) <= world.Keys && View() == ProcessMessage(config, old(View()), keys, world)
                && (settlement == Settlement.Requeue <==>
                      AnyThrew(config, CreateMissing(old(View()), keys), ForMessage, keys, world))
    {
      var accepted := AssertStoredEvent(iso, stored, queued);
      if !accepted {
        return NonRetryable;
      }
      var targets := ResolveTargets(target, registered);
      if targets.None? {
        return NonRetryable;
      }
      var keys := TargetKeys(e, targets.value);
      KeysCovered(e, targets.value, registered);
      settlement := DeliverToTargets(keys, world);
    }

    method ResolveTargets(target: Option<AppId>, registered: seq<AppId>) returns (targets: Option<seq<AppId>>)
      ensures targets.None? <==> target.Some? && target.value !in registered
      ensures targets.Some? ==> targets.value == if target.Some? then [target.value] else registered
    {
      if target.None? {
        return Some(registered);
      }
      return if target.value in registered then Some([target.value]) else None;
    }

    /** Comparison with the outbox record by fingerprints. */
    method AssertStoredEvent(iso: Clock, stored: Option<Json>, queued: RevocationEvent) returns (ok: bool)
      requires (stored.Some? ==> WellFormed(stored.value)) && WellFormed(queued.metadata)
      ensures ok <==> IsStored(iso, stored, queued)
    {
      if stored.None? {
        return false;
      }
      var storedEvent := ParseRevocationEvent(iso, stored.value);
      if storedEvent.None? {
        return false;
      }
      EventIdentity.ParsedMetadataWellFormed(iso, stored.value);
      EventIdentity.FingerprintIdentifies(storedEvent.value, queued);
      return Fingerprint(storedEvent.value) == Fingerprint(queued);
    }

    method DeliverToTargets(keys: seq<Key>, world: map<Key, World>) returns (settlement: Settlement)
      requires Valid() && Distinct(keys) && Members(keys) <= world.Keys
      modifies this
      ensures Valid() && View() == ProcessMessage(config, old(View()), keys, world)
      ensures settlement == if AnyThrew(config, CreateMissing(old(View()), keys), ForMessage, keys, world)
                            then Settlement.Requeue else Acknowledge
    {
      if |keys| == 0 {
        return Acknowledge;
      }
      CreateMany(keys);
      assert Members(keys) <= rows.Keys;
      var infrastructureFailure := HandleCandidates(ForMessage, keys, world);
      return if infrastructureFailure then Settlement.Requeue else Acknowledge;
    }

    method CreateMany(keys: seq<Key>)
      requires Valid()
      modifies this
      ensures Valid() && View() == CreateMissing(old(View()), keys) && rows.Keys == View().Keys
    {
      rows := (map k | k in Members(keys) :: NEW_ROW) + rows;
      requests := (map k | k in Members(keys) :: 0) + requests;
      letters := (map k | k in Members(keys) :: 0) + letters;
      ghost var t := CreateMissing(old(View()), keys);
      assert rows.Keys == t.Keys;
      forall k | k in rows ensures At(k) == t[k] {
        if k in old(rows) {
          assert t[k] == old(View())[k];
        }
      }
    }

    /** `due` is the answer of the database to the query for due rows, once orphans are recovered. */
    method ProcessDueRetries(now: nat, due: seq<Key>, world: map<Key, World>) returns (threw: bool)
      requires Valid() && IsBatch(Rows(RecoverAll(View(), now)), now, due) && Members(due) <= world.Keys
      modifies this
      ensures Valid() && View() == RetryPass(config, old(View()), Round(now, due, world))
      ensures threw <==> AnyThrew(config, RecoverAll(old(View()), now), ForPass(now), due, world)
    {
      RecoverOrphanedDeliveries(now);
      assert Members(due) <= rows.Keys;
      threw := HandleCandidates(ForPass(now), due, world);
    }

    /** The rows are handled concurrently; each handling touches its own row only, so their order is
        immaterial. One that fails does not stop the others. */
    method HandleCandidates(job: Job, batch: seq<Key>, world: map<Key, World>) returns (threw: bool)
      requires Valid() && Distinct(batch) && Members(batch) <= world.Keys && Members(batch) <= rows.Keys
      modifies this
      ensures Valid() && View() == HandleAll(config, old(View()), job, batch, world)
      ensures threw <==> AnyThrew(config, old(View()), job, batch, world)
    {
      threw := false;
      for i := 0 to |batch|
        invariant Valid() && Members(batch[..i]) <= world.Keys
        invariant View() == HandleAll(config, old(View()), job, batch[..i], world)
        invariant threw <==> AnyThrew(config, old(View()), job, batch[..i], world)
      {
        var k := batch[i];
        assert k in Members(batch) && batch[..i + 1] == batch[..i] + [k];
        HandleOneMore(config, old(View()), job, batch[..i], k, world);
        var failed := HandleCandidate(k, job, world[k]);
        threw := threw || failed;
      }
      assert batch[..|batch|] == batch;
    }

    method HandleCandidate(k: Key, job: Job, w: World) returns (threw: bool)
      requires Valid() && k in rows
      modifies this
      ensures Valid() && View() == old(View())[k := Handle(config, old(View()[k]), job, w).delivery]
      ensures threw == Handle(config, old(View()[k]), job, w).threw
    {
      if job.ForPass? && !w.readable {
        return true;
      }
      if job.ForPass? && rows[k].attemptCount >= config.maxAttempts {
        threw := MoveToDeadLetter(k, job.at, w);
      } else {
        threw := Deliver(k, w);
      }
      assert View() == old(View())[k := At(k)];
    }
  }
}
