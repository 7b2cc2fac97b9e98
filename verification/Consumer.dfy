/** Settlement of broker messages by the consumer: the handling of a message and the shutdown compete
    for settling it, and exactly one of them does. */
module Consumer {
  import opened DeliveryService
  import opened Sequences

  type DeliveryId = nat

  /** How `processMessage` ends, by the error it meets. */
  datatype Processing = Succeeded | NonRetryableError | OtherError

  type Flags = map<DeliveryId, bool>
  type Calls = map<DeliveryId, seq<Settlement>>

  function AllSettled(ds: seq<DeliveryId>, flags: Flags): Flags { map d | d in flags :: flags[d] || d in ds }

  /** The messages in `ds` that were open are requeued, every other message is as it was. */
  function Requeued(ds: seq<DeliveryId>, flags: Flags, calls: Calls): Calls {
    map d | d in calls :: if d in ds && d in flags && !flags[d] then [Requeue] else calls[d]
  }

  function CountOpen(ds: seq<DeliveryId>, works: set<DeliveryId>, flags: Flags): nat {
    if ds == [] then 0
    else
      var d := ds[|ds| - 1];
      CountOpen(ds[..|ds| - 1], works, flags) + if d in flags && !flags[d] && d in works then 1 else 0
  }

  /** What is true after the first `i` messages in flight were looked at. */
  ghost predicate Progress(ds: seq<DeliveryId>, i: nat, works: set<DeliveryId>, flags: Flags, calls: Calls,
                           flags': Flags, calls': Calls, requeued: nat)
    requires i <= |ds|
  {
    && flags' == AllSettled(ds[..i], flags) && calls' == Requeued(ds[..i], flags, calls)
    && requeued == CountOpen(ds[..i], works, flags)
  }

  lemma ProgressStarts(ds: seq<DeliveryId>, works: set<DeliveryId>, flags: Flags, calls: Calls)
    ensures Progress(ds, 0, works, flags, calls, flags, calls, 0)
  {
    assert ds[..0] == [];
    assert AllSettled([], flags) == flags && Requeued([], flags, calls) == calls;
  }

  lemma ProgressStep(ds: seq<DeliveryId>, i: nat, works: set<DeliveryId>, flags: Flags, calls: Calls,
                     flags': Flags, calls': Calls, requeued: nat)
    requires i < |ds| && Distinct(ds) && ds[i] in flags && ds[i] in calls
    requires Progress(ds, i, works, flags, calls, flags', calls', requeued)
    ensures var d := ds[i];
            && d in flags' && d in calls'
            && if flags'[d] then Progress(ds, i + 1, works, flags, calls, flags', calls', requeued)
               else Progress(ds, i + 1, works, flags, calls, flags'[d := true], calls'[d := [Requeue]],
                             requeued + if d in works then 1 else 0)
  {
    var d := ds[i];
    assert ds[..i + 1] == ds[..i] + [d];
    assert d !in ds[..i];
    OneMore(ds[..i], d, flags, calls);
    assert (ds[..i] + [d])[..i] == ds[..i];
  }

  lemma ProgressEnds(ds: seq<DeliveryId>, works: set<DeliveryId>, flags: Flags, calls: Calls,
                     flags': Flags, calls': Calls, requeued: nat)
    requires Progress(ds, |ds|, works, flags, calls, flags', calls', requeued)
    ensures flags' == AllSettled(ds, flags) && calls' == Requeued(ds, flags, calls)
            && requeued == CountOpen(ds, works, flags)
  {
    assert ds[..|ds|] == ds;
  }

  lemma OneMore(ds: seq<DeliveryId>, d: DeliveryId, flags: Flags, calls: Calls)
    requires d in flags && d in calls && d !in ds
    ensures AllSettled(ds, flags)[d] == flags[d]
    ensures AllSettled(ds + [d], flags)
            == (if flags[d] then AllSettled(ds, flags) else AllSettled(ds, flags)[d := true])
    ensures Requeued(ds + [d], flags, calls)
         == (if flags[d] then Requeued(ds, flags, calls) else Requeued(ds, flags, calls)[d := [Requeue]])
  {
  }

  class RabbitMqConsumer {
    var activeDeliveries: seq<DeliveryId>
    var settled: map<DeliveryId, bool>
    /** History: what was asked of the broker for each message, in order. */
    ghost var calls: map<DeliveryId, seq<Settlement>>

    constructor ()
      ensures Valid() && settled == map[]
    {
      activeDeliveries, settled, calls := [], map[], map[];
    }

    /** The broker was asked once for every settled message and never for any other. */
    ghost predicate Valid()
      reads this
    {
      && calls.Keys == settled.Keys
      && (forall d :: d in settled ==> |calls[d]| == if settled[d] then 1 else 0)
      && (forall i :: 0 <= i < |activeDeliveries| ==> activeDeliveries[i] in settled)
      && Distinct(activeDeliveries)
    }

    ghost predicate IsSettled(d: DeliveryId, s: Settlement)
      reads this
    {
      d in settled && settled[d] && d in calls && calls[d] == [s]
    }

    /** The broker hands over a message; `d` is new. */
    method Receive(d: DeliveryId)
      requires Valid() && d !in settled
      modifies this
      ensures Valid() && settled == old(settled)[d := false] && calls == old(calls)[d := []]
      ensures activeDeliveries == old(activeDeliveries) + [d]
    {
      settled, calls := settled[d := false], calls[d := []];
      activeDeliveries := activeDeliveries + [d];
    }

    /** `works` says whether the call to the broker succeeds; a failing one throws, but the flag stays. */
    method Settle(d: DeliveryId, s: Settlement, works: bool) returns (done: bool)
      requires Valid() && d in settled
      modifies this`settled, this`calls
      ensures Valid() && settled == old(settled)[d := true]
      ensures old(settled[d]) ==> calls == old(calls) && !done
      ensures !old(settled[d]) ==> calls == old(calls)[d := [s]] && done == works
    {
      if settled[d] {
        return false;
      }
      settled := settled[d := true];
      calls := calls[d := calls[d] + [s]];
      assert calls[d] == [s];
      return works;
    }

    /** Whatever happens while the message is processed, it is settled afterwards: by this call according
        to the outcome, or before it by the shutdown. A failing acknowledgement is not retried as a
        rejection. */
    method ProcessMessage(d: DeliveryId, p: Processing, works: bool)
      requires Valid() && d in settled && d in activeDeliveries
      modifies this
      ensures Valid() && settled == old(settled)[d := true]
      ensures if old(settled[d]) then calls == old(calls)
              else && calls == old(calls)[d := calls[d]]
                   && IsSettled(d, match p
                                   case Succeeded => Acknowledge
                                   case NonRetryableError => NonRetryable
                                   case OtherError => Requeue)
      ensures d !in activeDeliveries
      ensures forall x :: x in activeDeliveries <==> x in old(activeDeliveries) && x != d
    {
      if p == Succeeded {
        var acked := Settle(d, Acknowledge, works);
        if !acked {
          // The error of a failed acknowledgement is caught, and the second attempt finds the flag set.
          var _ := Settle(d, Requeue, true);
        }
      } else if p == NonRetryableError {
        var _ := Settle(d, NonRetryable, works);
      } else {
        var _ := Settle(d, Requeue, works);
      }
      Remove(d);
    }

    method Remove(d: DeliveryId)
      requires Valid() && d in activeDeliveries
      modifies this`activeDeliveries
      ensures Valid() && forall x :: x in activeDeliveries <==> x in old(activeDeliveries) && x != d
    {
      var i :| 0 <= i < |activeDeliveries| && activeDeliveries[i] == d;
      activeDeliveries := activeDeliveries[..i] + activeDeliveries[i + 1..];
    }

    method RequeueIfOpen(d: DeliveryId, works: bool) returns (nacked: bool)
      requires Valid() && d in settled
      modifies this`settled, this`calls
      ensures Valid() && nacked == (!old(settled[d]) && works)
      ensures settled == (if old(settled[d]) then old(settled) else old(settled)[d := true])
      ensures calls == (if old(settled[d]) then old(calls) else old(calls)[d := [Requeue]])
    {
      if settled[d] {
        return false;
      }
      nacked := Settle(d, Requeue, works);
    }

    /** After the deadline every message still in flight is settled: those nobody had settled are put
        back on the queue, the others are left alone. `works` are the messages whose rejection reaches
        the broker; only these are counted. */
    method RequeueInFlight(works: set<DeliveryId>) returns (requeued: nat)
      requires Valid()
      modifies this`settled, this`calls
      ensures Valid() && settled == AllSettled(activeDeliveries, old(settled))
      ensures calls == Requeued(activeDeliveries, old(settled), old(calls))
      ensures requeued == CountOpen(activeDeliveries, works, old(settled))
    {
      var inFlight := activeDeliveries;
      ghost var flags, history := settled, calls;
      requeued := 0;
      ProgressStarts(inFlight, works, flags, history);
      for i := 0 to |inFlight|
        invariant Valid() && settled.Keys == flags.Keys && calls.Keys == history.Keys
        invariant Progress(inFlight, i, works, flags, history, settled, calls, requeued)
      {
        var d := inFlight[i];
        ProgressStep(inFlight, i, works, flags, history, settled, calls, requeued);
        var nacked := RequeueIfOpen(d, d in works);
        requeued := requeued + if nacked then 1 else 0;
      }
      ProgressEnds(inFlight, works, flags, history, settled, calls, requeued);
    }
  }
}
