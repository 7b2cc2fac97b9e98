/** What every step of an outbox publisher keeps. `accepted` holds the events of which the broker
    has stored a copy. */
module PublisherInvariant {
  import opened Vocabulary
  import opened Pipeline

  ghost predicate PublisherFits(b: Publishing, accepted: iset<EventId>, x: Publisher) {
    && x.event in b.outbox && x.attempt >= 1
    && (x.phase == Claimed || x.phase.Sent? ==> x.attempt <= b.outbox[x.event].attempts)
    && (x.phase == Sent(true) ==> x.event in accepted)
  }

  ghost predicate WonOnce(wins: set<PublishWin>) {
    forall v, w :: v in wins && w in wins && v.event == w.event && v.attempt == w.attempt ==> v == w
  }

  ghost predicate PubInv(b: Publishing, accepted: iset<EventId>) {
    && (forall e :: e in b.outbox && b.outbox[e].published ==> e in accepted)
    && (forall p :: p in b.publishers ==> PublisherFits(b, accepted, b.publishers[p]))
    && (forall w :: w in b.wins ==> w.event in b.outbox && w.attempt <= b.outbox[w.event].attempts)
    && WonOnce(b.wins)
  }

  ghost predicate OutboxRowEvolves(r: OutboxRow, u: OutboxRow) {
    r.attempts <= u.attempts && (r.published ==> u == r)
  }

  ghost predicate SameClaim(x: Publisher, y: Publisher) {
    y.event == x.event && y.attempt == x.attempt && (y.phase == Chosen ==> x.phase == Chosen)
  }

  ghost predicate PubEvolves(b: Publishing, d: Publishing) {
    && (forall e :: e in b.outbox ==> e in d.outbox && OutboxRowEvolves(b.outbox[e], d.outbox[e]))
    && (forall p :: p in b.publishers ==> p in d.publishers && SameClaim(b.publishers[p], d.publishers[p]))
    && b.wins <= d.wins
  }

  lemma SamePubEvolves(b: Publishing)
    ensures PubEvolves(b, b)
  {
  }

  lemma PubEvolvesTransitive(a: Publishing, b: Publishing, c: Publishing)
    requires PubEvolves(a, b) && PubEvolves(b, c)
    ensures PubEvolves(a, c)
  {
  }

  lemma PubFrame(b: Publishing, accepted: iset<EventId>, more: iset<EventId>)
    requires PubInv(b, accepted) && accepted <= more
    ensures PubInv(b, more)
  {
  }

  /** A publisher moves on; the outbox stays as it is. */
  lemma MoveStep(b: Publishing, accepted: iset<EventId>, p: PublisherId, y: Publisher)
    requires PubInv(b, accepted) && PublisherFits(b, accepted, y)
    requires p in b.publishers ==> SameClaim(b.publishers[p], y)
    ensures var d := b.(publishers := b.publishers[p := y]); PubInv(d, accepted) && PubEvolves(b, d)
  {
  }

  /** An outbox row is written. */
  lemma OutboxStep(b: Publishing, accepted: iset<EventId>, e: EventId, u: OutboxRow)
    requires PubInv(b, accepted) && (u.published ==> e in accepted)
    requires e in b.outbox ==> OutboxRowEvolves(b.outbox[e], u)
    ensures var d := b.(outbox := b.outbox[e := u]); PubInv(d, accepted) && PubEvolves(b, d)
  {
  }

  lemma WinStep(b: Publishing, accepted: iset<EventId>, w: PublishWin)
    requires PubInv(b, accepted) && w.event in b.outbox && w.attempt <= b.outbox[w.event].attempts
    requires forall v :: v in b.wins && v.event == w.event ==> v.attempt < w.attempt
    ensures var d := b.(wins := b.wins + {w}); PubInv(d, accepted) && PubEvolves(b, d)
  {
  }

  lemma ChooseStep(b: Publishing, accepted: iset<EventId>, p: PublisherId, e: EventId, now: nat)
    requires PubInv(b, accepted)
    ensures PubInv(ApplyChoose(b, p, e, now), accepted) && PubEvolves(b, ApplyChoose(b, p, e, now))
  {
  }

  lemma ClaimPublishStep(cfg: Settings, b: Publishing, accepted: iset<EventId>, p: PublisherId, now: nat)
    requires PubInv(b, accepted)
    ensures PubInv(ApplyClaimPublish(cfg, b, p, now), accepted) && PubEvolves(b, ApplyClaimPublish(cfg, b, p, now))
  {
    if p !in b.publishers || b.publishers[p].phase != Chosen || b.publishers[p].event !in b.outbox {
      SamePubEvolves(b);
    } else {
      var x := b.publishers[p];
      var r := b.outbox[x.event];
      assert PublisherFits(b, accepted, x);
      if PublishDue(r, now) && r.attempts + 1 == x.attempt {
        var u := OutboxRow(false, x.attempt, Some(now + cfg.leaseMs));
        var m := b.(outbox := b.outbox[x.event := u]);
        OutboxStep(b, accepted, x.event, u);
        var n := m.(publishers := m.publishers[p := x.(phase := Claimed)]);
        MoveStep(m, accepted, p, x.(phase := Claimed));
        var w := PublishWin(x.event, x.attempt, p);
        WinStep(n, accepted, w);
        PubEvolvesTransitive(b, m, n);
        PubEvolvesTransitive(b, n, n.(wins := n.wins + {w}));
        assert ApplyClaimPublish(cfg, b, p, now) == n.(wins := n.wins + {w});
      } else {
        MoveStep(b, accepted, p, x.(phase := Finished));
      }
    }
  }

  lemma SettlePublishStep(cfg: Settings, b: Publishing, accepted: iset<EventId>, p: PublisherId, now: nat)
    requires PubInv(b, accepted)
    ensures PubInv(ApplySettlePublish(cfg, b, p, now), accepted) && PubEvolves(b, ApplySettlePublish(cfg, b, p, now))
  {
    if p !in b.publishers || !b.publishers[p].phase.Sent? || b.publishers[p].event !in b.outbox {
      SamePubEvolves(b);
    } else {
      var x := b.publishers[p];
      var y := x.(phase := Finished);
      var r := b.outbox[x.event];
      assert PublisherFits(b, accepted, x);
      var d := ApplySettlePublish(cfg, b, p, now);
      var u := d.outbox[x.event];
      var m := b.(publishers := b.publishers[p := y]);
      MoveStep(b, accepted, p, y);
      assert b.outbox == b.outbox[x.event := r];
      assert d == m.(outbox := m.outbox[x.event := u]);
      OutboxStep(m, accepted, x.event, u);
      PubEvolvesTransitive(b, m, d);
    }
  }

  // ---------------------------------------------------------------- fencing

  /** Once a later attempt on the row was granted, nothing this publisher still does changes it. */
  lemma StalePublisherIsFenced(cfg: Settings, b: Publishing, p: PublisherId, now: nat)
    requires p in b.publishers && b.publishers[p].event in b.outbox
    requires b.publishers[p].attempt < b.outbox[b.publishers[p].event].attempts
    ensures ApplySettlePublish(cfg, b, p, now).outbox == b.outbox
    ensures ApplyClaimPublish(cfg, b, p, now).outbox == b.outbox
    ensures ApplyClaimPublish(cfg, b, p, now).wins == b.wins
  {
  }
}
