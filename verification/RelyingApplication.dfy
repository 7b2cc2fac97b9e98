/** The tables of one relying application and the transactions that change them. A session's
    opaque token is represented by the identifier of the session its unique hash selects. */
module RelyingApplication {
  import opened Vocabulary
  import opened LocalSessions

  class LocalDatabase {
    var sessions: map<SessionId, LocalSession>
    var activityLog: map<SessionId, seq<LogKind>>
    var processedEvents: map<EventId, Processed>
    ghost var clock: nat
    ghost var matched: map<EventId, set<SessionId>>

    constructor ()
      ensures View() == EMPTY
    {
      sessions, activityLog, processedEvents, clock, matched := map[], map[], map[], 0, map[];
    }

    ghost function View(): State
      reads this
    {
      State(clock, sessions, activityLog, processedEvents, matched)
    }

    method ResolveLocalSession(id: SessionId, now: nat) returns (r: Resolution)
      requires clock <= now
      modifies this
      ensures (View(), r) == Resolve(old(View()).(clock := now), id)
    {
      clock := now;
      if id !in sessions {
        return Invalid;
      }
      var x := sessions[id];
      var lifecycle := Classify(x, now);
      if lifecycle == Expired {
        if x.status == Active && x.revokedAt.None? && x.expiresAt <= now {
          sessions := sessions[id := x.(status := Expired)];
          Append(id, LocalSessionExpired);
        }
        return ResolvedExpired;
      }
      if lifecycle == Revoked {
        return ResolvedRevoked;
      }
      sessions := sessions[id := x.(lastActivityAt := now)];
      return ResolvedActive;
    }

    method Append(id: SessionId, k: LogKind)
      modifies this`activityLog
      ensures activityLog == AddLog(old(activityLog), id, k)
    {
      activityLog := AddLog(activityLog, id, k);
    }

    /** `id` is a fresh identifier, as a random UUID is. */
    method IssueLocalSession(id: SessionId, user: UserId, central: CentralId, ttlSeconds: nat, now: nat)
      requires clock <= now && id !in sessions
      modifies this
      ensures View() == Issue(old(View()).(clock := now), id, user, central, ttlSeconds)
      ensures Classify(sessions[id], now) == Active <==> ttlSeconds > 0
    {
      clock := now;
      sessions := sessions[id := LocalSession(user, central, Active, now + ttlSeconds * 1000, now, None, None)];
      activityLog := activityLog[id := [AuthorizationCodeReceived, UserInfoFetched, LocalSessionCreated]];
    }

    method RevokeLocalSession(id: SessionId, now: nat) returns (revoked: bool)
      requires clock <= now
      modifies this
      ensures (View(), revoked) == Logout(old(View()).(clock := now), id)
    {
      clock := now;
      if id !in sessions || !CanRevoke(sessions[id], now) {
        return false;
      }
      if !Live(sessions[id], now) {
        return false;
      }
      sessions := sessions[id := RevokedAt(sessions[id], now, "local_logout")];
      Append(id, LocalLogout);
      return true;
    }

    /** `missed` says that the first read of the transaction did not see a row which a concurrent
        delivery of the same event committed before the insert. */
    method ProcessInternalLogoutEvent(e: Notice, now: nat, missed: bool) returns (outcome: Outcome)
      requires clock <= now
      modifies this
      ensures (View(), outcome) == Deliver(old(View()).(clock := now), e)
    {
      clock := now;
      if e.eventId in processedEvents && !missed {
        return if SamePayload(processedEvents[e.eventId], e) then Replayed else Conflict;
      }
      if e.eventId in processedEvents {
        // The insert violates the unique key: the transaction rolls back and the row is read again.
        return if SamePayload(processedEvents[e.eventId], e) then Replayed else Conflict;
      }
      var plan := CreatePlan(e);
      matched := matched[e.eventId := set id | id in sessions && Matches(plan, sessions[id])];
      processedEvents := processedEvents[e.eventId := Processed(e.eventType, Some(e.digest), now, 0)];
      var revoked := set id | id in sessions && Matches(plan, sessions[id]) && Live(sessions[id], now);
      sessions := map id | id in sessions ::
        if id in revoked then RevokedAt(sessions[id], now, plan.revokeReason) else sessions[id];
      if |revoked| > 0 {
        activityLog := map id | id in activityLog ::
          if id in revoked then activityLog[id] + [BackChannel(e.eventType, e.eventId)] else activityLog[id];
      }
      processedEvents := processedEvents[e.eventId := Processed(e.eventType, Some(e.digest), now, |revoked|)];
      ghost var t := ProcessFirst(old(View()).(clock := now), e);
      assert revoked == RevokedBy(old(View()).(clock := now), plan);
      assert sessions == t.sessions && activityLog == t.logs;
      assert matched == t.matched && processedEvents == t.processed;
      return ProcessedNow;
    }
  }
}
