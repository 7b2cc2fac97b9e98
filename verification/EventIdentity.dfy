/** Event identity across a store that reorders object keys, and the contract between the
    producers of the Auth Provider and the Sync Worker that consumes their events. */
module EventIdentity {
  import opened Vocabulary
  import opened Json
  import opened JsonReader
  import opened JsonCanonical
  import opened JsonEncoding
  import opened Utf8
  import opened EventContract

  // ---------------------------------------------------------------- validation looks only at meaning

  ghost predicate SameField(a: Option<Json>, b: Option<Json>) {
    match (a, b)
    case (Some(x), Some(y)) => SameUpToKeyOrder(x, y)
    case (None, None) => true
    case _ => false
  }

  lemma FieldMeaning(es: seq<Entry>, name: Text)
    requires UniqueKeys(es)
    ensures Field(es, name).Some? <==> name in MeaningOfEntries(es)
    ensures Field(es, name).Some? ==> MeaningOf(Field(es, name).value) == MeaningOfEntries(es)[name]
  {
  }

  lemma FieldsAgree(a: seq<Entry>, b: seq<Entry>, name: Text)
    requires UniqueKeys(a) && UniqueKeys(b) && MeaningOfEntries(a) == MeaningOfEntries(b)
    ensures SameField(Field(a, name), Field(b, name))
  {
    FieldMeaning(a, name);
    FieldMeaning(b, name);
  }

  lemma {:induction false} KeyCount(es: seq<Entry>)
    requires UniqueKeys(es)
    ensures |MeaningOfEntries(es)| == |es|
  {
    if es != [] {
      TailLacksKey(es);
      KeyCount(es[1..]);
      MeaningKeys(es[1..], es[0].key);
      RemoveAdded(es[0].key, MeaningOf(es[0].value), MeaningOfEntries(es[1..]));
      assert MeaningOfEntries(es).Keys == {es[0].key} + MeaningOfEntries(es[1..]).Keys;
    }
  }

  lemma {:induction false} MeaningOfItemAt(items: seq<Json>, i: nat)
    requires i < |items|
    ensures MeaningOfItems(items)[i] == MeaningOf(items[i])
  {
    if i > 0 {
      MeaningOfItemAt(items[1..], i - 1);
    }
  }

  lemma {:induction false} JsonValueByMeaning(a: Json, b: Json, depth: nat)
    requires WellFormed(a) && WellFormed(b) && SameUpToKeyOrder(a, b) && IsJsonValue(a, depth)
    ensures IsJsonValue(b, depth)
    decreases b
  {
    match b
    case Arr(items) =>
      assert |a.items| == |MeaningOfItems(a.items)| == |MeaningOfItems(items)| == |items|;
      forall i | 0 <= i < |items| ensures IsJsonValue(items[i], depth + 1) {
        MeaningOfItemAt(items, i);
        MeaningOfItemAt(a.items, i);
        JsonValueByMeaning(a.items[i], items[i], depth + 1);
      }
    case Obj(es) =>
      forall i | 0 <= i < |es| ensures IsJsonValue(es[i].value, depth + 1) {
        MeaningLookup(es, i);
        MeaningKeys(a.entries, es[i].key);
        var j :| 0 <= j < |a.entries| && a.entries[j].key == es[i].key;
        MeaningLookup(a.entries, j);
        JsonValueByMeaning(a.entries[j].value, es[i].value, depth + 1);
      }
    case _ =>
  }

  lemma ParseFieldsByMeaning(iso: Clock, e: RevocationEvent, id: Json, eventType: Json, user: Json, session: Json,
                             app: Json, reason: Json, at: Json, metadata: Json)
    requires ValidEvent(iso, e) && WellFormed(metadata)
    requires SameUpToKeyOrder(id, Str(e.eventId)) && SameUpToKeyOrder(eventType, Str(TypeName(e.eventType)))
    requires SameUpToKeyOrder(user, Str(e.userId)) && SameUpToKeyOrder(session, NullableText(e.centralSessionId))
    requires SameUpToKeyOrder(app, NullableText(e.applicationId)) && SameUpToKeyOrder(reason, Str(e.reason))
    requires SameUpToKeyOrder(at, Str(e.occurredAt)) && SameUpToKeyOrder(metadata, e.metadata)
    ensures ParseFields(iso, id, eventType, user, session, app, reason, at, metadata) == Some(e.(metadata := metadata))
  {
    TypeNameRoundTrip(e.eventType);
    JsonValueByMeaning(e.metadata, metadata, 0);
    assert session == NullableText(e.centralSessionId) && app == NullableText(e.applicationId);
  }

  lemma SameKeys(p: seq<Entry>, es: seq<Entry>, names: seq<Text>)
    requires UniqueKeys(p) && UniqueKeys(es) && MeaningOfEntries(p) == MeaningOfEntries(es)
    requires AreKeys(es, names)
    ensures |p| == |names| && forall i :: 0 <= i < |p| ==> p[i].key in names
  {
    KeyCount(p);
    KeyCount(es);
    forall i | 0 <= i < |p| ensures p[i].key in names {
      MeaningLookup(p, i);
      MeaningKeys(es, p[i].key);
      var j :| 0 <= j < |es| && es[j].key == p[i].key;
      assert names[j] == p[i].key;
    }
  }

  lemma KeysAreFields(e: RevocationEvent, p: seq<Entry>)
    requires UniqueKeys(p) && MeaningOfEntries(p) == MeaningOfEntries(EventEntries(e))
    ensures |p| == |FIELDS| && forall i :: 0 <= i < |p| ==> p[i].key in FIELDS
  {
    FieldNames(e);
    SameKeys(p, EventEntries(e), FIELDS);
  }

  lemma FieldOf(e: RevocationEvent, p: seq<Entry>, k: nat)
    requires UniqueKeys(p) && MeaningOfEntries(p) == MeaningOfEntries(EventEntries(e)) && k < 8
    ensures Field(p, FIELDS[k]).Some? && SameUpToKeyOrder(Field(p, FIELDS[k]).value, EventEntries(e)[k].value)
  {
    EntryKeys(e);
    FieldAt(e, k);
    FieldsAgree(p, EventEntries(e), FIELDS[k]);
  }

  /** The same event with another copy of its metadata, as a reordering store returns it. */
  ghost predicate SameEvent(a: RevocationEvent, b: RevocationEvent) {
    a.(metadata := Null) == b.(metadata := Null) && SameUpToKeyOrder(a.metadata, b.metadata)
  }

  /** Any copy of an event whose keys were reordered, at any nesting, is read as that event. */
  lemma ReorderedCopyParses(iso: Clock, e: RevocationEvent, p: Json)
    requires ValidEvent(iso, e) && WellFormed(p) && SameUpToKeyOrder(p, EventToJson(e))
    ensures ParseRevocationEvent(iso, p).Some? && SameEvent(ParseRevocationEvent(iso, p).value, e)
  {
    var ps := p.entries;
    KeysAreFields(e, ps);
    AllFieldsPresent(e, ps);
    ParseUnfolds(iso, ps);
    assert WellFormed(ps[IndexOf(ps, METADATA)].value);
    ParseFieldsByMeaning(iso, e, Field(ps, EVENT_ID).value, Field(ps, EVENT_TYPE).value, Field(ps, USER_ID).value,
                         Field(ps, CENTRAL_SESSION_ID).value, Field(ps, APPLICATION_ID).value,
                         Field(ps, REASON).value, Field(ps, OCCURRED_AT).value, Field(ps, METADATA).value);
  }

  ghost predicate HasAllFields(ps: seq<Entry>) {
    && Field(ps, EVENT_ID).Some? && Field(ps, EVENT_TYPE).Some? && Field(ps, USER_ID).Some?
    && Field(ps, CENTRAL_SESSION_ID).Some? && Field(ps, APPLICATION_ID).Some? && Field(ps, REASON).Some?
    && Field(ps, OCCURRED_AT).Some? && Field(ps, METADATA).Some?
  }

  lemma ParseUnfolds(iso: Clock, ps: seq<Entry>)
    requires |ps| == |FIELDS| && (forall i :: 0 <= i < |ps| ==> ps[i].key in FIELDS) && HasAllFields(ps)
    ensures ParseRevocationEvent(iso, Obj(ps))
         == ParseFields(iso, Field(ps, EVENT_ID).value, Field(ps, EVENT_TYPE).value, Field(ps, USER_ID).value,
                        Field(ps, CENTRAL_SESSION_ID).value, Field(ps, APPLICATION_ID).value,
                        Field(ps, REASON).value, Field(ps, OCCURRED_AT).value, Field(ps, METADATA).value)
  {
  }

  lemma AllFieldsPresent(e: RevocationEvent, ps: seq<Entry>)
    requires UniqueKeys(ps) && MeaningOfEntries(ps) == MeaningOfEntries(EventEntries(e))
    ensures HasAllFields(ps)
    ensures SameUpToKeyOrder(Field(ps, EVENT_ID).value, Str(e.eventId))
    ensures SameUpToKeyOrder(Field(ps, EVENT_TYPE).value, Str(TypeName(e.eventType)))
    ensures SameUpToKeyOrder(Field(ps, USER_ID).value, Str(e.userId))
    ensures SameUpToKeyOrder(Field(ps, CENTRAL_SESSION_ID).value, NullableText(e.centralSessionId))
    ensures SameUpToKeyOrder(Field(ps, APPLICATION_ID).value, NullableText(e.applicationId))
    ensures SameUpToKeyOrder(Field(ps, REASON).value, Str(e.reason))
    ensures SameUpToKeyOrder(Field(ps, OCCURRED_AT).value, Str(e.occurredAt))
    ensures SameUpToKeyOrder(Field(ps, METADATA).value, e.metadata)
  {
    FieldOf(e, ps, 0);
    FieldOf(e, ps, 1);
    FieldOf(e, ps, 2);
    FieldOf(e, ps, 3);
    FieldOf(e, ps, 4);
    FieldOf(e, ps, 5);
    FieldOf(e, ps, 6);
    FieldOf(e, ps, 7);
  }

  // ---------------------------------------------------------------- fingerprints identify events

  lemma EventJsonWellFormed(e: RevocationEvent)
    requires WellFormed(e.metadata)
    ensures WellFormed(EventToJson(e))
  {
    EntryKeys(e);
  }

  lemma EventJsonMeaning(a: RevocationEvent, b: RevocationEvent)
    requires WellFormed(a.metadata) && WellFormed(b.metadata)
    ensures SameUpToKeyOrder(EventToJson(a), EventToJson(b)) <==> SameEvent(a, b)
  {
    var x, y := EventEntries(a), EventEntries(b);
    EntryKeys(a);
    EntryKeys(b);
    if MeaningOfEntries(x) == MeaningOfEntries(y) {
      forall k | 0 <= k < 8 ensures MeaningOf(x[k].value) == MeaningOf(y[k].value) {
        FieldAt(a, k);
        FieldOf(b, x, k);
      }
      TypeNameRoundTrip(a.eventType);
      TypeNameRoundTrip(b.eventType);
      SameScalars(a, b);
    }
    if SameEvent(a, b) {
      forall k | 0 <= k < 8 ensures x[k].key == y[k].key && MeaningOf(x[k].value) == MeaningOf(y[k].value) {
      }
      SameMeaningOfEntries(x, y);
    }
  }

  lemma SameScalars(a: RevocationEvent, b: RevocationEvent)
    requires forall k :: 0 <= k < 8 ==> MeaningOf(EventEntries(a)[k].value) == MeaningOf(EventEntries(b)[k].value)
    requires TypeNamed(TypeName(a.eventType)) == Some(a.eventType)
             && TypeNamed(TypeName(b.eventType)) == Some(b.eventType)
    ensures SameEvent(a, b)
  {
    var x, y := EventEntries(a), EventEntries(b);
    assert MeaningOf(x[0].value) == MeaningOf(y[0].value);
    assert MeaningOf(x[1].value) == MeaningOf(y[1].value);
    assert MeaningOf(x[2].value) == MeaningOf(y[2].value);
    assert MeaningOf(x[3].value) == MeaningOf(y[3].value);
    assert MeaningOf(x[4].value) == MeaningOf(y[4].value);
    assert MeaningOf(x[5].value) == MeaningOf(y[5].value);
    assert MeaningOf(x[6].value) == MeaningOf(y[6].value);
    assert MeaningOf(x[7].value) == MeaningOf(y[7].value);
  }

  lemma {:induction false} SameMeaningOfEntries(a: seq<Entry>, b: seq<Entry>)
    requires |a| == |b|
    requires forall i :: 0 <= i < |a| ==> a[i].key == b[i].key && MeaningOf(a[i].value) == MeaningOf(b[i].value)
    ensures MeaningOfEntries(a) == MeaningOfEntries(b)
  {
    if a != [] {
      SameMeaningOfEntries(a[1..], b[1..]);
    }
  }

  /** Two events have one fingerprint exactly when they are the same event. */
  lemma FingerprintIdentifies(a: RevocationEvent, b: RevocationEvent)
    requires WellFormed(a.metadata) && WellFormed(b.metadata)
    ensures Fingerprint(a) == Fingerprint(b) <==> SameEvent(a, b)
  {
    EventJsonWellFormed(a);
    EventJsonWellFormed(b);
    CanonicalPaired(EventToJson(a));
    CanonicalPaired(EventToJson(b));
    DecodeEncode(CanonicalJson(EventToJson(a)));
    DecodeEncode(CanonicalJson(EventToJson(b)));
    CanonicalUnambiguous(EventToJson(a), EventToJson(b));
    EventJsonMeaning(a, b);
  }

  // ---------------------------------------------------------------- the worker's check of the stored copy

  datatype Verdict = Accepted | NonRetryable

  /** revocation-delivery.service.ts, assertStoredEvent. */
  function AssertStoredEvent(iso: Clock, stored: Option<Json>, queued: RevocationEvent): Verdict {
    match stored
    case None => NonRetryable
    case Some(payload) =>
      match ParseRevocationEvent(iso, payload)
      case None => NonRetryable
      case Some(e) => if Fingerprint(e) == Fingerprint(queued) then Accepted else NonRetryable
  }

  lemma ParsedMetadataWellFormed(iso: Clock, v: Json)
    requires WellFormed(v) && ParseRevocationEvent(iso, v).Some?
    ensures WellFormed(ParseRevocationEvent(iso, v).value.metadata)
  {
    assert WellFormed(v.entries[IndexOf(v.entries, METADATA)].value);
  }

  /** However the database and the broker reorder the keys of one valid event, the queued copy
      is read and matches the stored copy. */
  lemma WorkerAcceptsOwnEvent(iso: Clock, e: RevocationEvent, stored: Json, queued: Json)
    requires ValidEvent(iso, e)
    requires WellFormed(stored) && SameUpToKeyOrder(stored, EventToJson(e))
    requires WellFormed(queued) && SameUpToKeyOrder(queued, EventToJson(e))
    ensures ParseRevocationEvent(iso, queued).Some?
    ensures AssertStoredEvent(iso, Some(stored), ParseRevocationEvent(iso, queued).value) == Accepted
  {
    ReorderedCopyParses(iso, e, stored);
    ReorderedCopyParses(iso, e, queued);
    ParsedMetadataWellFormed(iso, stored);
    ParsedMetadataWellFormed(iso, queued);
    FingerprintIdentifies(ParseRevocationEvent(iso, stored).value, ParseRevocationEvent(iso, queued).value);
  }

  /** And nothing else matches: an accepted queue message denotes the stored event. */
  lemma AcceptedMeansSame(iso: Clock, stored: Json, queued: RevocationEvent)
    requires WellFormed(stored) && WellFormed(queued.metadata)
    ensures AssertStoredEvent(iso, Some(stored), queued) == Accepted
       <==> ParseRevocationEvent(iso, stored).Some? && SameEvent(ParseRevocationEvent(iso, stored).value, queued)
  {
    if ParseRevocationEvent(iso, stored).Some? {
      ParsedMetadataWellFormed(iso, stored);
      FingerprintIdentifies(ParseRevocationEvent(iso, stored).value, queued);
    }
  }

  // ---------------------------------------------------------------- producers

  /** What each producer hands to OutboxEventService.enqueueMany. */
  datatype Producer =
    | Logout(userId: Text, sessionId: Text)
    | Deactivation(userId: Text, sessionId: Text)
    | PasswordReset(userId: Text)
    | AccessLoss(userId: Text, applicationId: Text)

  function SourceMetadata(source: string): Json { Obj([Entry(Ascii("source"), Str(Ascii(source)))]) }

  /** enqueueMany: identifier and time are filled in, everything else is copied. */
  function Enqueued(p: Producer, eventId: Text, occurredAt: Text): RevocationEvent {
    match p
    case Logout(u, s) =>
      RevocationEvent(eventId, SessionRevoked, u, Some(s), None, Ascii("sso_logout"), occurredAt,
                      SourceMetadata("auth_logout"))
    case Deactivation(u, s) =>
      RevocationEvent(eventId, SessionRevoked, u, Some(s), None, Ascii("user_deactivated"), occurredAt,
                      SourceMetadata("admin_user_deactivation"))
    case PasswordReset(u) =>
      RevocationEvent(eventId, PasswordChanged, u, None, None, Ascii("password_changed"), occurredAt,
                      SourceMetadata("admin_password_change"))
    case AccessLoss(u, a) =>
      RevocationEvent(eventId, AccessPolicyChanged, u, None, Some(a), Ascii("access_policy_changed"), occurredAt,
                      SourceMetadata("admin_access_change"))
  }

  /** Identifiers come from uuid columns, so they are in normal form. */
  predicate NormalProducer(p: Producer) {
    && IsNormalUuid(p.userId)
    && (p.Logout? || p.Deactivation? ==> IsNormalUuid(p.sessionId))
    && (p.AccessLoss? ==> IsNormalUuid(p.applicationId))
  }

  predicate SnakeCase(s: string) {
    && 1 <= |s| <= 100 && 'a' <= s[0] <= 'z'
    && forall i :: 0 <= i < |s| ==> 'a' <= s[i] <= 'z' || s[i] == '_'
  }

  lemma SnakeCaseReason(s: string)
    requires SnakeCase(s)
    ensures IsReason(Ascii(s))
  {
  }

  lemma ReasonsAreSnakeCase()
    ensures SnakeCase("sso_logout") && SnakeCase("user_deactivated")
    ensures SnakeCase("password_changed") && SnakeCase("access_policy_changed")
  {
  }

  lemma SourceMetadataFits(source: string)
    ensures SourceMetadata(source).Obj? && IsJsonValue(SourceMetadata(source), 0) && WellFormed(SourceMetadata(source))
  {
  }

  /** Every event a producer can enqueue is valid. */
  lemma ProducedEventsValid(iso: Clock, p: Producer, eventId: Text, occurredAt: Text)
    requires NormalProducer(p) && IsNormalUuid(eventId) && iso(occurredAt) == Some(occurredAt)
    ensures ValidEvent(iso, Enqueued(p, eventId, occurredAt))
  {
    ReasonsAreSnakeCase();
    SnakeCaseReason("sso_logout");
    SnakeCaseReason("user_deactivated");
    SnakeCaseReason("password_changed");
    SnakeCaseReason("access_policy_changed");
    SourceMetadataFits("auth_logout");
    SourceMetadataFits("admin_user_deactivation");
    SourceMetadataFits("admin_password_change");
    SourceMetadataFits("admin_access_change");
  }

  // ---------------------------------------------------------------- the message on the queue

  const MAX_MESSAGE_BYTES := 16 * 1024

  /** A broker message: what the worker reads of its properties, and the bytes of its body. */
  datatype Message = Message(isJson: bool, content: seq<Byte>, messageId: Text, messageType: Text)

  /** What the outbox publisher sends for the stored payload `p` of event `e`. */
  function Published(e: RevocationEvent, p: Json): Message {
    Message(true, Encode(Print(p)), e.eventId, TypeName(e.eventType))
  }

  /** JSON.parse of a whole text. */
  function ParseText(t: Text): Option<Json> {
    match ReadValue(t)
    case Nothing => None
    case Just(Read(v, rest)) => if rest == [] then Some(v) else None
  }

  /** revocation-message.ts, parseRevocationMessage; None is a non-retryable error. */
  function ParseRevocationMessage(iso: Clock, m: Message): Option<RevocationEvent> {
    if !m.isJson || |m.content| == 0 || |m.content| > MAX_MESSAGE_BYTES then None
    else
      match DecodeText(m.content)
      case Nothing => None
      case Just(text) =>
        match ParseText(text)
        case None => None
        case Some(v) =>
          match ParseRevocationEvent(iso, v)
          case None => None
          case Some(e) => if m.messageId == e.eventId && m.messageType == TypeName(e.eventType) then Some(e) else None
  }

  /** A message is read as an event exactly if it is declared as JSON, has a body within the limit that is
      UTF-8 of the JSON text of that event, and its properties name the identifier and the type in it. */
  lemma MessageReadExactly(iso: Clock, m: Message, e: RevocationEvent)
    ensures ParseRevocationMessage(iso, m) == Some(e)
       <==> && m.isJson && 1 <= |m.content| <= 16384
            && (exists text, v :: DecodeText(m.content) == Just(text) && ParseText(text) == Some(v)
                                  && ParseRevocationEvent(iso, v) == Some(e))
            && m.messageId == e.eventId && m.messageType == TypeName(e.eventType)
  {
  }

  /** A printed object survives the way over the wire. */
  lemma PrintedTextArrives(es: seq<Entry>)
    requires WellFormed(Obj(es))
    ensures DecodeText(Encode(Print(Obj(es)))) == Just(Print(Obj(es)))
    ensures ParseText(Print(Obj(es))) == Some(Obj(es))
  {
    var text := Print(Obj(es));
    PrintPaired(Obj(es));
    DecodeEncode(text);
    assert text[0] == OPEN_BRACE;
    ReadPrint(Obj(es), []);
    assert text + [] == text;
  }

  predicate IsSpace(u: CodeUnit) { u == 0x20 || u == 0x09 || u == 0x0a || u == 0x0d }

  /** A text is read as a whole: after a printed value nothing may follow but white space, which no
      publisher writes. */
  lemma TrailingTextRejected(v: Json, rest: Text)
    requires WellFormed(v) && rest != [] && !IsSpace(rest[0]) && Ends(rest)
    ensures ParseText(Print(v) + rest) == None
  {
    ReadPrint(v, rest);
  }

  lemma ParsePublished(iso: Clock, e: RevocationEvent, stored: Json, read: RevocationEvent)
    requires WellFormed(stored) && ParseRevocationEvent(iso, stored) == Some(read)
    requires read.eventId == e.eventId && read.eventType == e.eventType
    ensures ParseRevocationMessage(iso, Published(e, stored))
         == if |Encode(Print(stored))| <= MAX_MESSAGE_BYTES then Some(read) else None
  {
    PrintedTextArrives(stored.entries);
    EncodeLength(Print(stored));
  }

  /** The whole way of a valid event: stored, reordered, printed, encoded, received, decoded, read,
      compared. The worker rejects its message exactly when it is too long. */
  lemma PublishedEventsAccepted(iso: Clock, e: RevocationEvent, stored: Json)
    requires ValidEvent(iso, e) && WellFormed(stored) && SameUpToKeyOrder(stored, EventToJson(e))
    ensures var m := ParseRevocationMessage(iso, Published(e, stored));
            if |Encode(Print(stored))| <= MAX_MESSAGE_BYTES
            then m.Some? && SameEvent(m.value, e) && AssertStoredEvent(iso, Some(stored), m.value) == Accepted
            else m.None?
  {
    WorkerAcceptsOwnEvent(iso, e, stored, stored);
    ReorderedCopyParses(iso, e, stored);
    ParsePublished(iso, e, stored, ParseRevocationEvent(iso, stored).value);
  }
}
