/** Every message of a produced event fits the envelope of the worker, so no produced event is ever
    refused. */
module MessageSize {
  import opened Vocabulary
  import opened Json
  import opened JsonCanonical
  import opened Utf8
  import opened EventContract
  import opened EventIdentity

  // ---------------------------------------------------------------- length of printed text

  lemma EscapeUnitLength(u: CodeUnit)
    ensures |EscapeUnit(u)| <= 6
  {
  }

  lemma {:induction false} EscapeLength(s: Text)
    ensures |Escape(s)| <= 6 * |s|
  {
    if s != [] {
      if |s| >= 2 && IsHigh(s[0]) && IsLow(s[1]) {
        EscapeLength(s[2..]);
      } else {
        EscapeUnitLength(s[0]);
        EscapeLength(s[1..]);
      }
    }
  }

  lemma QuotedLength(s: Text)
    ensures |Quoted(s)| <= 6 * |s| + 2
  {
    EscapeLength(s);
  }

  const LONGEST_KEY := 16
  const LONGEST_VALUE := 6 * 36 + 2
  const LONGEST_ENTRY := 6 * LONGEST_KEY + 2 + 1 + LONGEST_VALUE + 1

  predicate IsShort(x: Entry) { |x.key| <= LONGEST_KEY && |Print(x.value)| <= LONGEST_VALUE }

  lemma {:induction false} EntriesLength(es: seq<Entry>)
    requires forall i :: 0 <= i < |es| ==> IsShort(es[i])
    ensures |PrintEntries(es)| <= |es| * LONGEST_ENTRY
    decreases es
  {
    if es != [] {
      assert IsShort(es[0]);
      QuotedLength(es[0].key);
      EntriesLength(es[1..]);
      assert |es| * LONGEST_ENTRY == LONGEST_ENTRY + |es[1..]| * LONGEST_ENTRY;
    }
  }

  // ---------------------------------------------------------------- values of a produced event

  /** The length of a timestamp in the form of toISOString. */
  const ISO_LENGTH := 24

  /** What enqueueMany wrote, with a payload that the database may return with other key orders. */
  datatype Enqueuing = Enqueuing(producer: Producer, eventId: Text, occurredAt: Text, stored: Json)

  function EventOf(x: Enqueuing): RevocationEvent { Enqueued(x.producer, x.eventId, x.occurredAt) }

  ghost predicate IsProduced(iso: Clock, x: Enqueuing) {
    && NormalProducer(x.producer) && IsNormalUuid(x.eventId)
    && iso(x.occurredAt) == Some(x.occurredAt) && |x.occurredAt| <= ISO_LENGTH
    && WellFormed(x.stored) && SameUpToKeyOrder(x.stored, EventToJson(EventOf(x)))
  }

  lemma ShortText(t: Text)
    requires |t| <= 36
    ensures |Print(Str(t))| <= LONGEST_VALUE
  {
    QuotedLength(t);
  }

  lemma MetadataLength(source: string)
    requires |source| <= 23
    ensures |Print(SourceMetadata(source))| <= LONGEST_VALUE
  {
    var es := SourceMetadata(source).entries;
    QuotedLength(es[0].key);
    QuotedLength(Ascii(source));
    assert PrintEntries(es) == Quoted(es[0].key) + [COLON] + Print(es[0].value) + [];
  }

  lemma NullableLength(t: Option<Text>)
    requires t.Some? ==> |t.value| <= 36
    ensures |Print(NullableText(t))| <= LONGEST_VALUE
  {
    if t.Some? {
      ShortText(t.value);
    }
  }

  ghost predicate HasSource(e: RevocationEvent) {
    exists source :: |source| <= 23 && e.metadata == SourceMetadata(source)
  }

  ghost predicate HasShortTexts(e: RevocationEvent) {
    && |e.eventId| <= 36 && |e.userId| <= 36 && |e.reason| <= 36 && |e.occurredAt| <= 36
    && (e.centralSessionId.Some? ==> |e.centralSessionId.value| <= 36)
    && (e.applicationId.Some? ==> |e.applicationId.value| <= 36)
    && HasSource(e)
  }

  lemma ProducedSource(x: Enqueuing)
    ensures HasSource(EventOf(x))
  {
    var e := EventOf(x);
    match x.producer
    case Logout(_, _) => assert e.metadata == SourceMetadata("auth_logout");
    case Deactivation(_, _) => assert e.metadata == SourceMetadata("admin_user_deactivation");
    case PasswordReset(_) => assert e.metadata == SourceMetadata("admin_password_change");
    case AccessLoss(_, _) => assert e.metadata == SourceMetadata("admin_access_change");
  }

  lemma UuidLength(t: Text)
    requires IsNormalUuid(t)
    ensures |t| == 36
  {
  }

  lemma ShortReason(x: Enqueuing)
    ensures |EventOf(x).reason| <= 36
  {
  }

  lemma ShortIdentifiers(p: Producer, eventId: Text, occurredAt: Text)
    requires NormalProducer(p)
    ensures var e := Enqueued(p, eventId, occurredAt);
            && e.eventId == eventId && e.occurredAt == occurredAt && |e.userId| == 36
            && (e.centralSessionId.Some? ==> |e.centralSessionId.value| == 36)
            && (e.applicationId.Some? ==> |e.applicationId.value| == 36)
  {
    UuidLength(p.userId);
  }

  lemma ProducedTexts(iso: Clock, x: Enqueuing)
    requires IsProduced(iso, x)
    ensures HasShortTexts(EventOf(x))
  {
    UuidLength(x.eventId);
    ShortIdentifiers(x.producer, x.eventId, x.occurredAt);
    ShortReason(x);
    ProducedSource(x);
  }

  lemma ShortTypeName(t: EventType)
    ensures |TypeName(t)| <= 36
  {
  }

  predicate IsValueOf(e: RevocationEvent, v: Json) {
    v == Str(e.eventId) || v == Str(TypeName(e.eventType)) || v == Str(e.userId)
        || v == NullableText(e.centralSessionId)
    || v == NullableText(e.applicationId) || v == Str(e.reason) || v == Str(e.occurredAt) || v == e.metadata
  }

  lemma ValueCases(e: RevocationEvent, k: nat)
    requires k < 8
    ensures IsValueOf(e, EventEntries(e)[k].value)
  {
  }

  lemma ShortMetadata(e: RevocationEvent)
    requires HasSource(e)
    ensures |Print(e.metadata)| <= LONGEST_VALUE
  {
    var source :| |source| <= 23 && e.metadata == SourceMetadata(source);
    MetadataLength(source);
  }

  lemma ShortValue(e: RevocationEvent, v: Json)
    requires HasShortTexts(e) && IsValueOf(e, v)
    ensures |Print(v)| <= LONGEST_VALUE
  {
    if v == e.metadata {
      ShortMetadata(e);
    } else if v == NullableText(e.centralSessionId) {
      NullableLength(e.centralSessionId);
    } else if v == NullableText(e.applicationId) {
      NullableLength(e.applicationId);
    } else {
      ShortTypeName(e.eventType);
      ShortText(v.chars);
    }
  }

  // ---------------------------------------------------------------- reordering changes no length

  lemma ScalarOrder(v: Json, w: Json)
    requires (w.Str? || w.Null?) && SameUpToKeyOrder(v, w)
    ensures v == w
  {
  }

  lemma MetadataOrder(v: Json, source: string)
    requires WellFormed(v) && SameUpToKeyOrder(v, SourceMetadata(source))
    ensures v == SourceMetadata(source)
  {
    OneKey(v, SourceMetadata(source).entries[0]);
  }

  lemma ScalarOrMetadata(e: RevocationEvent, w: Json)
    requires IsValueOf(e, w)
    ensures w == e.metadata || w.Str? || w.Null?
  {
  }

  /** A value of a produced event has at most one key, and so only one order. */
  lemma OnlyOrder(e: RevocationEvent, v: Json, w: Json)
    requires HasSource(e) && WellFormed(v) && SameUpToKeyOrder(v, w) && IsValueOf(e, w)
    ensures v == w
  {
    ScalarOrMetadata(e, w);
    if w == e.metadata {
      var source :| |source| <= 23 && e.metadata == SourceMetadata(source);
      MetadataOrder(v, source);
    } else {
      ScalarOrder(v, w);
    }
  }

  lemma SoleEntry(es: seq<Entry>, x: Entry)
    requires UniqueKeys(es) && x.value.Str? && MeaningOfEntries(es) == map[x.key := MeaningOf(x.value)]
    ensures es == [x]
  {
    KeyCount(es);
    MeaningLookup(es, 0);
    ScalarOrder(es[0].value, x.value);
    assert es[0] == x;
  }

  lemma MeaningOfOne(x: Entry)
    ensures MeaningOfEntries([x]) == map[x.key := MeaningOf(x.value)]
  {
    assert [x][1..] == [];
  }

  lemma OneKey(v: Json, x: Entry)
    requires WellFormed(v) && x.value.Str? && SameUpToKeyOrder(v, Obj([x]))
    ensures v == Obj([x])
  {
    MeaningOfOne(x);
    SoleEntry(v.entries, x);
  }

  /** Each entry of a reordered copy is one of the eight of the event. */
  ghost predicate IsFieldOf(e: RevocationEvent, x: Entry, k: nat) {
    k < 8 && x.key == FIELDS[k] && SameUpToKeyOrder(x.value, EventEntries(e)[k].value)
  }

  lemma KeyIsName(ps: seq<Entry>, i: nat, k: nat)
    requires UniqueKeys(ps) && i < |ps| && k < 8 && FIELDS[k] == ps[i].key
    ensures Field(ps, FIELDS[k]) == Some(ps[i].value)
  {
    IndexOfUnique(ps, i);
  }

  lemma KeyHasName(e: RevocationEvent, ps: seq<Entry>, i: nat) returns (k: nat)
    requires UniqueKeys(ps) && MeaningOfEntries(ps) == MeaningOfEntries(EventEntries(e)) && i < |ps|
    ensures k < 8 && FIELDS[k] == ps[i].key
  {
    KeysAreFields(e, ps);
    assert ps[i].key in FIELDS;
    k :| 0 <= k < |FIELDS| && FIELDS[k] == ps[i].key;
  }

  lemma EntryIsField(e: RevocationEvent, ps: seq<Entry>, i: nat) returns (k: nat)
    requires UniqueKeys(ps) && MeaningOfEntries(ps) == MeaningOfEntries(EventEntries(e)) && i < |ps|
    ensures IsFieldOf(e, ps[i], k)
  {
    k := KeyHasName(e, ps, i);
    FieldOf(e, ps, k);
    KeyIsName(ps, i, k);
  }

  lemma StoredEntryShort(iso: Clock, x: Enqueuing, i: nat)
    requires IsProduced(iso, x) && i < |x.stored.entries|
    ensures IsShort(x.stored.entries[i])
  {
    var e, ps := EventOf(x), x.stored.entries;
    ProducedTexts(iso, x);
    var k := EntryIsField(e, ps, i);
    ValueCases(e, k);
    OnlyOrder(e, ps[i].value, EventEntries(e)[k].value);
    ShortValue(e, ps[i].value);
    FieldLength(k);
  }

  lemma FieldLength(k: nat)
    requires k < 8
    ensures |FIELDS[k]| <= LONGEST_KEY
  {
  }

  /** However the database orders its keys, the message of a produced event is short enough. */
  lemma ProducedMessageFits(iso: Clock, x: Enqueuing)
    requires IsProduced(iso, x)
    ensures 0 < |Encode(Print(x.stored))| <= MAX_MESSAGE_BYTES
  {
    var ps := x.stored.entries;
    KeysAreFields(EventOf(x), ps);
    FieldsDistinct();
    forall i | 0 <= i < |ps| ensures IsShort(ps[i]) {
      StoredEntryShort(iso, x, i);
    }
    EntriesLength(ps);
    EncodeLength(Print(x.stored));
  }

  /** The checks of the worker on the message of a stored event: envelope, parser, properties, and the
      comparison with the outbox record. */
  predicate WorkerAccepts(iso: Clock, x: Enqueuing) {
    var m := ParseRevocationMessage(iso, Published(EventOf(x), x.stored));
    m.Some? && AssertStoredEvent(iso, Some(x.stored), m.value) == Accepted
  }

  /** The worker never rejects an event of its own producers. */
  lemma ProducedEventsAccepted(iso: Clock, x: Enqueuing)
    requires IsProduced(iso, x)
    ensures WorkerAccepts(iso, x)
  {
    ProducedEventsValid(iso, x.producer, x.eventId, x.occurredAt);
    ProducedMessageFits(iso, x);
    PublishedEventsAccepted(iso, EventOf(x), x.stored);
  }
}
