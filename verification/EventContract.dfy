/** The revocation event contract of packages/shared: validation, identity, and what the
    producers put into the outbox. The clock notation is abstract: `iso` maps an accepted
    timestamp to its normal form. */
module EventContract {
  import opened Vocabulary
  import opened Json
  import opened JsonReader
  import opened JsonCanonical
  import opened Utf8

  datatype RevocationEvent = RevocationEvent(
    eventId: Text,
    eventType: EventType,
    userId: Text,
    centralSessionId: Option<Text>,
    applicationId: Option<Text>,
    reason: Text,
    occurredAt: Text,
    metadata: Json)

  type Clock = Text -> Option<Text>

  function Ascii(s: string): (t: Text)
    ensures |t| == |s|
    ensures forall i :: 0 <= i < |s| ==> t[i] as int == s[i] as int % 0x1_0000
  {
    seq(|s|, i requires 0 <= i < |s| => (s[i] as int % 0x1_0000) as CodeUnit)
  }

  // ---------------------------------------------------------------- field names

  const EVENT_ID := Ascii("eventId")
  const EVENT_TYPE := Ascii("eventType")
  const USER_ID := Ascii("userId")
  const CENTRAL_SESSION_ID := Ascii("centralSessionId")
  const APPLICATION_ID := Ascii("applicationId")
  const REASON := Ascii("reason")
  const OCCURRED_AT := Ascii("occurredAt")
  const METADATA := Ascii("metadata")
  const FIELDS: seq<Text> :=
    [EVENT_ID, EVENT_TYPE, USER_ID, CENTRAL_SESSION_ID, APPLICATION_ID, REASON, OCCURRED_AT, METADATA]

  lemma FieldsDistinct()
    ensures |FIELDS| == 8
    ensures forall i, j :: 0 <= i < j < 8 ==> FIELDS[i] != FIELDS[j]
  {
    assert USER_ID[0] != REASON[0];
  }

  const SESSION_REVOKED := Ascii("SessionRevoked")
  const PASSWORD_CHANGED := Ascii("PasswordChanged")
  const ACCESS_POLICY_CHANGED := Ascii("AccessPolicyChanged")

  function TypeName(t: EventType): Text {
    match t
    case SessionRevoked => SESSION_REVOKED
    case PasswordChanged => PASSWORD_CHANGED
    case AccessPolicyChanged => ACCESS_POLICY_CHANGED
  }

  function TypeNamed(t: Text): Option<EventType> {
    if t == SESSION_REVOKED then Some(SessionRevoked)
    else if t == PASSWORD_CHANGED then Some(PasswordChanged)
    else if t == ACCESS_POLICY_CHANGED then Some(AccessPolicyChanged)
    else None
  }

  lemma TypeNameRoundTrip(t: EventType)
    ensures TypeNamed(TypeName(t)) == Some(t)
  {
  }

  // ---------------------------------------------------------------- scalar checks

  predicate IsHexUnit(u: CodeUnit) { IsDigit(u) || 0x61 <= u <= 0x66 || 0x41 <= u <= 0x46 }

  predicate IsUuid(t: Text) {
    && |t| == 36
    && forall i :: 0 <= i < 36 ==>
         if i == 8 || i == 13 || i == 18 || i == 23 then t[i] == 0x2d else IsHexUnit(t[i])
  }

  function LowerUnit(u: CodeUnit): CodeUnit {
    if 0x41 <= u <= 0x5a then u + 0x20 else u
  }

  function LowerCase(t: Text): (r: Text)
    ensures |r| == |t| && forall i :: 0 <= i < |t| ==> r[i] == LowerUnit(t[i])
  {
    seq(|t|, i requires 0 <= i < |t| => LowerUnit(t[i]))
  }

  predicate IsReason(t: Text) {
    && 1 <= |t| <= 100
    && 0x61 <= t[0] <= 0x7a
    && forall i :: 0 <= i < |t| ==> 0x61 <= t[i] <= 0x7a || IsDigit(t[i]) || t[i] == 0x5f
  }

  function ReadUuid(v: Json): Option<Text> {
    if v.Str? && IsUuid(v.chars) then Some(LowerCase(v.chars)) else None
  }

  /** A nullable identifier: null stays null, anything else must be a UUID. */
  function ReadNullableUuid(v: Json): Option<Option<Text>> {
    if v.Null? then Some(None)
    else match ReadUuid(v)
         case None => None
         case Some(t) => Some(Some(t))
  }

  // ---------------------------------------------------------------- isJsonValue

  predicate IsJsonValue(v: Json, depth: nat) {
    if depth > 10 then false
    else match v
         case Arr(items) => forall i :: 0 <= i < |items| ==> IsJsonValue(items[i], depth + 1)
         case Obj(es) => forall i :: 0 <= i < |es| ==> IsJsonValue(es[i].value, depth + 1)
         case Foreign => false
         case _ => true
  }

  /** How many containers a value needs around its deepest part; 0 for an empty container. */
  function Height(v: Json): nat
    decreases v, 0
  {
    match v
    case Arr(items) => HeightOfItems(items)
    case Obj(es) => HeightOfEntries(es)
    case _ => 0
  }

  function HeightOfItems(items: seq<Json>): (h: nat)
    ensures forall i :: 0 <= i < |items| ==> Height(items[i]) < h
    ensures items != [] ==> exists i :: 0 <= i < |items| && Height(items[i]) + 1 == h
    decreases items, 2
  {
    if items == [] then 0
    else
      var h, r := 1 + Height(items[0]), HeightOfItems(items[1..]);
      HeightOfMoreItems(items, r);
      if h >= r then h else r
  }

  lemma HeightOfMoreItems(items: seq<Json>, r: nat)
    requires items != []
    requires forall i :: 0 <= i < |items[1..]| ==> Height(items[1..][i]) < r
    requires items[1..] != [] ==>
               exists i :: 0 <= i < |items[1..]| && Height(items[1..][i]) + 1 == r
    ensures forall i :: 1 <= i < |items| ==> Height(items[i]) < r
    ensures |items| > 1 ==> exists i :: 1 <= i < |items| && Height(items[i]) + 1 == r
    decreases items, 1
  {
    forall i | 1 <= i < |items| ensures Height(items[i]) < r {
      assert items[i] == items[1..][i - 1];
    }
    if |items| > 1 {
      var i :| 0 <= i < |items[1..]| && Height(items[1..][i]) + 1 == r;
      assert Height(items[i + 1]) + 1 == r;
    }
  }

  function HeightOfEntries(es: seq<Entry>): (h: nat)
    ensures forall i :: 0 <= i < |es| ==> Height(es[i].value) < h
    ensures es != [] ==> exists i :: 0 <= i < |es| && Height(es[i].value) + 1 == h
    decreases es, 2
  {
    if es == [] then 0
    else
      var h, r := 1 + Height(es[0].value), HeightOfEntries(es[1..]);
      HeightOfMoreEntries(es, r);
      if h >= r then h else r
  }

  lemma HeightOfMoreEntries(es: seq<Entry>, r: nat)
    requires es != []
    requires forall i :: 0 <= i < |es[1..]| ==> Height(es[1..][i].value) < r
    requires es[1..] != [] ==>
               exists i :: 0 <= i < |es[1..]| && Height(es[1..][i].value) + 1 == r
    ensures forall i :: 1 <= i < |es| ==> Height(es[i].value) < r
    ensures |es| > 1 ==> exists i :: 1 <= i < |es| && Height(es[i].value) + 1 == r
    decreases es, 1
  {
    forall i | 1 <= i < |es| ensures Height(es[i].value) < r {
      assert es[i] == es[1..][i - 1];
    }
    if |es| > 1 {
      var i :| 0 <= i < |es[1..]| && Height(es[1..][i].value) + 1 == r;
      assert Height(es[i + 1].value) + 1 == r;
    }
  }

  predicate NothingForeign(v: Json) {
    match v
    case Arr(items) => forall i :: 0 <= i < |items| ==> NothingForeign(items[i])
    case Obj(es) => forall i :: 0 <= i < |es| ==> NothingForeign(es[i].value)
    case Foreign => false
    case _ => true
  }

  /** isJsonValue accepts exactly the values made of JSON and nested at most ten deep. */
  lemma {:induction false} JsonValueIsShallow(v: Json, depth: nat)
    requires depth <= 10
    ensures IsJsonValue(v, depth) <==> NothingForeign(v) && depth + Height(v) <= 10
  {
    match v
    case Arr(items) =>
      if depth < 10 {
        forall i | 0 <= i < |items|
          ensures IsJsonValue(items[i], depth + 1) <==> NothingForeign(items[i]) && depth + 1 + Height(items[i]) <= 10
        {
          JsonValueIsShallow(items[i], depth + 1);
        }
      }
    case Obj(es) =>
      if depth < 10 {
        forall i | 0 <= i < |es|
          ensures IsJsonValue(es[i].value, depth + 1)
             <==> NothingForeign(es[i].value) && depth + 1 + Height(es[i].value) <= 10
        {
          JsonValueIsShallow(es[i].value, depth + 1);
        }
      }
    case _ =>
  }

  // ---------------------------------------------------------------- parseRevocationEvent

  function Field(es: seq<Entry>, name: Text): (r: Option<Json>) {
    var i := IndexOf(es, name);
    if i < |es| then Some(es[i].value) else None
  }

  /** Which identifiers each type of event carries. */
  predicate TargetsFit(t: EventType, centralSessionId: Option<Text>, applicationId: Option<Text>) {
    match t
    case SessionRevoked => centralSessionId.Some? && applicationId.None?
    case PasswordChanged => centralSessionId.None? && applicationId.None?
    case AccessPolicyChanged => centralSessionId.None? && applicationId.Some?
  }

  function ParseRevocationEvent(iso: Clock, v: Json): Option<RevocationEvent> {
    if !v.Obj? || |v.entries| != |FIELDS| || exists i :: 0 <= i < |v.entries| && v.entries[i].key !in FIELDS then None
    else
      var es := v.entries;
      match (Field(es, EVENT_ID), Field(es, EVENT_TYPE), Field(es, USER_ID), Field(es, CENTRAL_SESSION_ID),
             Field(es, APPLICATION_ID), Field(es, REASON), Field(es, OCCURRED_AT), Field(es, METADATA))
      case (Some(id), Some(eventType), Some(user), Some(session), Some(app), Some(reason), Some(at), Some(metadata)) =>
        ParseFields(iso, id, eventType, user, session, app, reason, at, metadata)
      case _ => None
  }

  function ParseFields(iso: Clock, id: Json, eventType: Json, user: Json, session: Json, app: Json,
                       reason: Json, at: Json, metadata: Json): Option<RevocationEvent>
  {
    if !eventType.Str? || !reason.Str? || !IsReason(reason.chars) || !metadata.Obj? || !IsJsonValue(metadata, 0)
       || !at.Str? then None
    else
      match (TypeNamed(eventType.chars), ReadUuid(id), ReadUuid(user), ReadNullableUuid(session),
             ReadNullableUuid(app), iso(at.chars))
      case (Some(t), Some(i), Some(u), Some(s), Some(a), Some(o)) =>
        if TargetsFit(t, s, a) then Some(RevocationEvent(i, t, u, s, a, reason.chars, o, metadata)) else None
      case _ => None
  }

  // ---------------------------------------------------------------- events as values

  function NullableText(t: Option<Text>): Json {
    if t.Some? then Str(t.value) else Null
  }

  function EventEntries(e: RevocationEvent): seq<Entry> {
    [Entry(EVENT_ID, Str(e.eventId)),
     Entry(EVENT_TYPE, Str(TypeName(e.eventType))),
     Entry(USER_ID, Str(e.userId)),
     Entry(CENTRAL_SESSION_ID, NullableText(e.centralSessionId)),
     Entry(APPLICATION_ID, NullableText(e.applicationId)),
     Entry(REASON, Str(e.reason)),
     Entry(OCCURRED_AT, Str(e.occurredAt)),
     Entry(METADATA, e.metadata)]
  }

  /** The object enqueueMany builds and stores, in the order it writes the properties. */
  function EventToJson(e: RevocationEvent): Json { Obj(EventEntries(e)) }

  /** The bytes that are hashed; the hash itself stands for an injective function of them. */
  function Fingerprint(e: RevocationEvent): seq<Byte> { Encode(CanonicalJson(EventToJson(e))) }

  predicate IsNormalUuid(t: Text) { IsUuid(t) && LowerCase(t) == t }

  predicate IsNormalNullable(t: Option<Text>) { t.Some? ==> IsNormalUuid(t.value) }

  ghost predicate ValidEvent(iso: Clock, e: RevocationEvent) {
    && IsNormalUuid(e.eventId)
    && IsNormalUuid(e.userId)
    && IsNormalNullable(e.centralSessionId)
    && IsNormalNullable(e.applicationId)
    && TargetsFit(e.eventType, e.centralSessionId, e.applicationId)
    && IsReason(e.reason)
    && iso(e.occurredAt) == Some(e.occurredAt)
    && e.metadata.Obj?
    && IsJsonValue(e.metadata, 0)
    && WellFormed(e.metadata)
  }

  /** Normal forms of accepted timestamps are accepted and stay as they are. */
  ghost predicate Normalising(iso: Clock) {
    forall t :: iso(t).Some? ==> iso(iso(t).value) == iso(t)
  }

  // ---------------------------------------------------------------- parsing is exact

  lemma EntryKeys(e: RevocationEvent)
    ensures UniqueKeys(EventEntries(e))
    ensures forall i :: 0 <= i < 8 ==> EventEntries(e)[i].key == FIELDS[i]
  {
    FieldsDistinct();
    forall i, j | 0 <= i < j < 8 ensures EventEntries(e)[i].key != EventEntries(e)[j].key {
      assert EventEntries(e)[i].key == FIELDS[i] && EventEntries(e)[j].key == FIELDS[j];
    }
  }

  lemma FieldAt(e: RevocationEvent, i: nat)
    requires i < 8
    ensures Field(EventEntries(e), FIELDS[i]) == Some(EventEntries(e)[i].value)
  {
    EntryKeys(e);
    IndexOfUnique(EventEntries(e), i);
  }

  lemma FieldValues(e: RevocationEvent)
    ensures var es := EventEntries(e);
            && Field(es, EVENT_ID) == Some(Str(e.eventId)) && Field(es, EVENT_TYPE) == Some(Str(TypeName(e.eventType)))
            && Field(es, USER_ID) == Some(Str(e.userId))
               && Field(es, CENTRAL_SESSION_ID) == Some(NullableText(e.centralSessionId))
            && Field(es, APPLICATION_ID) == Some(NullableText(e.applicationId))
               && Field(es, REASON) == Some(Str(e.reason))
            && Field(es, OCCURRED_AT) == Some(Str(e.occurredAt)) && Field(es, METADATA) == Some(e.metadata)
  {
    FieldAt(e, 0);
    FieldAt(e, 1);
    FieldAt(e, 2);
    FieldAt(e, 3);
    FieldAt(e, 4);
    FieldAt(e, 5);
    FieldAt(e, 6);
    FieldAt(e, 7);
  }

  /** These are the keys, entry by entry. */
  predicate AreKeys(es: seq<Entry>, names: seq<Text>) {
    |es| == |names| && forall i :: 0 <= i < |es| ==> es[i].key == names[i]
  }

  lemma FieldNames(e: RevocationEvent)
    ensures UniqueKeys(EventEntries(e)) && AreKeys(EventEntries(e), FIELDS)
  {
    EntryKeys(e);
  }

  lemma NoOtherFields(e: RevocationEvent)
    ensures |EventEntries(e)| == |FIELDS| && forall i :: 0 <= i < |EventEntries(e)| ==> EventEntries(e)[i].key in FIELDS
  {
    FieldNames(e);
  }

  lemma ParseOfEntries(iso: Clock, e: RevocationEvent)
    ensures ParseRevocationEvent(iso, EventToJson(e))
         == ParseFields(iso, Str(e.eventId), Str(TypeName(e.eventType)), Str(e.userId),
                        NullableText(e.centralSessionId),
                        NullableText(e.applicationId), Str(e.reason), Str(e.occurredAt), e.metadata)
  {
    FieldValues(e);
    NoOtherFields(e);
  }

  /** What the parser demands of the properties of an event: UUIDs in any case, a reason of the right shape,
      a readable time, an object of JSON values, and the identifiers its type carries. */
  predicate IsAcceptable(iso: Clock, e: RevocationEvent) {
    && IsUuid(e.eventId) && IsUuid(e.userId)
    && (e.centralSessionId.Some? ==> IsUuid(e.centralSessionId.value))
    && (e.applicationId.Some? ==> IsUuid(e.applicationId.value))
    && (e.centralSessionId.Some? <==> e.eventType == SessionRevoked)
    && (e.applicationId.Some? <==> e.eventType == AccessPolicyChanged)
    && IsReason(e.reason) && iso(e.occurredAt).Some?
    && e.metadata.Obj? && NothingForeign(e.metadata) && Height(e.metadata) <= 10
  }

  function LowerNullable(t: Option<Text>): Option<Text> { if t.Some? then Some(LowerCase(t.value)) else None }

  lemma NullableExactly(t: Option<Text>)
    ensures ReadNullableUuid(NullableText(t)) == if t.Some? ==> IsUuid(t.value) then Some(LowerNullable(t)) else None
  {
  }

  lemma TargetsExactly(t: EventType, session: Option<Text>, app: Option<Text>)
    ensures TargetsFit(t, LowerNullable(session), LowerNullable(app))
       <==> (session.Some? <==> t == SessionRevoked) && (app.Some? <==> t == AccessPolicyChanged)
  {
  }

  lemma FieldsExactly(iso: Clock, e: RevocationEvent)
    ensures ParseFields(iso, Str(e.eventId), Str(TypeName(e.eventType)), Str(e.userId),
                        NullableText(e.centralSessionId), NullableText(e.applicationId), Str(e.reason),
                        Str(e.occurredAt), e.metadata)
         == if !IsAcceptable(iso, e) then None
            else Some(e.(eventId := LowerCase(e.eventId), userId := LowerCase(e.userId),
                         centralSessionId := LowerNullable(e.centralSessionId),
                         applicationId := LowerNullable(e.applicationId), occurredAt := iso(e.occurredAt).value))
  {
    TypeNameRoundTrip(e.eventType);
    NullableExactly(e.centralSessionId);
    NullableExactly(e.applicationId);
    TargetsExactly(e.eventType, e.centralSessionId, e.applicationId);
    JsonValueIsShallow(e.metadata, 0);
  }

  /** An event is accepted exactly then, and comes out with lower-case identifiers and normal time. */
  lemma ParsesExactly(iso: Clock, e: RevocationEvent)
    ensures ParseRevocationEvent(iso, EventToJson(e))
         == if !IsAcceptable(iso, e) then None
            else Some(e.(eventId := LowerCase(e.eventId), userId := LowerCase(e.userId),
                         centralSessionId := LowerNullable(e.centralSessionId),
                         applicationId := LowerNullable(e.applicationId), occurredAt := iso(e.occurredAt).value))
  {
    ParseOfEntries(iso, e);
    FieldsExactly(iso, e);
  }

  /** Lower case moves the letters of a UUID from A to F to a to f and keeps everything else. */
  lemma LowerCaseExactly(t: Text)
    requires IsUuid(t)
    ensures forall i :: 0 <= i < 36 ==>
              LowerCase(t)[i] as int == t[i] as int + if 0x41 <= t[i] <= 0x46 then 0x20 else 0
    ensures forall i :: 0 <= i < 36 ==> !(0x41 <= LowerCase(t)[i] <= 0x46)
  {
  }

  lemma LowerCaseNormal(t: Text)
    requires IsUuid(t)
    ensures IsNormalUuid(LowerCase(t))
  {
  }

  /** Every valid event is accepted, unchanged. */
  lemma ValidEventsParse(iso: Clock, e: RevocationEvent)
    requires ValidEvent(iso, e)
    ensures ParseRevocationEvent(iso, EventToJson(e)) == Some(e)
  {
    ParseOfEntries(iso, e);
    TypeNameRoundTrip(e.eventType);
  }

  /** Only valid events come out, so parsing again changes nothing. */
  lemma ParsedEventsValid(iso: Clock, v: Json)
    requires WellFormed(v) && Normalising(iso) && ParseRevocationEvent(iso, v).Some?
    ensures ValidEvent(iso, ParseRevocationEvent(iso, v).value)
  {
    var es := v.entries;
    var id, user := Field(es, EVENT_ID).value, Field(es, USER_ID).value;
    var session, app := Field(es, CENTRAL_SESSION_ID).value, Field(es, APPLICATION_ID).value;
    LowerCaseNormal(id.chars);
    LowerCaseNormal(user.chars);
    if session.Str? {
      LowerCaseNormal(session.chars);
    }
    if app.Str? {
      LowerCaseNormal(app.chars);
    }
    assert WellFormed(es[IndexOf(es, METADATA)].value);
  }

  lemma ParsingIdempotent(iso: Clock, v: Json)
    requires WellFormed(v) && Normalising(iso) && ParseRevocationEvent(iso, v).Some?
    ensures var e := ParseRevocationEvent(iso, v).value;
            ParseRevocationEvent(iso, EventToJson(e)) == Some(e)
  {
    ParsedEventsValid(iso, v);
    ValidEventsParse(iso, ParseRevocationEvent(iso, v).value);
  }
}
