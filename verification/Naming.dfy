/** The identifiers of the state machines and the texts that name them in an event. An application
    computes the digest of an event from the event itself, so a notice and its digest belong together. */
module Naming {
  import opened Vocabulary
  import opened Json
  import opened Utf8
  import opened EventContract
  import opened EventIdentity
  import L = LocalSessions

  /** `digest` stands for SHA-256. */
  datatype Names = Names(
    event: L.EventId -> Text,
    user: L.UserId -> Text,
    session: L.CentralId -> Text,
    app: nat -> Text,
    digest: seq<Byte> -> nat)

  /** No two rows have the same identifier, and no two fingerprints the same digest. */
  ghost predicate AreDistinct(names: Names) {
    && (forall x, y {:trigger names.user(x), names.user(y)} :: names.user(x) == names.user(y) ==> x == y)
    && (forall x, y {:trigger names.session(x), names.session(y)} :: names.session(x) == names.session(y) ==> x == y)
    && (forall x, y {:trigger names.digest(x), names.digest(y)} :: names.digest(x) == names.digest(y) ==> x == y)
  }

  function NameOf(name: nat -> Text, x: Option<nat>): Option<Text> {
    match x
    case None => None
    case Some(n) => Some(name(n))
  }

  /** The notice is what an application reads of this event. */
  predicate Tells(names: Names, n: L.Notice, v: RevocationEvent) {
    && n.eventType == v.eventType && names.event(n.eventId) == v.eventId && names.user(n.userId) == v.userId
    && NameOf(names.session, n.centralSessionId) == v.centralSessionId && Ascii(n.reason) == v.reason
    && n.digest == names.digest(Fingerprint(v))
  }

  /** The notice of some event. */
  ghost predicate IsHonest(names: Names, n: L.Notice) {
    exists v: RevocationEvent :: WellFormed(v.metadata) && Tells(names, n, v)
  }

  /** Two notices with one digest are of one event, so they end the same sessions. */
  lemma SameDigestSameEvent(names: Names, a: L.Notice, b: L.Notice)
    requires AreDistinct(names) && IsHonest(names, a) && IsHonest(names, b) && a.digest == b.digest
    ensures a.eventType == b.eventType && a.userId == b.userId && a.centralSessionId == b.centralSessionId
  {
    var v: RevocationEvent :| WellFormed(v.metadata) && Tells(names, a, v);
    var w: RevocationEvent :| WellFormed(w.metadata) && Tells(names, b, w);
    assert Fingerprint(v) == Fingerprint(w);
    FingerprintIdentifies(v, w);
    assert v.userId == w.userId && v.centralSessionId == w.centralSessionId && v.eventType == w.eventType;
  }

  // ---------------------------------------------------------------- there are such names

  const ZERO_UUID := Ascii("00000000-0000-0000-0000-000000000000")

  function Name(n: nat): Text { if n == 0 then ZERO_UUID else seq(36 + n, _ => 0x61 as CodeUnit) }

  function Number(b: seq<Byte>): nat { if b == [] then 0 else 256 * Number(b[1..]) + b[0] as nat + 1 }

  const NAMES := Names(Name, Name, Name, Name, Number)

  lemma {:induction false} NumbersDiffer(a: seq<Byte>, b: seq<Byte>)
    requires Number(a) == Number(b)
    ensures a == b
  {
    if a != [] && b != [] {
      assert a[0] == b[0] && Number(a[1..]) == Number(b[1..]);
      NumbersDiffer(a[1..], b[1..]);
    }
  }

  lemma NamesAreDistinct()
    ensures AreDistinct(NAMES)
  {
    forall x: nat, y: nat | Name(x) == Name(y) ensures x == y {
      assert |Name(x)| == 36 + x && |Name(y)| == 36 + y;
    }
    forall x, y | Number(x) == Number(y) ensures x == y {
      NumbersDiffer(x, y);
    }
  }
}
