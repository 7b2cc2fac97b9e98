/** JSON values as the services exchange them, the canonical printer that decides
    the identity of a revocation event, and a reader that recovers a printed value.
    Text is a sequence of UTF-16 code units, as in the original.  */
module Json {

  newtype CodeUnit = x: int | 0 <= x < 0x1_0000

  type Text = seq<CodeUnit>

  datatype Maybe<+T> = Nothing | Just(value: T)

  /** `Number` keeps the decimal text of a finite number. `Foreign` stands for every value
      that is not JSON: undefined, functions, symbols, bigints and non-finite numbers. */
  datatype Json =
    | Null
    | Bool(flag: bool)
    | Number(token: Text)
    | Str(chars: Text)
    | Arr(items: seq<Json>)
    | Obj(entries: seq<Entry>)
    | Foreign

  /** One property of an object; the entries of an object stand in its enumeration order. */
  datatype Entry = Entry(key: Text, value: Json)

  // ---------------------------------------------------------------- characters

  const QUOTE: CodeUnit := 0x22
  const BACKSLASH: CodeUnit := 0x5c
  const COMMA: CodeUnit := 0x2c
  const COLON: CodeUnit := 0x3a
  const OPEN_BRACKET: CodeUnit := 0x5b
  const CLOSE_BRACKET: CodeUnit := 0x5d
  const OPEN_BRACE: CodeUnit := 0x7b
  const CLOSE_BRACE: CodeUnit := 0x7d
  const NULL_TEXT: Text := [0x6e, 0x75, 0x6c, 0x6c]
  const TRUE_TEXT: Text := [0x74, 0x72, 0x75, 0x65]
  const FALSE_TEXT: Text := [0x66, 0x61, 0x6c, 0x73, 0x65]

  predicate IsDigit(u: CodeUnit) { 0x30 <= u <= 0x39 }

  predicate IsNumberUnit(u: CodeUnit) {
    IsDigit(u) || u == 0x2d || u == 0x2b || u == 0x2e || u == 0x65
  }

  /** The shape of Number::toString for a finite number. */
  predicate IsNumberToken(t: Text) {
    && t != []
    && (IsDigit(t[0]) || t[0] == 0x2d)
    && forall i :: 0 <= i < |t| ==> IsNumberUnit(t[i])
  }

  predicate IsHigh(u: CodeUnit) { 0xd800 <= u <= 0xdbff }

  predicate IsLow(u: CodeUnit) { 0xdc00 <= u <= 0xdfff }

  // ---------------------------------------------------------------- well-formedness

  ghost predicate HasKey(es: seq<Entry>, k: Text) {
    exists i :: 0 <= i < |es| && es[i].key == k
  }

  ghost predicate UniqueKeys(es: seq<Entry>) {
    forall i, j :: 0 <= i < j < |es| ==> es[i].key != es[j].key
  }

  /** Every object has distinct keys, every number is finite, and nothing is foreign. */
  ghost predicate WellFormed(v: Json) {
    match v
    case Number(token) => IsNumberToken(token)
    case Arr(items) => forall i :: 0 <= i < |items| ==> WellFormed(items[i])
    case Obj(es) => UniqueKeys(es) && forall i :: 0 <= i < |es| ==> WellFormed(es[i].value)
    case Foreign => false
    case _ => true
  }

  // ---------------------------------------------------------------- JSON.stringify of a string

  function HexDigit(n: int): CodeUnit
    requires 0 <= n < 16
  {
    if n < 10 then (0x30 + n) as CodeUnit else (0x57 + n) as CodeUnit
  }

  function HexValue(u: CodeUnit): Maybe<nat> {
    if IsDigit(u) then Just(u as int - 0x30)
    else if 0x61 <= u <= 0x66 then Just(u as int - 0x57)
    else Nothing
  }

  /** The last `k` hexadecimal digits of `n`. */
  function HexDigits(n: nat, k: nat): (t: Text)
    ensures |t| == k
  {
    if k == 0 then [] else HexDigits(n / 16, k - 1) + [HexDigit(n % 16)]
  }

  function UnicodeEscape(u: CodeUnit): (t: Text)
    ensures |t| == 6 && t[0] == BACKSLASH && t[1] == 0x75
  {
    [BACKSLASH, 0x75] + HexDigits(u as nat, 4)
  }

  function EscapeUnit(u: CodeUnit): Text {
    if u == QUOTE || u == BACKSLASH then [BACKSLASH, u]
    else if u == 0x08 then [BACKSLASH, 0x62]
    else if u == 0x09 then [BACKSLASH, 0x74]
    else if u == 0x0a then [BACKSLASH, 0x6e]
    else if u == 0x0c then [BACKSLASH, 0x66]
    else if u == 0x0d then [BACKSLASH, 0x72]
    else if u < 0x20 || IsHigh(u) || IsLow(u) then UnicodeEscape(u)
    else [u]
  }

  /** A surrogate pair stays as it is, a surrogate on its own is escaped. */
  function Escape(s: Text): Text {
    if s == [] then []
    else if |s| >= 2 && IsHigh(s[0]) && IsLow(s[1]) then s[..2] + Escape(s[2..])
    else EscapeUnit(s[0]) + Escape(s[1..])
  }

  function Quoted(s: Text): Text { [QUOTE] + Escape(s) + [QUOTE] }

  // ---------------------------------------------------------------- key order

  /** The order Array.prototype.sort gives strings: lexicographic on code units. */
  predicate Less(a: Text, b: Text) {
    if b == [] then false
    else if a == [] then true
    else if a[0] != b[0] then a[0] < b[0]
    else Less(a[1..], b[1..])
  }

  /** The texts agree before this place, where the first one ends or has the smaller unit. */
  predicate IsFirstDifference(a: Text, b: Text, i: nat) {
    && i <= |a| && i < |b| && a[..i] == b[..i] && (i == |a| || a[i] < b[i])
  }

  /** The order is the one of dictionaries. */
  lemma {:induction false} LessIsLexicographic(a: Text, b: Text)
    ensures Less(a, b) <==> exists i: nat :: IsFirstDifference(a, b, i)
  {
    if b != [] && a != [] && a[0] == b[0] {
      LessIsLexicographic(a[1..], b[1..]);
      assert !IsFirstDifference(a, b, 0);
      if Less(a, b) {
        var i: nat :| IsFirstDifference(a[1..], b[1..], i);
        DifferenceMoves(a, b, i);
        assert IsFirstDifference(a, b, i + 1);
      } else {
        forall i: nat ensures !IsFirstDifference(a, b, i) {
          if i > 0 {
            DifferenceMoves(a, b, i - 1);
          }
        }
      }
    } else if Less(a, b) {
      assert IsFirstDifference(a, b, 0);
    } else {
      forall i: nat ensures !IsFirstDifference(a, b, i) {
        assert i > 0 && i <= |a| && i < |b| ==> a[..i][0] == a[0] && b[..i][0] == b[0];
      }
    }
  }

  lemma DifferenceMoves(a: Text, b: Text, i: nat)
    requires a != [] && b != [] && a[0] == b[0]
    ensures IsFirstDifference(a, b, i + 1) <==> IsFirstDifference(a[1..], b[1..], i)
  {
    if i + 1 <= |a| && i + 1 < |b| {
      assert a[..i + 1] == [a[0]] + a[1..][..i] && b[..i + 1] == [b[0]] + b[1..][..i];
    }
  }

  lemma {:induction false} LessTotal(a: Text, b: Text)
    ensures a == b || Less(a, b) || Less(b, a)
    ensures !(Less(a, b) && Less(b, a)) && !Less(a, a)
  {
    if a != [] {
      LessTotal(a[1..], a[1..]);
      if b != [] && a[0] == b[0] {
        LessTotal(a[1..], b[1..]);
        assert a == [a[0]] + a[1..] && b == [b[0]] + b[1..];
      }
    }
  }

  lemma {:induction false} LessTransitive(a: Text, b: Text, c: Text)
    requires Less(a, b) && Less(b, c)
    ensures Less(a, c)
  {
    if a != [] && a[0] == b[0] == c[0] {
      LessTransitive(a[1..], b[1..], c[1..]);
    }
  }

  function InsertKey(k: Text, ks: seq<Text>): seq<Text> {
    if ks == [] then [k]
    else if Less(ks[0], k) then [ks[0]] + InsertKey(k, ks[1..])
    else [k] + ks
  }

  function SortKeys(ks: seq<Text>): seq<Text> {
    if ks == [] then [] else InsertKey(ks[0], SortKeys(ks[1..]))
  }

  function Keys(es: seq<Entry>): (ks: seq<Text>)
    ensures |ks| == |es| && forall i :: 0 <= i < |es| ==> ks[i] == es[i].key
  {
    seq(|es|, i requires 0 <= i < |es| => es[i].key)
  }

  function IndexOf(es: seq<Entry>, k: Text): (i: nat)
    ensures i <= |es|
    ensures i < |es| ==> es[i].key == k
    ensures forall j :: 0 <= j < i ==> es[j].key != k
  {
    if es == [] || es[0].key == k then 0 else 1 + IndexOf(es[1..], k)
  }

  // ---------------------------------------------------------------- canonicalJson

  /** packages/shared/src/index.ts, canonicalJson: keys sorted at each level, then each
      property looked up and printed. A foreign value has no JSON text. */
  function CanonicalJson(v: Json): Text
    decreases v, 0
  {
    match v
    case Null => NULL_TEXT
    case Bool(b) => if b then TRUE_TEXT else FALSE_TEXT
    case Number(token) => token
    case Str(s) => Quoted(s)
    case Arr(items) => [OPEN_BRACKET] + CanonicalItems(items) + [CLOSE_BRACKET]
    case Obj(es) => [OPEN_BRACE] + CanonicalFields(es, SortKeys(Keys(es))) + [CLOSE_BRACE]
    case Foreign => []
  }

  function CanonicalItems(items: seq<Json>): Text
    decreases items, 0
  {
    if items == [] then []
    else CanonicalJson(items[0]) + (if |items| == 1 then [] else [COMMA] + CanonicalItems(items[1..]))
  }

  function CanonicalFields(es: seq<Entry>, ks: seq<Text>): Text
    decreases es, |ks|
  {
    if ks == [] then []
    else
      var i := IndexOf(es, ks[0]);
      Quoted(ks[0]) + [COLON] + (if i < |es| then CanonicalJson(es[i].value) else [])
      + (if |ks| == 1 then [] else [COMMA] + CanonicalFields(es, ks[1..]))
  }

  // ---------------------------------------------------------------- JSON.stringify

  /** The printer that keeps the enumeration order; what the services put on the wire. */
  function Print(v: Json): Text
    decreases v, 0
  {
    match v
    case Null => NULL_TEXT
    case Bool(b) => if b then TRUE_TEXT else FALSE_TEXT
    case Number(token) => token
    case Str(s) => Quoted(s)
    case Arr(items) => [OPEN_BRACKET] + PrintItems(items) + [CLOSE_BRACKET]
    case Obj(es) => [OPEN_BRACE] + PrintEntries(es) + [CLOSE_BRACE]
    case Foreign => []
  }

  function PrintItems(items: seq<Json>): Text
    decreases items, 0
  {
    if items == [] then []
    else Print(items[0]) + (if |items| == 1 then [] else [COMMA] + PrintItems(items[1..]))
  }

  function PrintEntries(es: seq<Entry>): Text
    decreases es, 0
  {
    if es == [] then []
    else Quoted(es[0].key) + [COLON] + Print(es[0].value)
         + (if |es| == 1 then [] else [COMMA] + PrintEntries(es[1..]))
  }

  // ---------------------------------------------------------------- meaning up to key order

  /** What a JSON value denotes when the order of object keys is forgotten. */
  datatype Meaning =
    | MNull
    | MBool(flag: bool)
    | MNumber(token: Text)
    | MStr(chars: Text)
    | MArr(items: seq<Meaning>)
    | MObj(fields: map<Text, Meaning>)
    | MForeign

  function MeaningOf(v: Json): Meaning
    decreases v, 0
  {
    match v
    case Null => MNull
    case Bool(b) => MBool(b)
    case Number(token) => MNumber(token)
    case Str(s) => MStr(s)
    case Arr(items) => MArr(MeaningOfItems(items))
    case Obj(es) => MObj(MeaningOfEntries(es))
    case Foreign => MForeign
  }

  function MeaningOfItems(items: seq<Json>): (ms: seq<Meaning>)
    ensures |ms| == |items|
    decreases items, 0
  {
    if items == [] then [] else [MeaningOf(items[0])] + MeaningOfItems(items[1..])
  }

  function MeaningOfEntries(es: seq<Entry>): map<Text, Meaning>
    decreases es, 0
  {
    if es == [] then map[]
    else map[es[0].key := MeaningOf(es[0].value)] + MeaningOfEntries(es[1..])
  }

  ghost predicate SameUpToKeyOrder(a: Json, b: Json) { MeaningOf(a) == MeaningOf(b) }
}
