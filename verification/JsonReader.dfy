/** A reader for the text the printers write, and the proof that it gives the value back:
    printing loses nothing, so equal texts come from equal values. */
module JsonReader {
  import opened Json

  datatype Read<+T> = Read(value: T, rest: Text)

  // ---------------------------------------------------------------- strings

  function SimpleEscape(u: CodeUnit): Maybe<CodeUnit> {
    if u == QUOTE || u == BACKSLASH then Just(u)
    else if u == 0x62 then Just(0x08)
    else if u == 0x74 then Just(0x09)
    else if u == 0x6e then Just(0x0a)
    else if u == 0x66 then Just(0x0c)
    else if u == 0x72 then Just(0x0d)
    else Nothing
  }

  function ReadHex(t: Text): Maybe<nat> {
    if t == [] then Just(0)
    else match (ReadHex(t[..|t| - 1]), HexValue(t[|t| - 1]))
         case (Just(n), Just(d)) => Just(16 * n + d)
         case _ => Nothing
  }

  function Prepend(u: CodeUnit, r: Maybe<Read<Text>>): (p: Maybe<Read<Text>>) {
    match r
    case Nothing => Nothing
    case Just(Read(s, rest)) => Just(Read([u] + s, rest))
  }

  /** Reads up to and including the closing quote. */
  function ReadChars(t: Text): (r: Maybe<Read<Text>>)
    ensures r.Just? ==> |r.value.rest| < |t|
  {
    if t == [] then Nothing
    else if t[0] == QUOTE then Just(Read([], t[1..]))
    else if t[0] != BACKSLASH then Prepend(t[0], ReadChars(t[1..]))
    else if |t| < 2 then Nothing
    else if t[1] == 0x75 then
      if |t| < 6 then Nothing
      else match ReadHex(t[2..6])
           case Nothing => Nothing
           case Just(n) => if n < 0x1_0000 then Prepend(n as CodeUnit, ReadChars(t[6..])) else Nothing
    else match SimpleEscape(t[1])
         case Nothing => Nothing
         case Just(u) => Prepend(u, ReadChars(t[2..]))
  }

  lemma HexDigitRoundTrip(n: int)
    requires 0 <= n < 16
    ensures HexValue(HexDigit(n)) == Just(n)
  {
  }

  function Power16(k: nat): nat {
    if k == 0 then 1 else 16 * Power16(k - 1)
  }

  lemma {:induction false} ReadHexDigits(n: nat, k: nat)
    requires n < Power16(k)
    ensures ReadHex(HexDigits(n, k)) == Just(n)
  {
    if k > 0 {
      ReadHexDigits(n / 16, k - 1);
      HexDigitRoundTrip(n % 16);
      assert HexDigits(n, k)[..k - 1] == HexDigits(n / 16, k - 1);
    }
  }

  lemma ReadCharsOfUnicodeEscape(u: CodeUnit, t: Text)
    ensures ReadChars(UnicodeEscape(u) + t) == Prepend(u, ReadChars(t))
  {
    var e, h := UnicodeEscape(u) + t, HexDigits(u as nat, 4);
    ReadHexDigits(u as nat, 4);
    assert Power16(4) == 0x1_0000 by {
      assert Power16(1) == 16 && Power16(2) == 256 && Power16(3) == 4096;
    }
    assert e[2..6] == h && e[6..] == t;
  }

  lemma ReadCharsOfPair(u: CodeUnit, c: CodeUnit, t: Text)
    requires c != 0x75 && SimpleEscape(c) == Just(u)
    ensures ReadChars([BACKSLASH, c] + t) == Prepend(u, ReadChars(t))
  {
  }

  lemma EscapeUnitShape(u: CodeUnit) returns (c: CodeUnit)
    ensures || (EscapeUnit(u) == [u] && u != QUOTE && u != BACKSLASH)
            || EscapeUnit(u) == UnicodeEscape(u)
            || (EscapeUnit(u) == [BACKSLASH, c] && c != 0x75 && SimpleEscape(c) == Just(u))
  {
    c := if |EscapeUnit(u)| == 2 then EscapeUnit(u)[1] else 0;
  }

  lemma ReadCharsOfEscapeUnit(u: CodeUnit, t: Text)
    ensures ReadChars(EscapeUnit(u) + t) == Prepend(u, ReadChars(t))
  {
    var e := EscapeUnit(u);
    var c := EscapeUnitShape(u);
    if e == UnicodeEscape(u) {
      ReadCharsOfUnicodeEscape(u, t);
    } else if e == [u] && u != QUOTE && u != BACKSLASH {
      ReadCharsOfPlain(u, t);
    } else {
      ReadCharsOfPair(u, c, t);
    }
  }

  lemma ReadCharsOfPlain(u: CodeUnit, t: Text)
    requires u != QUOTE && u != BACKSLASH
    ensures ReadChars([u] + t) == Prepend(u, ReadChars(t))
  {
  }

  lemma SplitTwo(s: Text, e: Text)
    requires |s| >= 2
    ensures s[..2] + e == [s[0]] + ([s[1]] + e) && s == [s[0]] + ([s[1]] + s[2..])
  {
  }

  /** The first step of Escape: how much of `s` it takes, and what it writes for that. */
  lemma EscapeStep(s: Text)
    requires s != []
    ensures if |s| >= 2 && IsHigh(s[0]) && IsLow(s[1])
            then Escape(s) == [s[0]] + ([s[1]] + Escape(s[2..])) && s == [s[0]] + ([s[1]] + s[2..])
            else Escape(s) == EscapeUnit(s[0]) + Escape(s[1..]) && s == [s[0]] + s[1..]
  {
    if |s| >= 2 && IsHigh(s[0]) && IsLow(s[1]) {
      SplitTwo(s, Escape(s[2..]));
    } else {
      assert s == [s[0]] + s[1..];
    }
  }

  lemma {:induction false} ReadCharsOfEscape(s: Text, tail: Text)
    requires tail != [] && tail[0] == QUOTE
    ensures ReadChars(Escape(s) + tail) == Just(Read(s, tail[1..]))
  {
    if s == [] {
      assert Escape(s) + tail == tail;
    } else {
      EscapeStep(s);
      if |s| >= 2 && IsHigh(s[0]) && IsLow(s[1]) {
        ReadCharsOfEscape(s[2..], tail);
        ReadTwo(s[0], s[1], Escape(s[2..]), tail);
      } else {
        ReadCharsOfEscape(s[1..], tail);
        ReadCharsOfEscapeUnit(s[0], Escape(s[1..]) + tail);
        Assoc(EscapeUnit(s[0]), Escape(s[1..]), tail);
      }
    }
  }

  lemma ReadTwo(a: CodeUnit, b: CodeUnit, e: Text, tail: Text)
    requires IsHigh(a) && IsLow(b)
    ensures ReadChars([a] + ([b] + e) + tail) == Prepend(a, Prepend(b, ReadChars(e + tail)))
  {
    ReadCharsOfPlain(b, e + tail);
    ReadCharsOfPlain(a, [b] + (e + tail));
    assert [a] + ([b] + e) + tail == [a] + ([b] + (e + tail));
  }

  lemma Assoc(a: Text, b: Text, c: Text)
    ensures a + b + c == a + (b + c)
  {
  }

  // ---------------------------------------------------------------- values

  function NumberLength(t: Text): (n: nat)
    ensures n <= |t|
    ensures forall i :: 0 <= i < n ==> IsNumberUnit(t[i])
    ensures n < |t| ==> !IsNumberUnit(t[n])
  {
    if t == [] || !IsNumberUnit(t[0]) then 0 else 1 + NumberLength(t[1..])
  }

  function ReadScalar(t: Text): (r: Maybe<Read<Json>>)
    ensures r.Just? ==> |r.value.rest| < |t|
  {
    if NULL_TEXT <= t then Just(Read(Null, t[4..]))
    else if TRUE_TEXT <= t then Just(Read(Bool(true), t[4..]))
    else if FALSE_TEXT <= t then Just(Read(Bool(false), t[5..]))
    else if t != [] && (IsDigit(t[0]) || t[0] == 0x2d) then
      var n := NumberLength(t);
      assert IsNumberUnit(t[0]);
      Just(Read(Number(t[..n]), t[n..]))
    else Nothing
  }

  function AsStr(r: Maybe<Read<Text>>): Maybe<Read<Json>> {
    match r
    case Nothing => Nothing
    case Just(Read(s, rest)) => Just(Read(Str(s), rest))
  }

  function AsArr(r: Maybe<Read<seq<Json>>>): Maybe<Read<Json>> {
    match r
    case Nothing => Nothing
    case Just(Read(items, rest)) => Just(Read(Arr(items), rest))
  }

  function AsObj(r: Maybe<Read<seq<Entry>>>): Maybe<Read<Json>> {
    match r
    case Nothing => Nothing
    case Just(Read(es, rest)) => Just(Read(Obj(es), rest))
  }

  function Cons<T>(first: T, r: Maybe<Read<seq<T>>>): Maybe<Read<seq<T>>> {
    match r
    case Nothing => Nothing
    case Just(Read(others, rest)) => Just(Read([first] + others, rest))
  }

  function ReadValue(t: Text): (r: Maybe<Read<Json>>)
    ensures r.Just? ==> |r.value.rest| < |t|
    decreases |t|, 0
  {
    if t == [] then Nothing
    else if t[0] == QUOTE then AsStr(ReadChars(t[1..]))
    else if t[0] == OPEN_BRACKET then
      if |t| >= 2 && t[1] == CLOSE_BRACKET then Just(Read(Arr([]), t[2..])) else AsArr(ReadItems(t[1..]))
    else if t[0] == OPEN_BRACE then
      if |t| >= 2 && t[1] == CLOSE_BRACE then Just(Read(Obj([]), t[2..])) else AsObj(ReadEntries(t[1..]))
    else ReadScalar(t)
  }

  function ReadItems(t: Text): (r: Maybe<Read<seq<Json>>>)
    ensures r.Just? ==> |r.value.rest| < |t|
    decreases |t|, 2
  {
    match ReadValue(t)
    case Nothing => Nothing
    case Just(Read(v, after)) => MoreItems(v, after)
  }

  function MoreItems(v: Json, after: Text): (r: Maybe<Read<seq<Json>>>)
    ensures r.Just? ==> |r.value.rest| < |after|
    decreases |after|, 1
  {
    if after == [] then Nothing
    else if after[0] == CLOSE_BRACKET then Just(Read([v], after[1..]))
    else if after[0] != COMMA then Nothing
    else Cons(v, ReadItems(after[1..]))
  }

  function ReadEntries(t: Text): (r: Maybe<Read<seq<Entry>>>)
    ensures r.Just? ==> |r.value.rest| < |t|
    decreases |t|, 2
  {
    if t == [] || t[0] != QUOTE then Nothing
    else
      match ReadChars(t[1..])
      case Nothing => Nothing
      case Just(Read(k, afterKey)) => ReadProperty(k, afterKey)
  }

  function ReadProperty(k: Text, afterKey: Text): (r: Maybe<Read<seq<Entry>>>)
    ensures r.Just? ==> |r.value.rest| < |afterKey|
    decreases |afterKey|, 1
  {
    if afterKey == [] || afterKey[0] != COLON then Nothing
    else
      match ReadValue(afterKey[1..])
      case Nothing => Nothing
      case Just(Read(v, after)) => MoreEntries(Entry(k, v), after)
  }

  function MoreEntries(e: Entry, after: Text): (r: Maybe<Read<seq<Entry>>>)
    ensures r.Just? ==> |r.value.rest| < |after|
    decreases |after|, 1
  {
    if after == [] then Nothing
    else if after[0] == CLOSE_BRACE then Just(Read([e], after[1..]))
    else if after[0] != COMMA then Nothing
    else Cons(e, ReadEntries(after[1..]))
  }

  // ---------------------------------------------------------------- round trip

  predicate Ends(rest: Text) { rest == [] || !IsNumberUnit(rest[0]) }

  lemma NumberLengthOfToken(token: Text, rest: Text)
    requires IsNumberToken(token) && Ends(rest)
    ensures NumberLength(token + rest) == |token|
  {
    var t := token + rest;
    assert forall i :: 0 <= i < |token| ==> t[i] == token[i];
    assert rest != [] ==> t[|token|] == rest[0];
  }

  lemma ReadQuoted(s: Text, rest: Text)
    ensures (Quoted(s) + rest)[0] == QUOTE
    ensures ReadChars((Quoted(s) + rest)[1..]) == Just(Read(s, rest))
  {
    var tail := [QUOTE] + rest;
    ReadCharsOfEscape(s, tail);
    assert tail[1..] == rest;
    assert (Quoted(s) + rest)[1..] == Escape(s) + tail;
  }

  lemma PrintStart(v: Json)
    requires WellFormed(v)
    ensures Print(v) != [] && Print(v)[0] != CLOSE_BRACKET
  {
  }

  lemma ReadNumber(token: Text, rest: Text)
    requires IsNumberToken(token) && Ends(rest)
    ensures ReadValue(token + rest) == Just(Read(Number(token), rest))
  {
    var t := token + rest;
    NumberLengthOfToken(token, rest);
    assert t[0] == token[0];
    assert t[..|token|] == token && t[|token|..] == rest;
  }

  lemma ReadLiteral(v: Json, rest: Text)
    requires v.Null? || v.Bool?
    ensures ReadValue(Print(v) + rest) == Just(Read(v, rest))
  {
  }

  lemma ReadArr(items: seq<Json>, body: Text, rest: Text)
    requires body != [] && body[0] != CLOSE_BRACKET
    requires ReadItems(body + rest) == Just(Read(items, rest))
    ensures ReadValue([OPEN_BRACKET] + body + rest) == Just(Read(Arr(items), rest))
  {
    var t := [OPEN_BRACKET] + body + rest;
    DropOpening(OPEN_BRACKET, body, rest);
    assert t[1] == body[0];
  }

  lemma ReadObj(es: seq<Entry>, body: Text, rest: Text)
    requires body != [] && body[0] == QUOTE
    requires ReadEntries(body + rest) == Just(Read(es, rest))
    ensures ReadValue([OPEN_BRACE] + body + rest) == Just(Read(Obj(es), rest))
  {
    var t := [OPEN_BRACE] + body + rest;
    DropOpening(OPEN_BRACE, body, rest);
    assert t[1] == body[0];
  }

  lemma DropOpening(open: CodeUnit, body: Text, rest: Text)
    ensures ([open] + body + rest)[1..] == body + rest
  {
  }

  lemma ReadEmpty(v: Json, rest: Text)
    requires v == Arr([]) || v == Obj([])
    ensures ReadValue(Print(v) + rest) == Just(Read(v, rest))
  {
  }

  /** JSON.parse undoes JSON.stringify, for every value at every nesting. */
  lemma {:induction false} ReadPrint(v: Json, rest: Text)
    requires WellFormed(v) && Ends(rest)
    ensures ReadValue(Print(v) + rest) == Just(Read(v, rest))
    decreases v, 0
  {
    match v
    case Null => ReadLiteral(v, rest);
    case Bool(_) => ReadLiteral(v, rest);
    case Number(token) => ReadNumber(token, rest);
    case Str(s) => ReadQuoted(s, rest);
    case Arr(items) =>
      if items == [] {
        ReadEmpty(v, rest);
      } else {
        var body := PrintItems(items) + [CLOSE_BRACKET];
        ReadPrintItems(items, rest);
        PrintStart(items[0]);
        assert body[0] == Print(items[0])[0];
        ReadArr(items, body, rest);
        assert Print(v) == [OPEN_BRACKET] + body;
      }
    case Obj(es) =>
      if es == [] {
        ReadEmpty(v, rest);
      } else {
        var body := PrintEntries(es) + [CLOSE_BRACE];
        ReadPrintEntries(es, rest);
        assert body[0] == Quoted(es[0].key)[0];
        ReadObj(es, body, rest);
        assert Print(v) == [OPEN_BRACE] + body;
      }
  }

  lemma {:induction false} ReadPrintItems(items: seq<Json>, rest: Text)
    requires items != [] && forall i :: 0 <= i < |items| ==> WellFormed(items[i])
    ensures ReadItems(PrintItems(items) + [CLOSE_BRACKET] + rest) == Just(Read(items, rest))
    decreases items, 1
  {
    var others := items[1..];
    var more := if others == [] then [] else [COMMA] + PrintItems(others);
    var after := more + [CLOSE_BRACKET] + rest;
    ReadPrint(items[0], after);
    RegroupItem(Print(items[0]), more, rest);
    assert PrintItems(items) == Print(items[0]) + more;
    assert ReadItems(PrintItems(items) + [CLOSE_BRACKET] + rest) == MoreItems(items[0], after);
    if others == [] {
      DropHead(CLOSE_BRACKET, rest);
      assert items == [items[0]];
    } else {
      ReadPrintItems(others, rest);
      DropHead(COMMA, PrintItems(others) + [CLOSE_BRACKET] + rest);
      RegroupMore(PrintItems(others), CLOSE_BRACKET, rest);
      assert items == [items[0]] + others;
    }
  }

  lemma RegroupItem(p: Text, more: Text, rest: Text)
    ensures p + more + [CLOSE_BRACKET] + rest == p + (more + [CLOSE_BRACKET] + rest)
  {
  }

  lemma RegroupMore(t: Text, close: CodeUnit, rest: Text)
    ensures [COMMA] + t + [close] + rest == [COMMA] + (t + [close] + rest)
  {
  }

  lemma DropHead(u: CodeUnit, t: Text)
    ensures ([u] + t)[1..] == t && [] + [u] + t == [u] + t
  {
  }

  lemma ReadOneEntry(k: Text, v: Json, after: Text)
    requires ReadValue(Print(v) + after) == Just(Read(v, after))
    ensures ReadEntries(Quoted(k) + ([COLON] + (Print(v) + after))) == MoreEntries(Entry(k, v), after)
  {
    var afterKey := [COLON] + (Print(v) + after);
    ReadQuoted(k, afterKey);
    assert afterKey[1..] == Print(v) + after;
  }

  lemma {:induction false} ReadPrintEntries(es: seq<Entry>, rest: Text)
    requires es != [] && forall i :: 0 <= i < |es| ==> WellFormed(es[i].value)
    ensures ReadEntries(PrintEntries(es) + [CLOSE_BRACE] + rest) == Just(Read(es, rest))
    decreases es, 1
  {
    var others := es[1..];
    var more := if others == [] then [] else [COMMA] + PrintEntries(others);
    ReadPrint(es[0].value, more + [CLOSE_BRACE] + rest);
    ReadFirstEntry(es[0], more, rest);
    assert PrintEntries(es) == Quoted(es[0].key) + [COLON] + Print(es[0].value) + more;
    if others == [] {
      DropHead(CLOSE_BRACE, rest);
      assert es == [es[0]];
    } else {
      ReadPrintEntries(others, rest);
      DropHead(COMMA, PrintEntries(others) + [CLOSE_BRACE] + rest);
      RegroupMore(PrintEntries(others), CLOSE_BRACE, rest);
      assert es == [es[0]] + others;
    }
  }

  lemma ReadFirstEntry(e: Entry, more: Text, rest: Text)
    requires var after := more + [CLOSE_BRACE] + rest;
             ReadValue(Print(e.value) + after) == Just(Read(e.value, after))
    ensures ReadEntries(Quoted(e.key) + [COLON] + Print(e.value) + more + [CLOSE_BRACE] + rest)
         == MoreEntries(e, more + [CLOSE_BRACE] + rest)
  {
    ReadOneEntry(e.key, e.value, more + [CLOSE_BRACE] + rest);
    RegroupEntry(Quoted(e.key), Print(e.value), more, rest);
  }

  lemma RegroupEntry(q: Text, p: Text, more: Text, rest: Text)
    ensures q + [COLON] + p + more + [CLOSE_BRACE] + rest
         == q + ([COLON] + (p + (more + [CLOSE_BRACE] + rest)))
  {
  }
}
