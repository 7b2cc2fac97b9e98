/** The fingerprint hashes the UTF-8 bytes of the canonical text. UTF-8 encoding replaces a
    surrogate that has no partner, so it is only faithful on text without such surrogates;
    the printers never produce one, whatever the strings inside the value are. */
module JsonEncoding {
  import opened Json
  import opened Utf8
  import opened JsonReader
  import opened JsonCanonical

  lemma {:induction false} PairedAppend(a: Text, b: Text)
    requires Paired(a) && Paired(b)
    ensures Paired(a + b)
  {
    if a == [] {
      assert a + b == b;
    } else if IsHigh(a[0]) {
      PairedAppend(a[2..], b);
      assert (a + b)[2..] == a[2..] + b;
    } else {
      PairedAppend(a[1..], b);
      assert (a + b)[1..] == a[1..] + b;
    }
  }

  lemma {:induction false} PairedPlain(t: Text)
    requires forall i :: 0 <= i < |t| ==> t[i] < 0xd800
    ensures Paired(t)
  {
    if t != [] {
      PairedPlain(t[1..]);
    }
  }

  lemma {:induction false} HexDigitsPlain(n: nat, k: nat)
    ensures forall i :: 0 <= i < k ==> HexDigits(n, k)[i] < 0xd800
  {
    if k > 0 {
      HexDigitsPlain(n / 16, k - 1);
    }
  }

  lemma EscapeUnitPaired(u: CodeUnit)
    ensures Paired(EscapeUnit(u))
  {
    var c := EscapeUnitShape(u);
    if EscapeUnit(u) == UnicodeEscape(u) {
      HexDigitsPlain(u as nat, 4);
      PairedPlain(UnicodeEscape(u));
    } else if |EscapeUnit(u)| == 2 {
      assert EscapeUnit(u) == [EscapeUnit(u)[0], EscapeUnit(u)[1]];
      PairedPlain(EscapeUnit(u));
    } else {
      assert Paired([]) && [u][1..] == [];
      assert !IsHigh(u) && !IsLow(u);
    }
  }

  lemma {:induction false} EscapePaired(s: Text)
    ensures Paired(Escape(s))
  {
    if s != [] {
      EscapeStep(s);
      if |s| >= 2 && IsHigh(s[0]) && IsLow(s[1]) {
        EscapePaired(s[2..]);
        var e := Escape(s);
        assert e[2..] == Escape(s[2..]);
      } else {
        EscapePaired(s[1..]);
        EscapeUnitPaired(s[0]);
        PairedAppend(EscapeUnit(s[0]), Escape(s[1..]));
      }
    }
  }

  lemma QuotedPaired(s: Text)
    ensures Paired(Quoted(s))
  {
    EscapePaired(s);
    PairedPlain([QUOTE]);
    PairedAppend([QUOTE], Escape(s));
    PairedAppend([QUOTE] + Escape(s), [QUOTE]);
  }

  lemma Around(open: CodeUnit, t: Text, close: CodeUnit)
    requires open < 0xd800 && close < 0xd800 && Paired(t)
    ensures Paired([open] + t + [close])
  {
    PairedPlain([open]);
    PairedPlain([close]);
    PairedAppend([open], t);
    PairedAppend([open] + t, [close]);
  }

  lemma {:induction false} PrintPaired(v: Json)
    requires WellFormed(v)
    ensures Paired(Print(v))
    decreases v, 0
  {
    match v
    case Number(token) => PairedPlain(token);
    case Str(s) => QuotedPaired(s);
    case Arr(items) =>
      PrintItemsPaired(items);
      Around(OPEN_BRACKET, PrintItems(items), CLOSE_BRACKET);
    case Obj(es) =>
      PrintEntriesPaired(es);
      Around(OPEN_BRACE, PrintEntries(es), CLOSE_BRACE);
    case _ => PairedPlain(Print(v));
  }

  lemma AfterComma(t: Text)
    requires Paired(t)
    ensures Paired([COMMA] + t)
  {
  }

  lemma {:induction false} PrintItemsPaired(items: seq<Json>)
    requires forall i :: 0 <= i < |items| ==> WellFormed(items[i])
    ensures Paired(PrintItems(items))
    decreases items, 0
  {
    if items != [] {
      PrintPaired(items[0]);
      PrintItemsPaired(items[1..]);
      AfterComma(PrintItems(items[1..]));
      PairedAppend(Print(items[0]), if |items| == 1 then [] else [COMMA] + PrintItems(items[1..]));
    }
  }

  lemma {:induction false} PrintEntriesPaired(es: seq<Entry>)
    requires forall i :: 0 <= i < |es| ==> WellFormed(es[i].value)
    ensures Paired(PrintEntries(es))
    decreases es, 0
  {
    if es != [] {
      var q, p := Quoted(es[0].key), Print(es[0].value);
      QuotedPaired(es[0].key);
      PrintPaired(es[0].value);
      PrintEntriesPaired(es[1..]);
      AfterComma(PrintEntries(es[1..]));
      PairedPlain([COLON]);
      PairedAppend(q, [COLON]);
      PairedAppend(q + [COLON], p);
      PairedAppend(q + [COLON] + p, if |es| == 1 then [] else [COMMA] + PrintEntries(es[1..]));
    }
  }

  lemma CanonicalPaired(v: Json)
    requires WellFormed(v)
    ensures Paired(CanonicalJson(v))
  {
    CanonicalPrintsSorted(v);
    KeySortedOrdered(v);
    PrintPaired(KeySorted(v));
  }
}
