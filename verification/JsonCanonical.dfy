/** canonicalJson is unambiguous and blind to key order: two values print to the same text
    exactly when they mean the same once the order of object keys is forgotten. */
module JsonCanonical {
  import opened Json
  import opened JsonReader

  // ---------------------------------------------------------------- key-sorted values

  function KeySorted(v: Json): Json
    decreases v, 0
  {
    match v
    case Arr(items) => Arr(KeySortedItems(items))
    case Obj(es) => Obj(SortEntries(KeySortedEntries(es)))
    case _ => v
  }

  function KeySortedItems(items: seq<Json>): (r: seq<Json>)
    ensures |r| == |items|
    ensures forall i :: 0 <= i < |items| ==> r[i] == KeySorted(items[i])
    decreases items, 0
  {
    if items == [] then [] else [KeySorted(items[0])] + KeySortedItems(items[1..])
  }

  function KeySortedEntries(es: seq<Entry>): (r: seq<Entry>)
    ensures |r| == |es|
    ensures forall i :: 0 <= i < |es| ==> r[i] == Entry(es[i].key, KeySorted(es[i].value))
    decreases es, 0
  {
    if es == [] then [] else [Entry(es[0].key, KeySorted(es[0].value))] + KeySortedEntries(es[1..])
  }

  function InsertEntry(e: Entry, es: seq<Entry>): (r: seq<Entry>)
    ensures |r| == 1 + |es|
  {
    if es == [] then [e]
    else if Less(es[0].key, e.key) then [es[0]] + InsertEntry(e, es[1..])
    else [e] + es
  }

  function SortEntries(es: seq<Entry>): (r: seq<Entry>)
    ensures |r| == |es|
  {
    if es == [] then [] else InsertEntry(es[0], SortEntries(es[1..]))
  }

  ghost predicate Ascending(es: seq<Entry>) {
    forall i, j :: 0 <= i < j < |es| ==> Less(es[i].key, es[j].key)
  }

  /** Key order at every nesting. */
  ghost predicate InKeyOrder(v: Json) {
    match v
    case Arr(items) => forall i :: 0 <= i < |items| ==> InKeyOrder(items[i])
    case Obj(es) => Ascending(es) && forall i :: 0 <= i < |es| ==> InKeyOrder(es[i].value)
    case _ => true
  }

  // ---------------------------------------------------------------- insertion sort

  lemma {:induction false} InsertKeeps(e: Entry, es: seq<Entry>)
    ensures multiset(InsertEntry(e, es)) == multiset(es) + multiset{e}
  {
    if es != [] {
      assert es == [es[0]] + es[1..];
      if Less(es[0].key, e.key) {
        InsertKeeps(e, es[1..]);
      }
    }
  }

  lemma {:induction false} SortKeeps(es: seq<Entry>)
    ensures multiset(SortEntries(es)) == multiset(es)
  {
    if es != [] {
      SortKeeps(es[1..]);
      InsertKeeps(es[0], SortEntries(es[1..]));
      assert es == [es[0]] + es[1..];
    }
  }

  lemma SortedHas(es: seq<Entry>, i: nat) returns (j: nat)
    requires i < |es|
    ensures j < |es| && SortEntries(es)[j] == es[i]
  {
    SortKeeps(es);
    assert es[i] in multiset(SortEntries(es));
    j :| j < |es| && SortEntries(es)[j] == es[i];
  }

  lemma SortedFrom(es: seq<Entry>, j: nat) returns (i: nat)
    requires j < |es|
    ensures i < |es| && SortEntries(es)[j] == es[i]
  {
    SortKeeps(es);
    assert SortEntries(es)[j] in multiset(es);
    i :| i < |es| && SortEntries(es)[j] == es[i];
  }

  lemma {:induction false} InsertAscends(e: Entry, es: seq<Entry>)
    requires Ascending(es) && !HasKey(es, e.key)
    ensures Ascending(InsertEntry(e, es))
  {
    if es != [] {
      LessTotal(es[0].key, e.key);
      if Less(es[0].key, e.key) {
        InsertAscends(e, es[1..]);
        InsertKeeps(e, es[1..]);
        var r := InsertEntry(e, es[1..]);
        forall k | 0 <= k < |r| ensures Less(es[0].key, r[k].key) {
          assert r[k] in multiset(es[1..]) + multiset{e};
        }
      } else {
        forall k | 0 <= k < |es| ensures Less(e.key, es[k].key) {
          if k > 0 {
            LessTransitive(e.key, es[0].key, es[k].key);
          }
        }
      }
    }
  }

  lemma {:induction false} SortAscends(es: seq<Entry>)
    requires UniqueKeys(es)
    ensures Ascending(SortEntries(es))
  {
    if es != [] {
      SortAscends(es[1..]);
      forall j | 0 <= j < |es| - 1 ensures SortEntries(es[1..])[j].key != es[0].key {
        var i := SortedFrom(es[1..], j);
        assert es[1..][i] == es[i + 1];
      }
      InsertAscends(es[0], SortEntries(es[1..]));
    }
  }

  lemma {:induction false} InsertKeysMatch(e: Entry, es: seq<Entry>)
    ensures Keys(InsertEntry(e, es)) == InsertKey(e.key, Keys(es))
  {
    if es != [] {
      assert Keys(es)[1..] == Keys(es[1..]);
      if Less(es[0].key, e.key) {
        InsertKeysMatch(e, es[1..]);
      }
    }
  }

  lemma {:induction false} SortKeysMatch(es: seq<Entry>)
    ensures Keys(SortEntries(es)) == SortKeys(Keys(es))
  {
    if es != [] {
      assert Keys(es)[1..] == Keys(es[1..]);
      SortKeysMatch(es[1..]);
      InsertKeysMatch(es[0], SortEntries(es[1..]));
    }
  }

  // ---------------------------------------------------------------- canonicalJson prints the key-sorted value

  lemma {:induction false} KeySortedOrdered(v: Json)
    requires WellFormed(v)
    ensures WellFormed(KeySorted(v)) && InKeyOrder(KeySorted(v))
  {
    match v
    case Arr(items) =>
      forall i | 0 <= i < |items|
        ensures WellFormed(KeySorted(items[i])) && InKeyOrder(KeySorted(items[i]))
      {
        KeySortedOrdered(items[i]);
      }
    case Obj(es) =>
      var ks := KeySortedEntries(es);
      SortAscends(ks);
      AscendingUnique(SortEntries(ks));
      forall j | 0 <= j < |es|
        ensures WellFormed(SortEntries(ks)[j].value) && InKeyOrder(SortEntries(ks)[j].value)
      {
        var i := SortedFrom(ks, j);
        KeySortedOrdered(es[i].value);
      }
    case _ =>
  }

  lemma AscendingUnique(es: seq<Entry>)
    requires Ascending(es)
    ensures UniqueKeys(es)
  {
    forall i, j | 0 <= i < j < |es| ensures es[i].key != es[j].key {
      LessTotal(es[i].key, es[j].key);
    }
  }

  /** The source's printer agrees with printing the key-sorted value. */
  lemma {:induction false} CanonicalPrintsSorted(v: Json)
    requires WellFormed(v)
    ensures CanonicalJson(v) == Print(KeySorted(v))
    decreases v, 0
  {
    match v
    case Arr(items) => CanonicalItemsPrintSorted(items);
    case Obj(es) =>
      var ks := KeySortedEntries(es);
      SortKeysMatch(ks);
      assert Keys(ks) == Keys(es);
      forall j | 0 <= j < |es| ensures PicksFrom(es, SortEntries(ks)[j]) {
        var i := SortedFrom(ks, j);
        IndexOfUnique(es, i);
      }
      CanonicalFieldsPrintSorted(es, SortEntries(ks));
    case _ =>
  }

  lemma {:induction false} CanonicalItemsPrintSorted(items: seq<Json>)
    requires forall i :: 0 <= i < |items| ==> WellFormed(items[i])
    ensures CanonicalItems(items) == PrintItems(KeySortedItems(items))
    decreases items, 0
  {
    if items != [] {
      CanonicalPrintsSorted(items[0]);
      CanonicalItemsPrintSorted(items[1..]);
      assert KeySortedItems(items)[1..] == KeySortedItems(items[1..]);
    }
  }

  /** Entry `e` is the key-sorted form of the property that a lookup of its key finds. */
  ghost predicate PicksFrom(es: seq<Entry>, e: Entry) {
    var i := IndexOf(es, e.key);
    i < |es| && e.value == KeySorted(es[i].value)
  }

  lemma IndexOfUnique(es: seq<Entry>, i: nat)
    requires UniqueKeys(es) && i < |es|
    ensures IndexOf(es, es[i].key) == i
  {
  }

  lemma {:induction false} CanonicalFieldsPrintSorted(es: seq<Entry>, picked: seq<Entry>)
    requires forall i :: 0 <= i < |es| ==> WellFormed(es[i].value)
    requires forall j :: 0 <= j < |picked| ==> PicksFrom(es, picked[j])
    ensures CanonicalFields(es, Keys(picked)) == PrintEntries(picked)
    decreases es, |picked|
  {
    if picked != [] {
      var i := IndexOf(es, picked[0].key);
      assert PicksFrom(es, picked[0]);
      CanonicalPrintsSorted(es[i].value);
      assert Keys(picked)[1..] == Keys(picked[1..]);
      CanonicalFieldsPrintSorted(es, picked[1..]);
    }
  }

  // ---------------------------------------------------------------- meaning

  lemma TailLacksKey(es: seq<Entry>)
    requires es != [] && UniqueKeys(es)
    ensures !HasKey(es[1..], es[0].key) && UniqueKeys(es[1..])
  {
  }

  lemma HasKeySplit(es: seq<Entry>, k: Text)
    requires es != []
    ensures HasKey(es, k) <==> k == es[0].key || HasKey(es[1..], k)
  {
  }

  lemma {:induction false} MeaningKeys(es: seq<Entry>, k: Text)
    ensures k in MeaningOfEntries(es) <==> HasKey(es, k)
  {
    if es != [] {
      MeaningKeys(es[1..], k);
      HasKeySplit(es, k);
    }
  }

  lemma {:induction false} MeaningLookup(es: seq<Entry>, i: nat)
    requires UniqueKeys(es) && i < |es|
    ensures es[i].key in MeaningOfEntries(es) && MeaningOfEntries(es)[es[i].key] == MeaningOf(es[i].value)
  {
    TailLacksKey(es);
    MeaningKeys(es[1..], es[0].key);
    if i > 0 {
      MeaningLookup(es[1..], i - 1);
    }
  }

  lemma {:induction false} SortingKeepsMeaning(v: Json)
    requires WellFormed(v)
    ensures MeaningOf(KeySorted(v)) == MeaningOf(v)
    decreases v, 0
  {
    match v
    case Arr(items) => SortingItemsKeepsMeaning(items);
    case Obj(es) =>
      var ks := KeySortedEntries(es);
      var ss := SortEntries(ks);
      KeySortedOrdered(v);
      forall i | 0 <= i < |es| ensures MeaningOf(ks[i].value) == MeaningOf(es[i].value) {
        SortingKeepsMeaning(es[i].value);
      }
      SameFields(es, ks, ss);
    case _ =>
  }

  lemma SameFields(es: seq<Entry>, ks: seq<Entry>, ss: seq<Entry>)
    requires UniqueKeys(es) && |ks| == |es| && ss == SortEntries(ks) && UniqueKeys(ss)
    requires forall i :: 0 <= i < |es| ==>
               ks[i].key == es[i].key && MeaningOf(ks[i].value) == MeaningOf(es[i].value)
    ensures MeaningOfEntries(ss) == MeaningOfEntries(es)
  {
    var a, b := MeaningOfEntries(ss), MeaningOfEntries(es);
    forall k | k in b ensures k in a && a[k] == b[k] {
      MeaningKeys(es, k);
      var i :| 0 <= i < |es| && es[i].key == k;
      var j := SortedHas(ks, i);
      MeaningLookup(es, i);
      MeaningLookup(ss, j);
    }
    forall k | k in a ensures k in b {
      MeaningKeys(ss, k);
      var j :| 0 <= j < |ss| && ss[j].key == k;
      var i := SortedFrom(ks, j);
      MeaningLookup(es, i);
    }
  }

  lemma {:induction false} SortingItemsKeepsMeaning(items: seq<Json>)
    requires forall i :: 0 <= i < |items| ==> WellFormed(items[i])
    ensures MeaningOfItems(KeySortedItems(items)) == MeaningOfItems(items)
    decreases items, 0
  {
    if items != [] {
      SortingKeepsMeaning(items[0]);
      SortingItemsKeepsMeaning(items[1..]);
      assert KeySortedItems(items)[1..] == KeySortedItems(items[1..]);
    }
  }

  /** Between values in key order, meaning decides equality. */
  lemma {:induction false} MeaningDecides(a: Json, b: Json)
    requires InKeyOrder(a) && InKeyOrder(b) && MeaningOf(a) == MeaningOf(b)
    ensures a == b
    decreases a, 0
  {
    match a
    case Arr(items) => MeaningDecidesItems(items, b.items);
    case Obj(es) => MeaningDecidesEntries(es, b.entries);
    case _ =>
  }

  lemma {:induction false} MeaningDecidesItems(a: seq<Json>, b: seq<Json>)
    requires forall i :: 0 <= i < |a| ==> InKeyOrder(a[i])
    requires forall i :: 0 <= i < |b| ==> InKeyOrder(b[i])
    requires MeaningOfItems(a) == MeaningOfItems(b)
    ensures a == b
    decreases a, 0
  {
    assert |a| == |MeaningOfItems(a)| == |b|;
    if a != [] {
      var ma, mb := MeaningOfItems(a), MeaningOfItems(b);
      assert ma[0] == MeaningOf(a[0]) && mb[0] == MeaningOf(b[0]);
      assert ma[1..] == MeaningOfItems(a[1..]) && mb[1..] == MeaningOfItems(b[1..]);
      MeaningDecides(a[0], b[0]);
      MeaningDecidesItems(a[1..], b[1..]);
      assert a == [a[0]] + a[1..] && b == [b[0]] + b[1..];
    }
  }

  lemma SameFirstKey(a: seq<Entry>, b: seq<Entry>)
    requires a != [] && Ascending(a) && Ascending(b)
    requires MeaningOfEntries(a) == MeaningOfEntries(b)
    ensures b != [] && a[0].key == b[0].key
  {
    MeaningKeys(a, a[0].key);
    assert a[0].key == a[0].key && HasKey(a, a[0].key);
    MeaningKeys(b, a[0].key);
    var j :| 0 <= j < |b| && b[j].key == a[0].key;
    MeaningKeys(b, b[0].key);
    assert HasKey(b, b[0].key);
    MeaningKeys(a, b[0].key);
    var i :| 0 <= i < |a| && a[i].key == b[0].key;
    LessTotal(a[0].key, b[0].key);
  }

  lemma RemoveAdded(k: Text, m: Meaning, t: map<Text, Meaning>)
    requires k !in t
    ensures (map[k := m] + t) - {k} == t
  {
  }

  lemma TailMeaning(es: seq<Entry>)
    requires es != [] && Ascending(es)
    ensures MeaningOfEntries(es[1..]) == MeaningOfEntries(es) - {es[0].key}
    ensures es[0].key in MeaningOfEntries(es) && MeaningOfEntries(es)[es[0].key] == MeaningOf(es[0].value)
  {
    AscendingUnique(es);
    MeaningLookup(es, 0);
    TailLacksKey(es);
    MeaningKeys(es[1..], es[0].key);
    RemoveAdded(es[0].key, MeaningOf(es[0].value), MeaningOfEntries(es[1..]));
  }

  lemma {:induction false} MeaningDecidesEntries(a: seq<Entry>, b: seq<Entry>)
    requires Ascending(a) && Ascending(b)
    requires forall i :: 0 <= i < |a| ==> InKeyOrder(a[i].value)
    requires forall i :: 0 <= i < |b| ==> InKeyOrder(b[i].value)
    requires MeaningOfEntries(a) == MeaningOfEntries(b)
    ensures a == b
    decreases a, 0
  {
    if a == [] {
      if b != [] {
        SameFirstKey(b, a);
      }
    } else {
      SameFirstKey(a, b);
      TailMeaning(a);
      TailMeaning(b);
      MeaningDecides(a[0].value, b[0].value);
      MeaningDecidesEntries(a[1..], b[1..]);
      assert a == [a[0]] + a[1..] && b == [b[0]] + b[1..];
    }
  }

  // ---------------------------------------------------------------- the theorem

  /** Reading canonical text gives the key-sorted value back. */
  lemma ReadCanonical(v: Json)
    requires WellFormed(v)
    ensures ReadValue(CanonicalJson(v)) == Just(Read(KeySorted(v), []))
  {
    CanonicalPrintsSorted(v);
    KeySortedOrdered(v);
    ReadPrint(KeySorted(v), []);
    assert Print(KeySorted(v)) + [] == Print(KeySorted(v));
  }

  lemma CanonicalUnambiguous(a: Json, b: Json)
    requires WellFormed(a) && WellFormed(b)
    ensures CanonicalJson(a) == CanonicalJson(b) <==> SameUpToKeyOrder(a, b)
  {
    if CanonicalJson(a) == CanonicalJson(b) {
      ReadCanonical(a);
      ReadCanonical(b);
      SortingKeepsMeaning(a);
      SortingKeepsMeaning(b);
    }
    if SameUpToKeyOrder(a, b) {
      SortingKeepsMeaning(a);
      SortingKeepsMeaning(b);
      KeySortedOrdered(a);
      KeySortedOrdered(b);
      MeaningDecides(KeySorted(a), KeySorted(b));
      CanonicalPrintsSorted(a);
      CanonicalPrintsSorted(b);
    }
  }
}
