/** Copying and digests: a bounded copy turns tuples into lists, which no digest can see. */
module CopiedRecords {
  import opened Prelude
  import opened PyStrings
  import opened PyValues
  import opened CanonicalRecord
  import opened Readback
  import opened RecordText
  import opened BoundedCopy

  lemma {:induction false} ListedCanonicalises(v: Value)
    ensures Canonicalise(Listed(v)) == Canonicalise(v)
    decreases v, 0
  {
    match v
    case Leaf(_) =>
    case Dict(items) => ListedItemsCanonicalise(items);
    case List(_, elems) => ListedElemsCanonicalise(elems);
  }

  lemma {:induction false} ListedItemsCanonicalise(items: seq<Item>)
    ensures CanonicaliseEach(ListedItems(items)) == CanonicaliseEach(items)
    decreases items, 1
  {
    if items != [] {
      assert items[0].value < items[0];
      ListedCanonicalises(items[0].value);
      ListedItemsCanonicalise(items[1..]);
    }
  }

  lemma {:induction false} ListedElemsCanonicalise(elems: seq<Value>)
    ensures CanonicaliseElems(ListedElems(elems)) == CanonicaliseElems(elems)
    decreases elems, 1
  {
    if elems != [] {
      ListedCanonicalises(elems[0]);
      ListedElemsCanonicalise(elems[1..]);
    }
  }

  /** Records whose members have the same canonical form have the same canonical form. */
  lemma RecordCongruence(f: seq<(string, Value)>, g: seq<(string, Value)>)
    requires SameNames(f, g) && forall i :: 0 <= i < |f| ==> Canonicalise(f[i].1) == Canonicalise(g[i].1)
    ensures Canonicalise(Record(f)) == Canonicalise(Record(g))
  {
    var s, t := Record(f).items, Record(g).items;
    forall i | 0 <= i < |s| ensures CanonicaliseEach(s)[i] == CanonicaliseEach(t)[i] {
      CanonicaliseEachAt(s, i);
      CanonicaliseEachAt(t, i);
      assert s[i].value == f[i].1 && t[i].value == g[i].1;
    }
    assert CanonicaliseEach(s) == CanonicaliseEach(t);
  }

  lemma SameCanonicalSameDigest(h: Hash, recordType: string, v: Value, w: Value)
    requires Canonicalise(v) == Canonicalise(w)
    ensures RecordDigest(h, recordType, "v1", v) == RecordDigest(h, recordType, "v1", w)
  {
    hide Canonicalise, Strip, Print, HasPrefix;
  }

  lemma {:induction false} ListedUnsplit(v: Value)
    requires Unsplit(v)
    ensures Unsplit(Listed(v))
    decreases v, 0
  {
    match v
    case Leaf(_) =>
    case Dict(items) => ListedItemsUnsplit(items);
    case List(_, elems) => ListedElemsUnsplit(elems);
  }

  lemma {:induction false} ListedItemsUnsplit(items: seq<Item>)
    requires Unsplit(Dict(items))
    ensures Unsplit(Dict(ListedItems(items)))
    decreases items, 1
  {
    if items != [] {
      assert items[0].value < items[0];
      ListedUnsplit(items[0].value);
      ListedItemsUnsplit(items[1..]);
    }
  }

  lemma {:induction false} ListedElemsUnsplit(elems: seq<Value>)
    requires Unsplit(List(false, elems))
    ensures Unsplit(List(false, ListedElems(elems)))
    decreases elems, 1
  {
    if elems != [] {
      ListedUnsplit(elems[0]);
      ListedElemsUnsplit(elems[1..]);
    }
  }
}
