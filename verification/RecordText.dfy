/** `canonical_govengine_record` and `govengine_record_digest` (`govengine/signing.py`). */
module RecordText {
  import opened Prelude
  import opened PyStrings
  import opened PyValues
  import opened CanonicalRecord
  import opened Readback

  lemma {:induction false} CanonicaliseEachAt(items: seq<Item>, k: nat)
    requires k < |items|
    ensures CanonicaliseEach(items)[k].value == Canonicalise(items[k].value)
  {
    if k > 0 {
      CanonicaliseEachAt(items[1..], k - 1);
    }
  }

  lemma {:induction false} CollectAt(s: seq<Entry<Result<Value, Reason>>>, k: nat)
    requires Collect(s).Ok? && k < |s|
    ensures s[k].value.Ok? && Collect(s).value[k] == Entry(s[k].key, s[k].value.value)
  {
    if k > 0 {
      CollectAt(s[1..], k - 1);
    }
  }

  lemma {:induction false} CanonicaliseElemsAt(elems: seq<Value>, k: nat)
    requires CanonicaliseElems(elems).Ok? && k < |elems|
    ensures Canonicalise(elems[k]) == Ok(CanonicaliseElems(elems).value[k])
  {
    if k > 0 {
      CanonicaliseElemsAt(elems[1..], k - 1);
    }
  }

  /** Every member of an accepted dictionary was accepted, and every canonical member comes from one. */
  lemma CanonicalMembers(items: seq<Item>, canonical: seq<Item>)
    requires Canonicalise(Dict(items)) == Ok(Dict(canonical))
    ensures |canonical| == |items|
    ensures forall i :: 0 <= i < |items| ==> items[i].key.TextKey? && Canonicalise(items[i].value).Ok?
    ensures forall k :: 0 <= k < |canonical| ==>
              exists i :: 0 <= i < |items| && items[i].key == canonical[k].key
                          && Canonicalise(items[i].value) == Ok(canonical[k].value)
  {
    var each := CanonicaliseEach(items);
    var sorted := SortEntries(each);
    forall i | 0 <= i < |items| ensures Canonicalise(items[i].value).Ok? {
      SortElement(each, i);
      var j :| 0 <= j < |sorted| && sorted[j] == each[i];
      CollectAt(sorted, j);
      CanonicaliseEachAt(items, i);
    }
    forall k | 0 <= k < |canonical|
      ensures exists i :: 0 <= i < |items| && items[i].key == canonical[k].key
                          && Canonicalise(items[i].value) == Ok(canonical[k].value)
    {
      CollectAt(sorted, k);
      SortElement(each, k);
      var i :| 0 <= i < |each| && each[i] == sorted[k];
      CanonicaliseEachAt(items, i);
    }
  }

  lemma {:induction false} CanonicalIsReadable(v: Value, c: Value)
    requires Canonicalise(v) == Ok(c)
    ensures Printable(c) && NoTuples(c)
    ensures Unsplit(v) ==> Unsplit(c)
  {
    match v
    case Leaf(_) =>
    case Dict(items) =>
      CanonicalMembers(items, c.items);
      forall k | 0 <= k < |c.items|
        ensures c.items[k].key.TextKey? && Printable(c.items[k].value) && NoTuples(c.items[k].value)
        ensures Unsplit(v) ==> NoSplitPair(ShowKey(c.items[k].key)) && Unsplit(c.items[k].value)
      {
        var i :| 0 <= i < |items| && items[i].key == c.items[k].key
                 && Canonicalise(items[i].value) == Ok(c.items[k].value);
        assert items[i].value < items[i];
        CanonicalIsReadable(items[i].value, c.items[k].value);
      }
    case List(_, elems) =>
      forall k | 0 <= k < |elems|
        ensures Printable(c.elems[k]) && NoTuples(c.elems[k]) && (Unsplit(v) ==> Unsplit(c.elems[k]))
      {
        CanonicaliseElemsAt(elems, k);
        CanonicalIsReadable(elems[k], c.elems[k]);
      }
  }

  function DenoteResult(r: Result<Value, Reason>): Json {
    match r
    case Ok(c) => Denote(c)
    case Err(_) => JLeaf(NoneValue)
  }

  /** Canonicalising neither adds nor loses information, up to key order and tuple/list. */
  lemma {:induction false} CanonicalDenotes(v: Value, c: Value)
    requires Canonicalise(v) == Ok(c)
    ensures Denote(c) == Denote(v)
  {
    match v
    case Leaf(_) =>
    case Dict(items) =>
      var each := CanonicaliseEach(items);
      CanonicalMembers(items, c.items);
      forall i | 0 <= i < |items|
        ensures DenoteEach(items)[i] == MapEntries(DenoteResult, each)[i]
      {
        assert items[i].value < items[i];
        CanonicaliseEachAt(items, i);
        DenoteEachAt(items, i);
        CanonicalDenotes(items[i].value, Canonicalise(items[i].value).value);
      }
      assert DenoteEach(items) == MapEntries(DenoteResult, each);
      forall k | 0 <= k < |c.items|
        ensures DenoteEach(c.items)[k] == MapEntries(DenoteResult, SortEntries(each))[k]
      {
        CollectAt(SortEntries(each), k);
        DenoteEachAt(c.items, k);
      }
      assert DenoteEach(c.items) == MapEntries(DenoteResult, SortEntries(each));
      SortNatural(DenoteResult, each);
      SortMembers(DenoteEach(items));
    case List(_, elems) =>
      forall k | 0 <= k < |elems| ensures DenoteElems(c.elems)[k] == DenoteElems(elems)[k] {
        CanonicaliseElemsAt(elems, k);
        DenoteElemsAt(elems, k);
        DenoteElemsAt(c.elems, k);
        CanonicalDenotes(elems[k], c.elems[k]);
      }
  }

  lemma FillsAgree<T>(a: seq<Entry<T>>, b: seq<Entry<T>>)
    requires DistinctKeys(a) && DistinctKeys(b)
    requires Fill(a).Keys == Fill(b).Keys
    requires forall i, j :: 0 <= i < |a| && 0 <= j < |b| && a[i].key == b[j].key ==> a[i].value == b[j].value
    ensures Fill(a) == Fill(b)
  {
    forall k: Key | k in Fill(a).Keys ensures Fill(a)[k] == Fill(b)[k] {
      assert k in Fill(b).Keys;
      FillDomain(a, k);
      FillDomain(b, k);
      var i :| 0 <= i < |a| && a[i].key == k;
      var j :| 0 <= j < |b| && b[j].key == k;
      FillAt(a, i);
      FillAt(b, j);
    }
  }

  /** Members under the same key have the same meaning. */
  lemma SameMeaning(s: seq<Item>, t: seq<Item>, i: nat, j: nat)
    requires DistinctKeys(s) && DistinctKeys(t)
    requires Fill(DenoteEach(s)) == Fill(DenoteEach(t))
    requires i < |s| && j < |t| && s[i].key == t[j].key
    ensures Denote(s[i].value) == Denote(t[j].value)
  {
    FillAt(DenoteEach(s), i);
    FillAt(DenoteEach(t), j);
    DenoteEachAt(s, i);
    DenoteEachAt(t, j);
  }

  lemma SameDomain(s: seq<Item>, k: Key)
    ensures k in Fill(CanonicaliseEach(s)) <==> k in Fill(DenoteEach(s))
  {
    var a, d := CanonicaliseEach(s), DenoteEach(s);
    FillDomain(a, k);
    FillDomain(d, k);
    if i :| 0 <= i < |s| && s[i].key == k {
      assert a[i].key == k && d[i].key == k;
    }
    if k in Fill(a) {
      var i :| 0 <= i < |a| && a[i].key == k;
      assert d[i].key == k;
    }
    if k in Fill(d) {
      var i :| 0 <= i < |d| && d[i].key == k;
      assert a[i].key == k;
    }
  }

  lemma SameKeyKinds(s: seq<Item>, t: seq<Item>)
    requires Fill(DenoteEach(s)) == Fill(DenoteEach(t)) && AllTextKeys(s)
    ensures AllTextKeys(t)
  {
    forall j | 0 <= j < |t| ensures t[j].key.TextKey? {
      assert DenoteEach(t)[j].key == t[j].key;
      FillDomain(DenoteEach(t), t[j].key);
      FillDomain(DenoteEach(s), t[j].key);
    }
  }

  /** Key order and the tuple/list distinction cannot be seen in the canonical form. */
  lemma {:induction false} CanonicalOrderFree(v: Value, w: Value)
    requires WellFormed(v) && WellFormed(w) && Denote(v) == Denote(w)
    ensures Canonicalise(v) == Canonicalise(w)
    decreases v, 1
  {
    match (v, w)
    case (Leaf(_), Leaf(_)) =>
    case (Dict(s), Dict(t)) => CanonicalDictOrderFree(s, t);
    case (List(_, s), List(_, t)) => CanonicalElemsOrderFree(s, t);
  }

  lemma {:induction false} CanonicalDictOrderFree(s: seq<Item>, t: seq<Item>)
    requires WellFormed(Dict(s)) && WellFormed(Dict(t)) && Fill(DenoteEach(s)) == Fill(DenoteEach(t))
    ensures Canonicalise(Dict(s)) == Canonicalise(Dict(t))
    decreases s, 1
  {
    var a, b := CanonicaliseEach(s), CanonicaliseEach(t);
    forall i, j | 0 <= i < |a| && 0 <= j < |b| && a[i].key == b[j].key ensures a[i].value == b[j].value {
      SameMeaning(s, t, i, j);
      assert s[i].value < s[i];
      CanonicalOrderFree(s[i].value, t[j].value);
      CanonicaliseEachAt(s, i);
      CanonicaliseEachAt(t, j);
    }
    forall k: Key ensures k in Fill(a).Keys <==> k in Fill(b).Keys {
      SameDomain(s, k);
      SameDomain(t, k);
    }
    FillsAgree(a, b);
    if AllTextKeys(s) {
      SameKeyKinds(s, t);
      SortedAlike(a, b);
    } else if AllTextKeys(t) {
      SameKeyKinds(t, s);
    }
  }

  lemma SortedAlike<T>(a: seq<Entry<T>>, b: seq<Entry<T>>)
    requires DistinctKeys(a) && DistinctKeys(b) && AllTextKeys(a) && AllTextKeys(b)
    requires Fill(a) == Fill(b)
    ensures SortEntries(a) == SortEntries(b)
  {
    SortSorts(a);
    SortSorts(b);
    SortMembers(a);
    SortMembers(b);
    SortedUnique(SortEntries(a), SortEntries(b));
  }

  lemma {:induction false} CanonicalElemsOrderFree(s: seq<Value>, t: seq<Value>)
    requires WellFormed(List(false, s)) && WellFormed(List(false, t)) && DenoteElems(s) == DenoteElems(t)
    ensures CanonicaliseElems(s) == CanonicaliseElems(t)
    decreases s, 1
  {
    assert |DenoteElems(s)| == |s| && |DenoteElems(t)| == |t|;
    if s != [] {
      assert DenoteElems(s)[0] == DenoteElems(t)[0];
      assert DenoteElems(s)[1..] == DenoteElems(s[1..]) && DenoteElems(t)[1..] == DenoteElems(t[1..]);
      CanonicalOrderFree(s[0], t[0]);
      CanonicalElemsOrderFree(s[1..], t[1..]);
    }
  }

  // ------------------------------------------------------------- json.dumps

  /** Every dictionary lists its members in sorted key order, so sorting them again while
      printing changes nothing. */
  ghost predicate SortedThroughout(v: Value) {
    match v
    case Leaf(_) => true
    case Dict(items) =>
      && StrictlySorted(items)
      && SortEntries(items) == items
      && forall i :: 0 <= i < |items| ==> SortedThroughout(items[i].value)
    case List(_, elems) => forall i :: 0 <= i < |elems| ==> SortedThroughout(elems[i])
  }

  lemma SortOfSorted<T>(s: seq<Entry<T>>)
    requires StrictlySorted(s) && AllTextKeys(s)
    ensures SortEntries(s) == s
  {
    StrictlySortedDistinct(s);
    SortSorts(s);
    SortMembers(s);
    SortedUnique(SortEntries(s), s);
  }

  lemma {:induction false} SortKeysIsNoOp(v: Value, c: Value)
    requires WellFormed(v) && Canonicalise(v) == Ok(c)
    ensures SortedThroughout(c)
  {
    match v
    case Leaf(_) =>
    case Dict(items) =>
      var each := CanonicaliseEach(items);
      CanonicalMembers(items, c.items);
      SortSorts(each);
      forall k | 0 <= k < |c.items|
        ensures c.items[k].key == SortEntries(each)[k].key && c.items[k].key.TextKey?
        ensures SortedThroughout(c.items[k].value)
      {
        CollectAt(SortEntries(each), k);
        var i :| 0 <= i < |items| && items[i].key == c.items[k].key
                 && Canonicalise(items[i].value) == Ok(c.items[k].value);
        assert items[i].value < items[i];
        SortKeysIsNoOp(items[i].value, c.items[k].value);
      }
      SortOfSorted(c.items);
    case List(_, elems) =>
      forall k | 0 <= k < |elems| ensures SortedThroughout(c.elems[k]) {
        CanonicaliseElemsAt(elems, k);
        SortKeysIsNoOp(elems[k], c.elems[k]);
      }
  }

  // --------------------------------------------------------- record envelope

  datatype RecordError = BadValue(reason: Reason) | MissingRecordType | InvalidRecordType

  function S(text: string): Value {
    Leaf(Text(U(text)))
  }

  function N(i: int): Value {
    Leaf(Int(i))
  }

  function Flag(b: bool): Value {
    Leaf(Bool(b))
  }

  function Texts(ts: seq<string>): Value {
    List(false, seq(|ts|, i requires 0 <= i < |ts| => S(ts[i])))
  }

  /** `str(schema_version or "v1")`. */
  function Version(schemaVersion: string): string {
    if schemaVersion == "" then "v1" else schemaVersion
  }

  /** The envelope, with its four members already in sorted order. */
  function Envelope(recordType: string, schemaVersion: string, canonical: Value): Value {
    Dict([Entry(TextKey(U("owner")), S("govengine")),
          Entry(TextKey(U("record")), canonical),
          Entry(TextKey(U("record_type")), S(recordType)),
          Entry(TextKey(U("schema_version")), S(schemaVersion))])
  }

  function CanonicalText(recordType: string, schemaVersion: string, record: Value): Result<string, RecordError> {
    var resolved := Strip(recordType);
    :- Need(resolved != "", MissingRecordType);
    :- Need(HasPrefix(resolved, "govengine."), InvalidRecordType);
    match Canonicalise(record)
    case Err(reason) => Err(BadValue(reason))
    case Ok(canonical) =>
      CanonicalIsReadable(record, canonical);
      Ok(Print(Envelope(resolved, Version(schemaVersion), canonical)))
  }

  lemma ScalarTextUnsplit(s: string)
    ensures NoSplitPair(U(s))
  {
  }

  lemma EnvelopeReadable(recordType: string, schemaVersion: string, canonical: Value)
    requires Readable(canonical)
    ensures Readable(Envelope(recordType, schemaVersion, canonical))
  {
    ScalarTextUnsplit(recordType);
    ScalarTextUnsplit(schemaVersion);
    ScalarTextUnsplit("govengine");
    ScalarTextUnsplit("owner");
    ScalarTextUnsplit("record");
    ScalarTextUnsplit("record_type");
    ScalarTextUnsplit("schema_version");
  }

  /** Equal canonical texts come from equal types, equal versions and equal canonical records. */
  lemma TextBindsCanonicalForm(t1: string, v1: string, r1: Value, t2: string, v2: string, r2: Value)
    requires Unsplit(r1) && Unsplit(r2)
    requires CanonicalText(t1, v1, r1).Ok? && CanonicalText(t1, v1, r1) == CanonicalText(t2, v2, r2)
    ensures Strip(t1) == Strip(t2) && Version(v1) == Version(v2)
    ensures Canonicalise(r1).Ok? && Canonicalise(r1) == Canonicalise(r2)
  {
    var c1, c2 := Canonicalise(r1).value, Canonicalise(r2).value;
    CanonicalIsReadable(r1, c1);
    CanonicalIsReadable(r2, c2);
    var e1, e2 := Envelope(Strip(t1), Version(v1), c1), Envelope(Strip(t2), Version(v2), c2);
    EnvelopeReadable(Strip(t1), Version(v1), c1);
    EnvelopeReadable(Strip(t2), Version(v2), c2);
    PrintInjective(e1, e2);
    assert e1.items[1].value == e2.items[1].value;
    assert e1.items[2].value == e2.items[2].value;
    assert e1.items[3].value == e2.items[3].value;
    UInjective(Strip(t1), Strip(t2));
    UInjective(Version(v1), Version(v2));
  }

  /** The canonical text is unambiguous and order-free: two accepted triples print alike exactly
      when type and version agree and the records agree up to key order and tuple/list. */
  lemma SameTextIffSameRecord(t1: string, v1: string, r1: Value, t2: string, v2: string, r2: Value)
    requires WellFormed(r1) && WellFormed(r2) && Unsplit(r1) && Unsplit(r2)
    requires CanonicalText(t1, v1, r1).Ok? && CanonicalText(t2, v2, r2).Ok?
    ensures CanonicalText(t1, v1, r1) == CanonicalText(t2, v2, r2)
            <==> Strip(t1) == Strip(t2) && Version(v1) == Version(v2) && Denote(r1) == Denote(r2)
  {
    if CanonicalText(t1, v1, r1) == CanonicalText(t2, v2, r2) {
      TextBindsCanonicalForm(t1, v1, r1, t2, v2, r2);
      CanonicalDenotes(r1, Canonicalise(r1).value);
      CanonicalDenotes(r2, Canonicalise(r2).value);
    }
    if Strip(t1) == Strip(t2) && Version(v1) == Version(v2) && Denote(r1) == Denote(r2) {
      CanonicalOrderFree(r1, r2);
    }
  }

  // ----------------------------------------------------------------- digests

  /** The hexadecimal SHA-256 of a text; nothing is known of it but its shape. */
  type Hash = string -> string

  ghost predicate HexHash(h: Hash) {
    forall t :: |h(t)| == 64 && IsHex(h(t))
  }

  /** The hash separates the finitely many texts in question. */
  ghost predicate NoCollision(h: Hash, texts: set<string>) {
    forall t, u :: t in texts && u in texts && h(t) == h(u) ==> t == u
  }

  function RecordDigest(h: Hash, recordType: string, schemaVersion: string, record: Value): Result<string, RecordError> {
    var text :- CanonicalText(recordType, schemaVersion, record);
    Ok("sha256:" + h(text))
  }

  lemma DigestShape(h: Hash, recordType: string, schemaVersion: string, record: Value)
    requires HexHash(h)
    ensures var d := RecordDigest(h, recordType, schemaVersion, record); d.Ok? ==> IsSha256(d.value)
  {
    var d := RecordDigest(h, recordType, schemaVersion, record);
    if d.Ok? {
      var text := CanonicalText(recordType, schemaVersion, record).value;
      assert |h(text)| == 64 && IsHex(h(text));
      assert d.value[..7] == "sha256:" && d.value[7..] == h(text);
    }
  }

  lemma DigestBinds(h: Hash, t1: string, v1: string, r1: Value, t2: string, v2: string, r2: Value)
    requires Unsplit(r1) && Unsplit(r2)
    requires RecordDigest(h, t1, v1, r1).Ok? && RecordDigest(h, t1, v1, r1) == RecordDigest(h, t2, v2, r2)
    requires NoCollision(h, {CanonicalText(t1, v1, r1).value, CanonicalText(t2, v2, r2).value})
    ensures Strip(t1) == Strip(t2) && Version(v1) == Version(v2)
    ensures Canonicalise(r1).Ok? && Canonicalise(r1) == Canonicalise(r2)
    ensures Denote(r1) == Denote(r2)
  {
    var x, y := CanonicalText(t1, v1, r1).value, CanonicalText(t2, v2, r2).value;
    assert h(x) == ("sha256:" + h(x))[7..] == ("sha256:" + h(y))[7..] == h(y);
    TextBindsCanonicalForm(t1, v1, r1, t2, v2, r2);
    CanonicalDenotes(r1, Canonicalise(r1).value);
    CanonicalDenotes(r2, Canonicalise(r2).value);
  }

  // ----------------------------------------------- records with fixed fields

  /** A dictionary built from named fields, as the `as_dict` methods do. */
  function Record(fields: seq<(string, Value)>): Value {
    Dict(seq(|fields|, i requires 0 <= i < |fields| => Entry(TextKey(U(fields[i].0)), fields[i].1)))
  }

  lemma {:induction false} InsertInjective<T>(e: Entry<T>, s: seq<Entry<T>>, f: Entry<T>, t: seq<Entry<T>>)
    requires |s| == |t| && e.key == f.key
    requires forall i :: 0 <= i < |s| ==> s[i].key == t[i].key
    ensures forall i :: 0 <= i <= |s| ==> Insert(e, s)[i].key == Insert(f, t)[i].key
    ensures Insert(e, s) == Insert(f, t) ==> e == f && s == t
  {
    if s != [] && Before(ShowKey(s[0].key), ShowKey(e.key)) {
      InsertInjective(e, s[1..], f, t[1..]);
      assert Insert(e, s)[1..] == Insert(e, s[1..]) && Insert(f, t)[1..] == Insert(f, t[1..]);
      assert s == [s[0]] + s[1..] && t == [t[0]] + t[1..];
      assert Insert(e, s)[0] == s[0] && Insert(f, t)[0] == t[0];
    } else {
      assert Insert(e, s)[0] == e && Insert(f, t)[0] == f;
      assert Insert(e, s)[1..] == s && Insert(f, t)[1..] == t;
    }
  }

  /** Sorting two dictionaries with the same key sequence moves both in the same way. */
  lemma {:induction false} SortInjective<T>(s: seq<Entry<T>>, t: seq<Entry<T>>)
    requires |s| == |t| && forall i :: 0 <= i < |s| ==> s[i].key == t[i].key
    ensures forall i :: 0 <= i < |s| ==> SortEntries(s)[i].key == SortEntries(t)[i].key
    ensures SortEntries(s) == SortEntries(t) ==> s == t
  {
    if s != [] {
      SortInjective(s[1..], t[1..]);
      InsertInjective(s[0], SortEntries(s[1..]), t[0], SortEntries(t[1..]));
      assert s == [s[0]] + s[1..] && t == [t[0]] + t[1..];
    }
  }

  lemma {:induction false} CollectInjective(s: seq<Entry<Result<Value, Reason>>>, t: seq<Entry<Result<Value, Reason>>>)
    requires Collect(s).Ok? && Collect(s) == Collect(t)
    ensures s == t
  {
    assert |s| == |Collect(s).value| == |t|;
    forall i | 0 <= i < |s| ensures s[i] == t[i] {
      CollectAt(s, i);
      CollectAt(t, i);
    }
  }

  ghost predicate SameNames(f: seq<(string, Value)>, g: seq<(string, Value)>) {
    |f| == |g| && forall i :: 0 <= i < |f| ==> f[i].0 == g[i].0
  }

  /** Field by field, two records have the same canonical form. */
  ghost predicate FieldsAgree(f: seq<(string, Value)>, g: seq<(string, Value)>) {
    && |f| == |g|
    && forall i :: 0 <= i < |f| ==> Canonicalise(f[i].1).Ok? && Canonicalise(f[i].1) == Canonicalise(g[i].1)
  }

  /** Records with the same field names and the same canonical form agree field by field. */
  lemma FieldsBind(f: seq<(string, Value)>, g: seq<(string, Value)>)
    requires SameNames(f, g)
    requires Canonicalise(Record(f)).Ok? && Canonicalise(Record(f)) == Canonicalise(Record(g))
    ensures FieldsAgree(f, g)
  {
    var s, t := Record(f).items, Record(g).items;
    var a, b := CanonicaliseEach(s), CanonicaliseEach(t);
    CollectInjective(SortEntries(a), SortEntries(b));
    SortInjective(a, b);
    CanonicalMembers(s, Canonicalise(Record(f)).value.items);
    forall i | 0 <= i < |f| ensures Canonicalise(f[i].1).Ok? && Canonicalise(f[i].1) == Canonicalise(g[i].1) {
      CanonicaliseEachAt(s, i);
      CanonicaliseEachAt(t, i);
      assert s[i].value == f[i].1 && t[i].value == g[i].1;
    }
  }

  lemma TextAt(f: seq<(string, Value)>, g: seq<(string, Value)>, i: nat, x: string, y: string)
    requires FieldsAgree(f, g) && i < |f| && f[i].1 == S(x) && g[i].1 == S(y)
    ensures x == y
  {
    UInjective(x, y);
  }

  lemma IntAt(f: seq<(string, Value)>, g: seq<(string, Value)>, i: nat, x: int, y: int)
    requires FieldsAgree(f, g) && i < |f| && f[i].1 == N(x) && g[i].1 == N(y)
    ensures x == y
  {
  }

  lemma TextsAt(f: seq<(string, Value)>, g: seq<(string, Value)>, i: nat, xs: seq<string>, ys: seq<string>)
    requires FieldsAgree(f, g) && i < |f| && f[i].1 == Texts(xs) && g[i].1 == Texts(ys)
    ensures xs == ys
  {
    TextsBind(xs, ys);
  }

  /** Any other field agrees up to key order and tuple/list. */
  lemma ValueAt(f: seq<(string, Value)>, g: seq<(string, Value)>, i: nat)
    requires FieldsAgree(f, g) && i < |f|
    ensures Denote(f[i].1) == Denote(g[i].1)
  {
    CanonicalDenotes(f[i].1, Canonicalise(f[i].1).value);
    CanonicalDenotes(g[i].1, Canonicalise(g[i].1).value);
  }

  lemma TextsBind(xs: seq<string>, ys: seq<string>)
    requires Canonicalise(Texts(xs)).Ok? && Canonicalise(Texts(xs)) == Canonicalise(Texts(ys))
    ensures xs == ys
  {
    var s, t := Texts(xs).elems, Texts(ys).elems;
    assert |CanonicaliseElems(s).value| == |xs| && |CanonicaliseElems(t).value| == |ys|;
    forall i | 0 <= i < |xs| ensures xs[i] == ys[i] {
      CanonicaliseElemsAt(s, i);
      CanonicaliseElemsAt(t, i);
      UInjective(xs[i], ys[i]);
    }
  }

  lemma RecordUnsplit(f: seq<(string, Value)>)
    requires forall i :: 0 <= i < |f| ==> Unsplit(f[i].1)
    ensures Unsplit(Record(f))
  {
    forall i | 0 <= i < |f| ensures NoSplitPair(U(f[i].0)) {
      ScalarTextUnsplit(f[i].0);
    }
  }

  /** A record whose fields are all acceptable is acceptable. */
  lemma RecordAccepted(f: seq<(string, Value)>)
    requires forall i :: 0 <= i < |f| ==> Canonicalise(f[i].1).Ok?
    ensures Canonicalise(Record(f)).Ok?
  {
    var s := Record(f).items;
    var each := CanonicaliseEach(s);
    forall i | 0 <= i < |each| ensures SortEntries(each)[i].value.Ok? {
      SortElement(each, i);
      var j :| 0 <= j < |each| && each[j] == SortEntries(each)[i];
      CanonicaliseEachAt(s, j);
    }
    CollectAccepts(SortEntries(each));
  }

  lemma {:induction false} CollectAccepts(s: seq<Entry<Result<Value, Reason>>>)
    requires forall i :: 0 <= i < |s| ==> s[i].value.Ok?
    ensures Collect(s).Ok?
  {
    if s != [] {
      CollectAccepts(s[1..]);
    }
  }
}
