/** The Python objects that reach the kernel's canonicaliser and boundary checks. */
module PyValues {

  /** One element of a Python string. Lone surrogates (0xD800 to 0xDFFF) are legal elements. */
  type CodePoint = c: int | 0 <= c < 0x11_0000

  type Str = seq<CodePoint>

  /** A Python string whose elements are all Unicode scalar values. */
  function U(s: string): Str {
    seq(|s|, i requires 0 <= i < |s| => s[i] as int)
  }

  lemma UInjective(s: string, t: string)
    requires U(s) == U(t)
    ensures s == t
  {
    assert |s| == |U(s)| == |t|;
    forall i | 0 <= i < |s| ensures s[i] == t[i] {
      assert U(s)[i] == U(t)[i];
    }
  }

  /** Characters of a printed JSON number. */
  predicate NumberChar(c: char) {
    '0' <= c <= '9' || c == '-' || c == '+' || c == '.' || c == 'e'
  }

  /** The `repr` of a finite Python float: a decimal point or an exponent is always present. */
  predicate IsFloatText(t: string) {
    && t != ""
    && (t[0] == '-' || '0' <= t[0] <= '9')
    && (forall i :: 0 <= i < |t| ==> NumberChar(t[i]))
    && ('.' in t || 'e' in t)
  }

  type FloatText = t: string | IsFloatText(t) witness ['0', '.', '0']

  datatype Float = Finite(text: FloatText) | NonFinite

  /** Leaves. `Opaque` stands for an instance of any type the kernel does not accept. */
  datatype Atom =
    | NoneValue
    | Bool(b: bool)
    | Int(i: int)
    | Real(f: Float)
    | Text(s: Str)
    | Opaque(typeName: string)

  /** Dictionary keys need not be strings; `shown` is what `str(key)` returns. */
  datatype Key = TextKey(text: Str) | OtherKey(shown: Str)

  function ShowKey(k: Key): Str {
    match k
    case TextKey(t) => t
    case OtherKey(s) => s
  }

  /** One key/value pair of an insertion-ordered dictionary. */
  datatype Entry<+T> = Entry(key: Key, value: T)

  type Item = Entry<Value>

  /** A finite Python object: dictionaries keep insertion order. */
  datatype Value =
    | Leaf(atom: Atom)
    | Dict(items: seq<Item>)
    | List(isTuple: bool, elems: seq<Value>)

  /** What a value says once key order and the tuple/list distinction are forgotten. */
  datatype Json =
    | JLeaf(atom: Atom)
    | JObject(fields: map<Key, Json>)
    | JArray(elems: seq<Json>)

  /** Filling a dictionary pair by pair: a later pair overrides an earlier one. */
  function Fill<T>(s: seq<Entry<T>>): map<Key, T> {
    if s == [] then map[] else map[s[0].key := s[0].value] + Fill(s[1..])
  }

  function Denote(v: Value): Json {
    match v
    case Leaf(a) => JLeaf(a)
    case Dict(items) => JObject(Fill(DenoteEach(items)))
    case List(_, elems) => JArray(DenoteElems(elems))
  }

  function DenoteEach(items: seq<Item>): (r: seq<Entry<Json>>)
    ensures |r| == |items|
    ensures forall i :: 0 <= i < |r| ==> r[i].key == items[i].key
  {
    if items == [] then []
    else
      assert items[0].value < items[0];
      [Entry(items[0].key, Denote(items[0].value))] + DenoteEach(items[1..])
  }

  function DenoteElems(elems: seq<Value>): (r: seq<Json>)
    ensures |r| == |elems|
  {
    if elems == [] then []
    else [Denote(elems[0])] + DenoteElems(elems[1..])
  }

  /** Python's guarantee: the keys of one dictionary are distinct. */
  ghost predicate DistinctKeys<T>(s: seq<Entry<T>>) {
    forall i, j :: 0 <= i < j < |s| ==> s[i].key != s[j].key
  }

  ghost predicate WellFormed(v: Value) {
    match v
    case Leaf(_) => true
    case Dict(items) =>
      && DistinctKeys(items)
      && (forall i :: 0 <= i < |items| ==> WellFormed(items[i].value))
    case List(_, elems) => forall i :: 0 <= i < |elems| ==> WellFormed(elems[i])
  }

  lemma {:induction false} DenoteElemsAt(elems: seq<Value>, k: nat)
    requires k < |elems|
    ensures DenoteElems(elems)[k] == Denote(elems[k])
  {
    if k > 0 {
      DenoteElemsAt(elems[1..], k - 1);
    }
  }

  lemma {:induction false} DenoteEachAt(items: seq<Item>, k: nat)
    requires k < |items|
    ensures DenoteEach(items)[k].value == Denote(items[k].value)
  {
    if k > 0 {
      DenoteEachAt(items[1..], k - 1);
    }
  }

  lemma {:induction false} FillDomain<T>(s: seq<Entry<T>>, k: Key)
    ensures k in Fill(s) <==> exists i :: 0 <= i < |s| && s[i].key == k
  {
    if s != [] {
      FillDomain(s[1..], k);
      if s[0].key != k && k in Fill(s[1..]) {
        var i :| 0 <= i < |s[1..]| && s[1..][i].key == k;
        assert s[i + 1].key == k;
      }
      if i :| 0 <= i < |s| && s[i].key == k {
        assert i == 0 || s[1..][i - 1].key == k;
      }
    }
  }

  lemma {:induction false} FillAt<T>(s: seq<Entry<T>>, k: nat)
    requires DistinctKeys(s) && k < |s|
    ensures s[k].key in Fill(s) && Fill(s)[s[k].key] == s[k].value
  {
    FillDomain(s, s[k].key);
    if k == 0 {
      FillDomain(s[1..], s[0].key);
    } else {
      FillAt(s[1..], k - 1);
    }
  }
}
