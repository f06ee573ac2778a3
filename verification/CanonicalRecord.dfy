/** `_canonical_record_value` and the compact, sorted, ASCII-only JSON text
    (`govengine/signing.py`). Escapes follow section 7 of RFC 8259. */
module CanonicalRecord {
  import opened Prelude
  import opened PyValues

  const JSON_SAFE_INTEGER_MAX := 0x1F_FFFF_FFFF_FFFF

  datatype Reason =
    | UnsupportedKey
    | UnsupportedValue(typeName: string)
    | NonFiniteFloat
    | UnsafeInteger

  // ---------------------------------------------------------------- sorting

  /** Python's `<` on strings. */
  predicate Before(a: Str, b: Str) {
    b != [] && (a == [] || a[0] < b[0] || (a[0] == b[0] && Before(a[1..], b[1..])))
  }

  function Insert<T>(e: Entry<T>, s: seq<Entry<T>>): (r: seq<Entry<T>>)
    ensures |r| == |s| + 1
  {
    if s != [] && Before(ShowKey(s[0].key), ShowKey(e.key)) then [s[0]] + Insert(e, s[1..])
    else [e] + s
  }

  /** `sorted(items)` by key; stable. */
  function SortEntries<T>(s: seq<Entry<T>>): (r: seq<Entry<T>>)
    ensures |r| == |s|
  {
    if s == [] then [] else Insert(s[0], SortEntries(s[1..]))
  }

  // --------------------------------------------------------- canonical value

  predicate AllTextKeys<T>(items: seq<Entry<T>>) {
    forall i :: 0 <= i < |items| ==> items[i].key.TextKey?
  }

  function CanonicaliseAtom(a: Atom): Result<Value, Reason> {
    match a
    case Real(NonFinite) => Err(NonFiniteFloat)
    case Int(i) => if -JSON_SAFE_INTEGER_MAX <= i <= JSON_SAFE_INTEGER_MAX then Ok(Leaf(a)) else Err(UnsafeInteger)
    case Opaque(typeName) => Err(UnsupportedValue(typeName))
    case _ => Ok(Leaf(a))
  }

  function Canonicalise(v: Value): Result<Value, Reason> {
    match v
    case Leaf(a) => CanonicaliseAtom(a)
    case Dict(items) =>
      :- Need(AllTextKeys(items), UnsupportedKey);
      var canonical :- Collect(SortEntries(CanonicaliseEach(items)));
      Ok(Dict(canonical))
    case List(_, elems) =>
      var canonical :- CanonicaliseElems(elems);
      Ok(List(false, canonical))
  }

  function CanonicaliseEach(items: seq<Item>): (r: seq<Entry<Result<Value, Reason>>>)
    ensures |r| == |items|
    ensures forall i :: 0 <= i < |r| ==> r[i].key == items[i].key
  {
    if items == [] then []
    else
      assert items[0].value < items[0];
      [Entry(items[0].key, Canonicalise(items[0].value))] + CanonicaliseEach(items[1..])
  }

  /** The first failure in sorted key order is the one that is raised. */
  function Collect(s: seq<Entry<Result<Value, Reason>>>): (r: Result<seq<Item>, Reason>)
    ensures r.Ok? ==> |r.value| == |s|
  {
    if s == [] then Ok([])
    else
      var head :- s[0].value;
      var tail :- Collect(s[1..]);
      Ok([Entry(s[0].key, head)] + tail)
  }

  function CanonicaliseElems(elems: seq<Value>): (r: Result<seq<Value>, Reason>)
    ensures r.Ok? ==> |r.value| == |elems|
  {
    if elems == [] then Ok([])
    else
      var head :- Canonicalise(elems[0]);
      var tail :- CanonicaliseElems(elems[1..]);
      Ok([head] + tail)
  }

  // ------------------------------------------------------------ JSON printer

  function HexDigit(n: int): char
    requires 0 <= n < 16
  {
    "0123456789abcdef"[n]
  }

  /** One UTF-16 code unit inside a JSON string literal. */
  function EscapeUnit(u: int): string
    requires 0 <= u < 0x1_0000
  {
    if u == 34 then "\\\""
    else if u == 92 then "\\\\"
    else if u == 8 then "\\b"
    else if u == 9 then "\\t"
    else if u == 10 then "\\n"
    else if u == 12 then "\\f"
    else if u == 13 then "\\r"
    else if 32 <= u <= 126 then [u as char]
    else ['\\', 'u', HexDigit(u / 4096), HexDigit(u / 256 % 16), HexDigit(u / 16 % 16), HexDigit(u % 16)]
  }

  /** The UTF-16 code units of one Python string element. */
  function Units(c: CodePoint): (r: seq<int>)
    ensures forall i :: 0 <= i < |r| ==> 0 <= r[i] < 0x1_0000
  {
    if c < 0x1_0000 then [c]
    else [0xD800 + (c - 0x1_0000) / 0x400, 0xDC00 + (c - 0x1_0000) % 0x400]
  }

  function Utf16(s: Str): (r: seq<int>)
    ensures forall i :: 0 <= i < |r| ==> 0 <= r[i] < 0x1_0000
  {
    if s == [] then [] else Units(s[0]) + Utf16(s[1..])
  }

  function EscapeUnits(us: seq<int>): string
    requires forall i :: 0 <= i < |us| ==> 0 <= us[i] < 0x1_0000
  {
    if us == [] then "" else EscapeUnit(us[0]) + EscapeUnits(us[1..])
  }

  function PrintText(s: Str): string {
    "\"" + EscapeUnits(Utf16(s)) + "\""
  }

  function Digits(n: nat): (r: string)
    ensures r != "" && forall i :: 0 <= i < |r| ==> '0' <= r[i] <= '9'
  {
    if n < 10 then [HexDigit(n)] else Digits(n / 10) + [HexDigit(n % 10)]
  }

  function PrintInt(i: int): string {
    if i < 0 then "-" + Digits(-i) else Digits(i)
  }

  /** Values that reach the printer: string keys, no opaque leaves, no non-finite floats. */
  predicate Printable(v: Value) {
    match v
    case Leaf(a) => !a.Opaque? && !(a.Real? && a.f.NonFinite?)
    case Dict(items) =>
      forall i :: 0 <= i < |items| ==> items[i].key.TextKey? && Printable(items[i].value)
    case List(isTuple, elems) =>
      forall i :: 0 <= i < |elems| ==> Printable(elems[i])
  }

  function PrintAtom(a: Atom): string
    requires Printable(Leaf(a))
  {
    match a
    case NoneValue => "null"
    case Bool(b) => if b then "true" else "false"
    case Int(i) => PrintInt(i)
    case Real(f) => f.text
    case Text(s) => PrintText(s)
  }

  function Print(v: Value): string
    requires Printable(v)
    decreases v
  {
    match v
    case Leaf(a) => PrintAtom(a)
    case Dict(items) => if items == [] then "{}" else "{" + PrintMembers(items) + "}"
    case List(_, elems) => if elems == [] then "[]" else "[" + PrintElems(elems) + "]"
  }

  function PrintMembers(items: seq<Item>): string
    requires items != []
    requires forall i :: 0 <= i < |items| ==> items[i].key.TextKey? && Printable(items[i].value)
    decreases items
  {
    assert items[0].value < items[0];
    var head := PrintText(items[0].key.text) + ":" + Print(items[0].value);
    if |items| == 1 then head else head + "," + PrintMembers(items[1..])
  }

  function PrintElems(elems: seq<Value>): string
    requires elems != []
    requires forall i :: 0 <= i < |elems| ==> Printable(elems[i])
    decreases elems
  {
    if |elems| == 1 then Print(elems[0]) else Print(elems[0]) + "," + PrintElems(elems[1..])
  }
}
