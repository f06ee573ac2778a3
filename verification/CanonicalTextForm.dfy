/** The canonical text in plain terms (`govengine/signing.py`): which order keys come in, how text and integers are
    spelled, and what surrounds a record. Orders and escapes are stated on code points, not through the printer. */
module CanonicalTextForm {
  import opened Prelude
  import opened PyStrings
  import opened PyValues
  import opened CanonicalRecord
  import opened Readback
  import opened RecordText

  // -------------------------------------------------------------- key order

  /** `a` sorts before `b`: they agree up to some place, where `a` ends or has the smaller code point. */
  ghost predicate Precedes(a: Str, b: Str) {
    exists k :: 0 <= k <= |a| && k < |b| && a[..k] == b[..k] && (k == |a| || a[k] < b[k])
  }

  lemma {:induction false} BeforePrecedes(a: Str, b: Str)
    requires Before(a, b)
    ensures Precedes(a, b)
  {
    if a == [] || a[0] < b[0] {
      assert a[..0] == b[..0];
    } else {
      BeforePrecedes(a[1..], b[1..]);
      var k :| 0 <= k <= |a[1..]| && k < |b[1..]| && a[1..][..k] == b[1..][..k] && (k == |a[1..]| || a[1..][k] < b[1..][k]);
      assert a[..k + 1] == [a[0]] + a[1..][..k] && b[..k + 1] == [b[0]] + b[1..][..k];
    }
  }

  lemma {:induction false} PrecedesIsBefore(a: Str, b: Str)
    requires Precedes(a, b)
    ensures Before(a, b)
  {
    var k :| 0 <= k <= |a| && k < |b| && a[..k] == b[..k] && (k == |a| || a[k] < b[k]);
    if k > 0 {
      assert a[0] == a[..k][0] && b[0] == b[..k][0];
      assert a[1..][..k - 1] == a[..k][1..] && b[1..][..k - 1] == b[..k][1..];
      PrecedesIsBefore(a[1..], b[1..]);
    }
  }

  lemma BeforeIsPrecedes(a: Str, b: Str)
    ensures Before(a, b) <==> Precedes(a, b)
  {
    if Before(a, b) {
      BeforePrecedes(a, b);
    }
    if Precedes(a, b) {
      PrecedesIsBefore(a, b);
    }
  }

  /** The keys of a canonical dictionary ascend by code point. */
  lemma KeysAscend(v: Value, items: seq<Item>, i: nat, j: nat)
    requires WellFormed(v) && Canonicalise(v) == Ok(Dict(items)) && i < j < |items|
    ensures items[i].key.TextKey? && items[j].key.TextKey? && Precedes(items[i].key.text, items[j].key.text)
  {
    SortKeysIsNoOp(v, Dict(items));
    CanonicalIsReadable(v, Dict(items));
    BeforePrecedes(items[i].key.text, items[j].key.text);
  }

  /** Every dictionary of the value, nested ones included, has ascending text keys. */
  ghost predicate AscendsThroughout(v: Value) {
    match v
    case Leaf(_) => true
    case Dict(items) =>
      && (forall i, j :: 0 <= i < j < |items| ==>
            items[i].key.TextKey? && items[j].key.TextKey? && Precedes(items[i].key.text, items[j].key.text))
      && (forall i :: 0 <= i < |items| ==> AscendsThroughout(items[i].value))
    case List(_, elems) => forall i :: 0 <= i < |elems| ==> AscendsThroughout(elems[i])
  }

  lemma {:induction false} SortedAscends(v: Value)
    requires SortedThroughout(v) && Printable(v)
    ensures AscendsThroughout(v)
  {
    match v
    case Leaf(_) =>
    case Dict(items) =>
      forall i, j | 0 <= i < j < |items|
        ensures items[i].key.TextKey? && items[j].key.TextKey? && Precedes(items[i].key.text, items[j].key.text)
      {
        BeforePrecedes(items[i].key.text, items[j].key.text);
      }
      forall i | 0 <= i < |items| ensures AscendsThroughout(items[i].value) {
        assert items[i].value < items[i];
        SortedAscends(items[i].value);
      }
    case List(_, elems) =>
      forall i | 0 <= i < |elems| ensures AscendsThroughout(elems[i]) {
        SortedAscends(elems[i]);
      }
  }

  /** In what is printed, the keys of every dictionary ascend: inside the record and in the envelope around it. */
  lemma PrintedKeysAscend(v: Value, c: Value, recordType: string, version: string)
    requires WellFormed(v) && Canonicalise(v) == Ok(c)
    ensures AscendsThroughout(c) && AscendsThroughout(Envelope(recordType, version, c))
  {
    SortKeysIsNoOp(v, c);
    CanonicalIsReadable(v, c);
    SortedAscends(c);
    EnvelopeAscends(recordType, version, c);
  }

  lemma EnvelopeAscends(recordType: string, version: string, c: Value)
    requires AscendsThroughout(c)
    ensures AscendsThroughout(Envelope(recordType, version, c))
  {
    var items := Envelope(recordType, version, c).items;
    FirstDiffers(U("owner"), U("record"), 0);
    FirstDiffers(U("owner"), U("record_type"), 0);
    FirstDiffers(U("owner"), U("schema_version"), 0);
    FirstDiffers(U("record"), U("record_type"), 6);
    FirstDiffers(U("record"), U("schema_version"), 0);
    FirstDiffers(U("record_type"), U("schema_version"), 0);
    forall i | 0 <= i < |items| ensures AscendsThroughout(items[i].value) {
      assert i != 1 ==> items[i].value.Leaf?;
    }
  }

  lemma FirstDiffers(a: Str, b: Str, k: nat)
    requires k <= |a| && k < |b| && (forall i :: 0 <= i < k ==> a[i] == b[i]) && (k == |a| || a[k] < b[k])
    ensures Precedes(a, b)
  {
    assert a[..k] == b[..k];
  }

  // ---------------------------------------------------------------- spelling

  /** The value of lower-case hexadecimal digits. */
  function HexNumber(h: string): nat
    requires IsHex(h)
  {
    if h == "" then 0
    else
      var c := h[|h| - 1];
      16 * HexNumber(h[..|h| - 1]) + (if c <= '9' then (c - '0') as int else (c - 'a') as int + 10)
  }

  /** One code unit as it appears between the quotes. */
  ghost predicate SpelledAs(u: int, text: string) {
    if u == '\"' as int then text == "\\\""
    else if u == '\\' as int then text == "\\\\"
    else if u == '\n' as int then text == "\\n"
    else if u == '\r' as int then text == "\\r"
    else if u == '\t' as int then text == "\\t"
    else if u == 8 then text == "\\b"
    else if u == 12 then text == "\\f"
    else if ' ' as int <= u <= '~' as int then text == [u as char]
    else |text| == 6 && text[..2] == "\\u" && IsHex(text[2..]) && HexNumber(text[2..]) == u
  }

  lemma UnitIsSpelled(u: int)
    requires 0 <= u < 0x1_0000
    ensures SpelledAs(u, EscapeUnit(u))
  {
    hide HexNumber, HexDigit;
    if !(32 <= u <= 126) && u !in {8, 9, 10, 12, 13} {
      EscapedInHex(u);
    }
  }

  lemma EscapedInHex(u: int)
    requires 0 <= u < 0x1_0000 && !(32 <= u <= 126) && u !in {8, 9, 10, 12, 13}
    ensures var text := EscapeUnit(u);
            |text| == 6 && text[..2] == "\\u" && IsHex(text[2..]) && HexNumber(text[2..]) == u
  {
    hide HexNumber, HexDigit;
    var a, b, c, d := u / 4096, u / 256 % 16, u / 16 % 16, u % 16;
    Nibbles(u);
    HexSpelling(a, b, c, d);
    assert EscapeUnit(u)[2..] == [HexDigit(a), HexDigit(b), HexDigit(c), HexDigit(d)];
  }

  lemma Nibbles(u: int)
    requires 0 <= u < 0x1_0000
    ensures u / 4096 < 16 && u == ((u / 4096 * 16 + u / 256 % 16) * 16 + u / 16 % 16) * 16 + u % 16
  {
    assert u / 256 == u / 4096 * 16 + u / 256 % 16;
    assert u / 16 == u / 256 * 16 + u / 16 % 16;
  }

  lemma HexStep(h: string, n: int)
    requires IsHex(h) && 0 <= n < 16
    ensures IsHex(h + [HexDigit(n)]) && HexNumber(h + [HexDigit(n)]) == 16 * HexNumber(h) + n
  {
    var longer := h + [HexDigit(n)];
    assert longer[..|longer| - 1] == h;
  }

  lemma NoHex()
    ensures IsHex("") && HexNumber("") == 0
  {
  }

  lemma HexSpelling(a: int, b: int, c: int, d: int)
    requires 0 <= a < 16 && 0 <= b < 16 && 0 <= c < 16 && 0 <= d < 16
    ensures var h := [HexDigit(a), HexDigit(b), HexDigit(c), HexDigit(d)];
            IsHex(h) && HexNumber(h) == ((a * 16 + b) * 16 + c) * 16 + d
  {
    hide HexDigit, HexNumber, IsHex;
    NoHex();
    HexStep("", a);
    assert "" + [HexDigit(a)] == [HexDigit(a)];
    HexStep([HexDigit(a)], b);
    assert [HexDigit(a)] + [HexDigit(b)] == [HexDigit(a), HexDigit(b)];
    HexStep([HexDigit(a), HexDigit(b)], c);
    assert [HexDigit(a), HexDigit(b)] + [HexDigit(c)] == [HexDigit(a), HexDigit(b), HexDigit(c)];
    HexStep([HexDigit(a), HexDigit(b), HexDigit(c)], d);
    assert [HexDigit(a), HexDigit(b), HexDigit(c)] + [HexDigit(d)]
           == [HexDigit(a), HexDigit(b), HexDigit(c), HexDigit(d)];
  }

  lemma {:induction false} UnitsOfConcat(s: Str, t: Str)
    ensures Utf16(s + t) == Utf16(s) + Utf16(t)
  {
    if s == [] {
      assert s + t == t;
    } else {
      assert (s + t)[1..] == s[1..] + t;
      UnitsOfConcat(s[1..], t);
    }
  }

  lemma {:induction false} EscapesOfConcat(us: seq<int>, vs: seq<int>)
    requires forall i :: 0 <= i < |us| ==> 0 <= us[i] < 0x1_0000
    requires forall i :: 0 <= i < |vs| ==> 0 <= vs[i] < 0x1_0000
    ensures EscapeUnits(us + vs) == EscapeUnits(us) + EscapeUnits(vs)
  {
    if us == [] {
      assert us + vs == vs;
    } else {
      assert (us + vs)[1..] == us[1..] + vs;
      EscapesOfConcat(us[1..], vs);
    }
  }

  /** What stands between the quotes of a printed text. */
  function Inner(s: Str): string {
    EscapeUnits(Utf16(s))
  }

  /** A text is printed between quotes, character by character. */
  lemma TextPrintsInPieces(s: Str, t: Str)
    ensures PrintText(s) == "\"" + Inner(s) + "\"" && Inner(s + t) == Inner(s) + Inner(t)
  {
    UnitsOfConcat(s, t);
    EscapesOfConcat(Utf16(s), Utf16(t));
  }

  /** How one character is printed: itself if it is plain ASCII, by the short escapes, as one escape of four lower-case
      hexadecimal digits, or as two of them, the high surrogate first. */
  lemma CharacterPrints(c: CodePoint)
    ensures c < 0x1_0000 ==> SpelledAs(c, Inner([c]))
    ensures c >= 0x1_0000 ==>
              exists h, l, x, y :: High(h) && Low(l) && c == Astral(h, l) && Inner([c]) == x + y
                                   && SpelledAs(h, x) && SpelledAs(l, y)
  {
    hide SpelledAs, EscapeUnit;
    var us := Utf16([c]);
    assert Utf16([c][1..]) == [] && us == Units(c);
    if c < 0x1_0000 {
      OneEscape(c);
      UnitIsSpelled(c);
    } else {
      var h, l := us[0], us[1];
      EscapesOfConcat([h], [l]);
      OneEscape(h);
      OneEscape(l);
      assert us == [h] + [l];
      UnitIsSpelled(h);
      UnitIsSpelled(l);
      assert High(h) && Low(l) && c == Astral(h, l);
    }
  }

  lemma OneEscape(u: int)
    requires 0 <= u < 0x1_0000
    ensures EscapeUnits([u]) == EscapeUnit(u)
  {
    hide EscapeUnit;
    assert [u][1..] == [];
  }

  /** Only the integers a double holds exactly are accepted, and only finite floats. */
  lemma NumbersAccepted(i: int, f: Float)
    ensures Canonicalise(Leaf(Int(i))).Ok? <==> -9007199254740991 <= i <= 9007199254740991
    ensures Canonicalise(Leaf(Real(f))).Ok? <==> f.Finite?
  {
  }

  lemma {:induction false} NoLeadingZero(n: nat)
    ensures |Digits(n)| > 1 ==> Digits(n)[0] != '0'
  {
    if n >= 10 {
      NoLeadingZero(n / 10);
      if n / 10 < 10 {
        assert Digits(n / 10) == [HexDigit(n / 10)];
      }
    }
  }

  /** An integer is printed with a sign exactly when it is negative and never with a leading zero. */
  lemma IntegerPrints(i: int)
    ensures var text := PrintInt(i);
            && (text[0] == '-' <==> i < 0)
            && (var digits := if i < 0 then text[1..] else text;
                digits != "" && (|digits| > 1 ==> digits[0] != '0')
                && forall k :: 0 <= k < |digits| ==> '0' <= digits[k] <= '9')
  {
    NoLeadingZero(if i < 0 then -i else i);
  }

  // ---------------------------------------------------------------- envelope

  /** Plain ASCII: printed as it is. */
  predicate IsPlain(s: string) {
    forall i :: 0 <= i < |s| ==> ' ' <= s[i] <= '~' && s[i] != '\"' && s[i] != '\\'
  }

  lemma {:induction false} PlainInner(s: string)
    requires IsPlain(s)
    ensures Inner(U(s)) == s
  {
    if s == "" {
      assert U(s) == [];
    } else {
      hide Inner;
      var c, rest := s[0] as int, s[1..];
      PlainInner(rest);
      TextPrintsInPieces([c], U(rest));
      CharacterPrints(c);
      assert U(s) == [c] + U(rest) && s == [s[0]] + rest;
    }
  }

  lemma PlainPrints(s: string)
    requires IsPlain(s)
    ensures PrintText(U(s)) == "\"" + s + "\""
  {
    hide Inner, PrintText;
    PlainInner(s);
    TextPrintsInPieces(U(s), []);
  }

  function Quoted(s: string): string {
    "\"" + s + "\""
  }

  /** A printed record between its owner and its type and version. */
  function Enveloped(record: string, recordType: string, version: string): string {
    "{" + (Quoted("owner") + ":" + Quoted("govengine") + ","
           + (Quoted("record") + ":" + record + ","
              + (Quoted("record_type") + ":" + recordType + ","
                 + (Quoted("schema_version") + ":" + version)))) + "}"
  }

  /** The whole canonical text: the printed record in its envelope, the type stripped and the version defaulted. */
  lemma EnvelopeText(recordType: string, version: string, record: Value, c: Value)
    requires CanonicalText(recordType, version, record).Ok? && Canonicalise(record) == Ok(c)
    ensures Printable(c)
    ensures CanonicalText(recordType, version, record).value
            == Enveloped(Print(c), PrintText(U(Strip(recordType))), PrintText(U(if version == "" then "v1" else version)))
  {
    hide PrintText, Canonicalise, Strip, HasPrefix, Print, Enveloped;
    CanonicalIsReadable(record, c);
    EnvelopePieces(Strip(recordType), Version(version), c);
  }

  lemma MembersCons(items: seq<Item>)
    requires |items| > 1 && forall i :: 0 <= i < |items| ==> items[i].key.TextKey? && Printable(items[i].value)
    ensures Printable(items[0].value)
    ensures PrintMembers(items)
            == PrintText(items[0].key.text) + ":" + Print(items[0].value) + "," + PrintMembers(items[1..])
  {
    hide PrintText, Print;
    assert items[0].value < items[0];
  }

  lemma EnvelopePieces(recordType: string, version: string, c: Value)
    requires Printable(c)
    ensures Printable(Envelope(recordType, version, c))
    ensures Print(Envelope(recordType, version, c)) == Enveloped(Print(c), PrintText(U(recordType)), PrintText(U(version)))
  {
    hide PrintText, Canonicalise;
    var items := Envelope(recordType, version, c).items;
    forall i | 0 <= i < |items| ensures items[i].key.TextKey? && Printable(items[i].value) {
      assert i != 1 ==> items[i].value.Leaf?;
    }
    var r1, r2, r3 := items[1..], items[2..], items[3..];
    assert r1[1..] == r2 && r2[1..] == r3;
    MembersCons(items);
    MembersCons(r1);
    MembersCons(r2);
    assert PrintMembers(r3) == PrintText(U("schema_version")) + ":" + Print(S(version));
    assert Print(S(version)) == PrintText(U(version)) && Print(S(recordType)) == PrintText(U(recordType));
    assert Print(S("govengine")) == PrintText(U("govengine"));
    PlainPrints("owner");
    PlainPrints("govengine");
    PlainPrints("record");
    PlainPrints("record_type");
    PlainPrints("schema_version");
  }
}
