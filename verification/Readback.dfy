/** The canonical text is unambiguous and order-free. */
module Readback {
  import opened Prelude
  import opened PyValues
  import opened CanonicalRecord
  import opened CanonicalParser

  // ------------------------------------------------- strings and surrogates

  predicate High(u: int) { 0xD800 <= u < 0xDC00 }

  predicate Low(u: int) { 0xDC00 <= u < 0xE000 }

  /** No high surrogate is directly followed by a low one. */
  predicate NoSplitPair(s: Str) {
    forall i :: 0 <= i < |s| - 1 ==> !(High(s[i]) && Low(s[i + 1]))
  }

  /** The string a JSON reader builds from UTF-16 code units. */
  function Join(us: seq<int>): (s: Str)
    requires forall i :: 0 <= i < |us| ==> 0 <= us[i] < 0x1_0000
  {
    if us == [] then []
    else if |us| >= 2 && High(us[0]) && Low(us[1]) then
      [Astral(us[0], us[1])] + Join(us[2..])
    else [us[0]] + Join(us[1..])
  }

  lemma {:induction false} JoinOfUtf16(s: Str)
    requires NoSplitPair(s)
    ensures Join(Utf16(s)) == s
  {
    if s != [] {
      var us := Units(s[0]);
      var rest := Utf16(s[1..]);
      JoinOfUtf16(s[1..]);
      if s[0] >= 0x1_0000 {
        assert Utf16(s)[2..] == rest;
      } else {
        assert Utf16(s)[1..] == rest;
        if High(s[0]) && |s| > 1 {
          assert rest[0] == Units(s[1])[0];
        }
      }
    }
  }

  /** The character a surrogate pair stands for. */
  function Astral(h: int, l: int): (c: CodePoint)
    requires High(h) && Low(l)
  {
    0x1_0000 + (h - 0xD800) * 0x400 + (l - 0xDC00)
  }

  lemma AstralUnits(h: int, l: int)
    requires High(h) && Low(l)
    ensures 0x1_0000 <= Astral(h, l) < 0x11_0000 && Units(Astral(h, l)) == [h, l]
  {
  }

  lemma {:induction false} Utf16OfJoin(us: seq<int>)
    requires forall i :: 0 <= i < |us| ==> 0 <= us[i] < 0x1_0000
    ensures Utf16(Join(us)) == us
  {
    hide Units, Utf16, Join, High, Low;
    JoinCases(us);
    if us != [] {
      if |us| >= 2 && High(us[0]) && Low(us[1]) {
        AstralUnits(us[0], us[1]);
        Utf16OfJoin(us[2..]);
        Utf16OfCons(Astral(us[0], us[1]), Join(us[2..]));
        assert us == [us[0], us[1]] + us[2..];
      } else {
        BasicUnit(us[0]);
        Utf16OfJoin(us[1..]);
        Utf16OfCons(us[0], Join(us[1..]));
        assert us == [us[0]] + us[1..];
      }
    } else {
      Utf16OfNothing();
    }
  }

  lemma JoinCases(us: seq<int>)
    requires forall i :: 0 <= i < |us| ==> 0 <= us[i] < 0x1_0000
    ensures us == [] ==> Join(us) == []
    ensures |us| >= 2 && High(us[0]) && Low(us[1]) ==> Join(us) == [Astral(us[0], us[1])] + Join(us[2..])
    ensures us != [] && !(|us| >= 2 && High(us[0]) && Low(us[1])) ==> Join(us) == [us[0]] + Join(us[1..])
  {
  }

  lemma Utf16OfNothing()
    ensures Utf16([]) == []
  {
  }

  lemma BasicUnit(u: int)
    requires 0 <= u < 0x1_0000
    ensures Units(u) == [u]
  {
  }

  lemma Utf16OfCons(c: CodePoint, rest: Str)
    ensures Utf16([c] + rest) == Units(c) + Utf16(rest)
  {
    hide Units;
    assert ([c] + rest)[1..] == rest;
  }

  lemma {:induction false} JoinHasNoSplitPair(us: seq<int>)
    requires forall i :: 0 <= i < |us| ==> 0 <= us[i] < 0x1_0000
    ensures NoSplitPair(Join(us))
    ensures us != [] ==> Join(us) != [] && (Low(Join(us)[0]) ==> Low(us[0]))
  {
    if us != [] {
      if |us| >= 2 && High(us[0]) && Low(us[1]) {
        AstralUnits(us[0], us[1]);
        JoinHasNoSplitPair(us[2..]);
      } else {
        JoinHasNoSplitPair(us[1..]);
      }
    }
  }

  /** Every split pair replaced by the astral element it prints as. */
  function JoinPairs(s: Str): Str {
    Join(Utf16(s))
  }

  /** Two strings print alike exactly when they agree once split pairs are joined, and joining
      changes exactly the strings that contain a split pair. */
  lemma TextAmbiguity(s: Str, t: Str)
    ensures PrintText(s) == PrintText(t) <==> JoinPairs(s) == JoinPairs(t)
    ensures JoinPairs(s) == s <==> NoSplitPair(s)
  {
    TextRoundTrip(s, "");
    TextRoundTrip(t, "");
    Utf16OfJoin(Utf16(s));
    Utf16OfJoin(Utf16(t));
    JoinHasNoSplitPair(Utf16(s));
    if NoSplitPair(s) {
      JoinOfUtf16(s);
    }
  }

  /** Two lone surrogates print like one astral element. */
  lemma SplitPairCollision()
    ensures PrintText([0xD800, 0xDC00]) == PrintText([0x1_0000])
  {
    assert Units(0xD800) + Utf16([0xDC00]) == Units(0x1_0000) + Utf16([]) by {
      assert Utf16([0xDC00]) == Units(0xDC00) + Utf16([]);
    }
    assert Utf16([0xD800, 0xDC00]) == Units(0xD800) + Utf16([0xD800, 0xDC00][1..]);
    assert [0xD800, 0xDC00][1..] == [0xDC00];
  }

  // ----------------------------------------------------------------- numbers

  function ReadDigits(t: string): int {
    if t == "" then 0 else 10 * ReadDigits(t[..|t| - 1]) + (t[|t| - 1] as int - 48)
  }

  lemma {:induction false} ReadDigitsBack(n: nat)
    ensures ReadDigits(Digits(n)) == n
  {
    if n >= 10 {
      ReadDigitsBack(n / 10);
      assert Digits(n)[..|Digits(n)| - 1] == Digits(n / 10);
    } else {
      assert Digits(n)[..0] == "";
    }
  }

  function ReadInt(t: string): int
    requires t != ""
  {
    if t[0] == '-' then -ReadDigits(t[1..]) else ReadDigits(t)
  }

  lemma {:induction false} ReadIntBack(i: int)
    ensures ReadInt(PrintInt(i)) == i
  {
    hide Digits, ReadDigits;
    var n := if i < 0 then -i else i;
    var t := Digits(n);
    ReadDigitsBack(n);
    assert t[0] != '-';
    assert i < 0 ==> ("-" + t)[1..] == t;
  }

  lemma IntTextIsNoFloatText(i: int, f: FloatText)
    ensures PrintInt(i) != f
  {
    assert '.' !in PrintInt(i) && 'e' !in PrintInt(i);
  }

  // ------------------------------------------------------ values read back

  /** No string of the value, keys included, contains a split pair. */
  predicate Unsplit(v: Value) {
    match v
    case Leaf(a) => a.Text? ==> NoSplitPair(a.s)
    case Dict(items) =>
      forall i :: 0 <= i < |items| ==> NoSplitPair(ShowKey(items[i].key)) && Unsplit(items[i].value)
    case List(_, elems) => forall i :: 0 <= i < |elems| ==> Unsplit(elems[i])
  }

  predicate NoTuples(v: Value) {
    match v
    case Leaf(_) => true
    case Dict(items) => forall i :: 0 <= i < |items| ==> NoTuples(items[i].value)
    case List(isTuple, elems) => !isTuple && forall i :: 0 <= i < |elems| ==> NoTuples(elems[i])
  }

  ghost predicate Readable(v: Value) {
    Printable(v) && Unsplit(v) && NoTuples(v)
  }

  lemma WireAtomInjective(a: Atom, b: Atom)
    requires Readable(Leaf(a)) && Readable(Leaf(b))
    requires WireAtom(a) == WireAtom(b)
    ensures a == b
  {
    match (a, b)
    case (Text(s), Text(t)) =>
      JoinOfUtf16(s);
      JoinOfUtf16(t);
    case (Int(i), Int(j)) =>
      ReadIntBack(i);
      ReadIntBack(j);
    case (Int(i), Real(f)) => IntTextIsNoFloatText(i, f.text);
    case (Real(f), Int(i)) => IntTextIsNoFloatText(i, f.text);
    case _ =>
  }

  lemma {:induction false} WireInjective(v: Value, w: Value)
    requires Readable(v) && Readable(w)
    requires ToWire(v) == ToWire(w)
    ensures v == w
    decreases v, 0
  {
    match (v, w)
    case (Leaf(a), Leaf(b)) => WireAtomInjective(a, b);
    case (Dict(items), Dict(items')) => WireMembersInjective(items, items');
    case (List(_, elems), List(_, elems')) => WireElemsInjective(elems, elems');
    case _ =>
  }

  lemma {:induction false} WireMembersInjective(s: seq<Item>, t: seq<Item>)
    requires Readable(Dict(s)) && Readable(Dict(t))
    requires WireMembers(s) == WireMembers(t)
    ensures s == t
    decreases s, 1
  {
    if s == [] {
      assert |WireMembers(t)| == 0;
    } else {
      assert |WireMembers(s)| == |s| && |WireMembers(t)| == |t|;
      assert s[0].value < s[0];
      assert WireMembers(s)[0] == WireMembers(t)[0];
      assert WireMembers(s)[1..] == WireMembers(s[1..]) && WireMembers(t)[1..] == WireMembers(t[1..]);
      JoinOfUtf16(s[0].key.text);
      JoinOfUtf16(t[0].key.text);
      WireInjective(s[0].value, t[0].value);
      WireMembersInjective(s[1..], t[1..]);
      assert s == [s[0]] + s[1..] && t == [t[0]] + t[1..];
    }
  }

  lemma {:induction false} WireElemsInjective(s: seq<Value>, t: seq<Value>)
    requires Readable(List(false, s)) && Readable(List(false, t))
    requires WireElems(s) == WireElems(t)
    ensures s == t
    decreases s, 1
  {
    if s == [] {
      assert |WireElems(t)| == 0;
    } else {
      assert |WireElems(s)| == |s| && |WireElems(t)| == |t|;
      assert WireElems(s)[0] == WireElems(t)[0];
      assert WireElems(s)[1..] == WireElems(s[1..]) && WireElems(t)[1..] == WireElems(t[1..]);
      WireInjective(s[0], t[0]);
      WireElemsInjective(s[1..], t[1..]);
      assert s == [s[0]] + s[1..] && t == [t[0]] + t[1..];
    }
  }

  lemma PrintInjective(v: Value, w: Value)
    requires Readable(v) && Readable(w)
    requires Print(v) == Print(w)
    ensures v == w
  {
    ParserUndoesPrinter(v);
    ParserUndoesPrinter(w);
    WireInjective(v, w);
  }

  // --------------------------------------------------- sorting, abstractly

  lemma {:induction false} InsertMembers<T>(e: Entry<T>, s: seq<Entry<T>>)
    ensures multiset(Insert(e, s)) == multiset{e} + multiset(s)
  {
    if s != [] && Before(ShowKey(s[0].key), ShowKey(e.key)) {
      InsertMembers(e, s[1..]);
      assert s == [s[0]] + s[1..];
    }
  }

  lemma {:induction false} InsertFills<T>(e: Entry<T>, s: seq<Entry<T>>)
    ensures Fill(Insert(e, s)) == map[e.key := e.value] + Fill(s)
  {
    hide Before, Fill;
    if s != [] && Before(ShowKey(s[0].key), ShowKey(e.key)) {
      InsertFills(e, s[1..]);
      BeforeIrreflexive(ShowKey(e.key));
      assert s[0].key != e.key;
      FillCons(s[0], Insert(e, s[1..]));
      FillCons(s[0], s[1..]);
      assert s == [s[0]] + s[1..];
      Swapped(map[s[0].key := s[0].value], map[e.key := e.value], Fill(s[1..]));
    } else {
      FillCons(e, s);
    }
  }

  lemma FillCons<T>(e: Entry<T>, s: seq<Entry<T>>)
    ensures Fill([e] + s) == map[e.key := e.value] + Fill(s)
  {
    assert ([e] + s)[1..] == s;
  }

  lemma Swapped<K, W>(a: map<K, W>, b: map<K, W>, c: map<K, W>)
    requires a.Keys !! b.Keys
    ensures a + (b + c) == b + (a + c)
  {
  }

  lemma {:induction false} BeforeIrreflexive(a: Str)
    ensures !Before(a, a)
  {
    if a != [] {
      BeforeIrreflexive(a[1..]);
    }
  }

  lemma {:induction false} BeforeTransitive(a: Str, b: Str, c: Str)
    requires Before(a, b) && Before(b, c)
    ensures Before(a, c)
  {
    if a != [] && a[0] == b[0] == c[0] {
      BeforeTransitive(a[1..], b[1..], c[1..]);
    }
  }

  lemma {:induction false} BeforeTotal(a: Str, b: Str)
    ensures Before(a, b) || a == b || Before(b, a)
  {
    if a != [] && b != [] && a[0] == b[0] {
      BeforeTotal(a[1..], b[1..]);
      assert a == [a[0]] + a[1..] && b == [b[0]] + b[1..];
    }
  }

  lemma {:induction false} SortMembers<T>(s: seq<Entry<T>>)
    ensures multiset(SortEntries(s)) == multiset(s)
    ensures Fill(SortEntries(s)) == Fill(s)
  {
    if s != [] {
      SortMembers(s[1..]);
      InsertMembers(s[0], SortEntries(s[1..]));
      InsertFills(s[0], SortEntries(s[1..]));
      assert s == [s[0]] + s[1..];
    }
  }

  lemma SortElement<T>(s: seq<Entry<T>>, i: nat)
    requires i < |s|
    ensures SortEntries(s)[i] in s && s[i] in SortEntries(s)
  {
    SortMembers(s);
    assert SortEntries(s)[i] in multiset(SortEntries(s)) && s[i] in multiset(s);
  }

  /** Applying a function to every value of an entry list. */
  function MapEntries<T, W>(f: T -> W, s: seq<Entry<T>>): (r: seq<Entry<W>>)
    ensures |r| == |s|
    ensures forall i :: 0 <= i < |s| ==> r[i] == Entry(s[i].key, f(s[i].value))
  {
    if s == [] then [] else [Entry(s[0].key, f(s[0].value))] + MapEntries(f, s[1..])
  }

  lemma {:induction false} InsertNatural<T, W>(f: T -> W, e: Entry<T>, s: seq<Entry<T>>)
    ensures MapEntries(f, Insert(e, s)) == Insert(Entry(e.key, f(e.value)), MapEntries(f, s))
  {
    if s != [] && Before(ShowKey(s[0].key), ShowKey(e.key)) {
      InsertNatural(f, e, s[1..]);
    }
  }

  lemma {:induction false} SortNatural<T, W>(f: T -> W, s: seq<Entry<T>>)
    ensures MapEntries(f, SortEntries(s)) == SortEntries(MapEntries(f, s))
  {
    if s != [] {
      SortNatural(f, s[1..]);
      InsertNatural(f, s[0], SortEntries(s[1..]));
    }
  }

  ghost predicate StrictlySorted<T>(s: seq<Entry<T>>) {
    forall i, j :: 0 <= i < j < |s| ==> Before(ShowKey(s[i].key), ShowKey(s[j].key))
  }

  lemma ConsSorted<T>(e: Entry<T>, s: seq<Entry<T>>)
    requires StrictlySorted(s)
    requires s != [] ==> Before(ShowKey(e.key), ShowKey(s[0].key))
    ensures StrictlySorted([e] + s)
  {
    forall j | 0 <= j < |s| ensures Before(ShowKey(e.key), ShowKey(s[j].key)) {
      if j > 0 {
        BeforeTransitive(ShowKey(e.key), ShowKey(s[0].key), ShowKey(s[j].key));
      }
    }
  }

  lemma {:induction false} InsertSorted<T>(e: Entry<T>, s: seq<Entry<T>>)
    requires StrictlySorted(s)
    requires forall i :: 0 <= i < |s| ==> ShowKey(s[i].key) != ShowKey(e.key)
    ensures StrictlySorted(Insert(e, s))
  {
    if s == [] {
    } else if Before(ShowKey(s[0].key), ShowKey(e.key)) {
      InsertSorted(e, s[1..]);
      ConsSorted(s[0], Insert(e, s[1..]));
    } else {
      BeforeTotal(ShowKey(s[0].key), ShowKey(e.key));
      ConsSorted(e, s);
    }
  }

  lemma {:induction false} SortSorts<T>(s: seq<Entry<T>>)
    requires DistinctKeys(s) && AllTextKeys(s)
    ensures StrictlySorted(SortEntries(s))
  {
    if s != [] {
      var t := SortEntries(s[1..]);
      SortSorts(s[1..]);
      forall i | 0 <= i < |t| ensures ShowKey(t[i].key) != ShowKey(s[0].key) {
        SortElement(s[1..], i);
        var j :| 0 <= j < |s[1..]| && s[1..][j] == t[i];
        assert s[j + 1].key != s[0].key;
      }
      InsertSorted(s[0], t);
    }
  }

  lemma StrictlySortedDistinct<T>(s: seq<Entry<T>>)
    requires StrictlySorted(s)
    ensures DistinctKeys(s)
  {
    forall i, j | 0 <= i < j < |s| ensures s[i].key != s[j].key {
      BeforeIrreflexive(ShowKey(s[i].key));
    }
  }

  /** The smallest key of a filled dictionary is the first key of its sorted entries. */
  lemma FirstIsLeast<T>(s: seq<Entry<T>>, k: Key)
    requires StrictlySorted(s) && s != [] && k in Fill(s)
    ensures k == s[0].key || Before(ShowKey(s[0].key), ShowKey(k))
  {
    FillDomain(s, k);
  }

  lemma {:induction false} SortedUnique<T>(s: seq<Entry<T>>, t: seq<Entry<T>>)
    requires StrictlySorted(s) && StrictlySorted(t) && Fill(s) == Fill(t)
    ensures s == t
  {
    StrictlySortedDistinct(s);
    StrictlySortedDistinct(t);
    if s == [] {
      if t != [] {
        FillAt(t, 0);
        assert false;
      }
    } else {
      FillAt(s, 0);
      assert t != [];
      FillAt(t, 0);
      FirstIsLeast(s, t[0].key);
      FirstIsLeast(t, s[0].key);
      if s[0].key != t[0].key {
        BeforeTransitive(ShowKey(s[0].key), ShowKey(t[0].key), ShowKey(s[0].key));
        BeforeIrreflexive(ShowKey(s[0].key));
      }
      FillDomain(s[1..], s[0].key);
      FillDomain(t[1..], s[0].key);
      assert Fill(s[1..]) == Fill(s) - {s[0].key};
      assert Fill(t[1..]) == Fill(t) - {s[0].key};
      SortedUnique(s[1..], t[1..]);
      assert s == [s[0]] + s[1..] && t == [t[0]] + t[1..];
    }
  }
}
