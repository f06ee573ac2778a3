/** A parser for the emitted JSON subset, and the proof that it undoes the printer. */
module CanonicalParser {
  import opened Prelude
  import opened PyValues
  import opened CanonicalRecord

  /** What can be read back from the text: strings come back as UTF-16 code units. */
  datatype Wire =
    | WNull
    | WBool(b: bool)
    | WNumber(text: string)
    | WText(units: seq<int>)
    | WObject(members: seq<WMember>)
    | WArray(elems: seq<Wire>)

  datatype WMember = WMember(name: seq<int>, value: Wire)

  function HexValue(c: char): Option<int> {
    if '0' <= c <= '9' then Some(c as int - 48)
    else if 'a' <= c <= 'f' then Some(c as int - 87)
    else None
  }

  /** Reads one code unit of a string literal. */
  function ParseUnit(t: string): (r: Option<(int, string)>)
    ensures r.Some? ==> |r.value.1| < |t|
  {
    if t == "" then None
    else if t[0] != '\\' then Some((t[0] as int, t[1..]))
    else if |t| < 2 then None
    else
      match t[1]
      case '"' => Some((34, t[2..]))
      case '\\' => Some((92, t[2..]))
      case 'b' => Some((8, t[2..]))
      case 't' => Some((9, t[2..]))
      case 'n' => Some((10, t[2..]))
      case 'f' => Some((12, t[2..]))
      case 'r' => Some((13, t[2..]))
      case 'u' =>
        if |t| < 6 then None
        else
          (match (HexValue(t[2]), HexValue(t[3]), HexValue(t[4]), HexValue(t[5]))
           case (Some(a), Some(b), Some(c), Some(d)) => Some((4096 * a + 256 * b + 16 * c + d, t[6..]))
           case _ => None)
      case _ => None
  }

  /** Reads the rest of a string literal, including its closing quote. */
  function ParseUnits(t: string): (r: Option<(seq<int>, string)>)
    ensures r.Some? ==> |r.value.1| < |t|
    decreases |t|
  {
    if t == "" then None
    else if t[0] == '"' then Some(([], t[1..]))
    else
      match ParseUnit(t)
      case None => None
      case Some((u, rest)) =>
        match ParseUnits(rest)
        case None => None
        case Some((us, rest')) => Some(([u] + us, rest'))
  }

  function NumberPrefix(t: string): (r: string)
    ensures |r| <= |t| && r == t[..|r|]
  {
    if t != "" && NumberChar(t[0]) then [t[0]] + NumberPrefix(t[1..]) else ""
  }

  predicate StartsWith(t: string, p: string) {
    |p| <= |t| && t[..|p|] == p
  }

  function ParseValue(t: string): (r: Option<(Wire, string)>)
    ensures r.Some? ==> |r.value.1| < |t|
    decreases |t|, 0
  {
    if t == "" then None
    else if t[0] == 'n' then if StartsWith(t, "null") then Some((WNull, t[4..])) else None
    else if t[0] == 't' then if StartsWith(t, "true") then Some((WBool(true), t[4..])) else None
    else if t[0] == 'f' then if StartsWith(t, "false") then Some((WBool(false), t[5..])) else None
    else if t[0] == '"' then
      match ParseUnits(t[1..])
      case None => None
      case Some((us, rest)) => Some((WText(us), rest))
    else if t[0] == '[' then
      if |t| > 1 && t[1] == ']' then Some((WArray([]), t[2..]))
      else
        match ParseElems(t[1..])
        case None => None
        case Some((ws, rest)) => Some((WArray(ws), rest))
    else if t[0] == '{' then
      if |t| > 1 && t[1] == '}' then Some((WObject([]), t[2..]))
      else
        match ParseMembers(t[1..])
        case None => None
        case Some((ms, rest)) => Some((WObject(ms), rest))
    else
      var number := NumberPrefix(t);
      if number == "" then None else Some((WNumber(number), t[|number|..]))
  }

  function ParseElems(t: string): (r: Option<(seq<Wire>, string)>)
    ensures r.Some? ==> |r.value.1| < |t|
    decreases |t|, 1
  {
    match ParseValue(t)
    case None => None
    case Some((w, rest)) =>
      if rest == "" then None
      else if rest[0] == ']' then Some(([w], rest[1..]))
      else if rest[0] == ',' then
        match ParseElems(rest[1..])
        case None => None
        case Some((ws, rest')) => Some(([w] + ws, rest'))
      else None
  }

  function ParseMembers(t: string): (r: Option<(seq<WMember>, string)>)
    ensures r.Some? ==> |r.value.1| < |t|
    decreases |t|, 1
  {
    if t == "" || t[0] != '"' then None
    else
      match ParseUnits(t[1..])
      case None => None
      case Some((name, rest)) =>
        if rest == "" || rest[0] != ':' then None
        else
          match ParseValue(rest[1..])
          case None => None
          case Some((w, rest')) =>
            if rest' == "" then None
            else if rest'[0] == '}' then Some(([WMember(name, w)], rest'[1..]))
            else if rest'[0] == ',' then
              match ParseMembers(rest'[1..])
              case None => None
              case Some((ms, rest'')) => Some(([WMember(name, w)] + ms, rest''))
            else None
  }

  // ------------------------------------------------------ what was printed

  function WireAtom(a: Atom): Wire
    requires Printable(Leaf(a))
  {
    match a
    case NoneValue => WNull
    case Bool(b) => WBool(b)
    case Int(i) => WNumber(PrintInt(i))
    case Real(f) => WNumber(f.text)
    case Text(s) => WText(Utf16(s))
  }

  function ToWire(v: Value): Wire
    requires Printable(v)
  {
    match v
    case Leaf(a) => WireAtom(a)
    case Dict(items) => WObject(WireMembers(items))
    case List(_, elems) => WArray(WireElems(elems))
  }

  function WireMembers(items: seq<Item>): (r: seq<WMember>)
    requires forall i :: 0 <= i < |items| ==> items[i].key.TextKey? && Printable(items[i].value)
    ensures |r| == |items|
  {
    if items == [] then []
    else
      assert items[0].value < items[0];
      [WMember(Utf16(items[0].key.text), ToWire(items[0].value))] + WireMembers(items[1..])
  }

  function WireElems(elems: seq<Value>): (r: seq<Wire>)
    requires forall i :: 0 <= i < |elems| ==> Printable(elems[i])
    ensures |r| == |elems|
  {
    if elems == [] then [] else [ToWire(elems[0])] + WireElems(elems[1..])
  }

  // ------------------------------------------------------------ round trip

  /** No number can be continued by `rest`. */
  predicate Stops(rest: string) {
    rest == "" || !NumberChar(rest[0])
  }

  lemma HexRoundTrip(n: int)
    requires 0 <= n < 16
    ensures HexValue(HexDigit(n)) == Some(n)
  {
  }

  lemma HexEscapeRoundTrip(a: int, b: int, c: int, d: int, rest: string)
    requires 0 <= a < 16 && 0 <= b < 16 && 0 <= c < 16 && 0 <= d < 16
    ensures ParseUnit(['\\', 'u', HexDigit(a), HexDigit(b), HexDigit(c), HexDigit(d)] + rest)
            == Some((4096 * a + 256 * b + 16 * c + d, rest))
  {
    var t := ['\\', 'u', HexDigit(a), HexDigit(b), HexDigit(c), HexDigit(d)] + rest;
    assert t[6..] == rest;
    HexRoundTrip(a);
    HexRoundTrip(b);
    HexRoundTrip(c);
    HexRoundTrip(d);
  }

  lemma HexDigitsOf(u: int)
    requires 0 <= u < 0x1_0000
    ensures 0 <= u / 4096 < 16
    ensures 4096 * (u / 4096) + 256 * (u / 256 % 16) + 16 * (u / 16 % 16) + u % 16 == u
  {
    assert u / 256 == 16 * (u / 4096) + u / 256 % 16;
    assert u / 16 == 16 * (u / 256) + u / 16 % 16;
  }

  lemma ShortEscapeRoundTrip(c: char, rest: string)
    requires c in "\"\\btnfr"
    ensures ParseUnit(['\\', c] + rest) ==
            Some((match c case '"' => 34 case '\\' => 92 case 'b' => 8 case 't' => 9
                          case 'n' => 10 case 'f' => 12 case _ => 13, rest))
  {
    var t := ['\\', c] + rest;
    assert t[2..] == rest;
  }

  lemma UnitRoundTrip(u: int, rest: string)
    requires 0 <= u < 0x1_0000
    ensures ParseUnit(EscapeUnit(u) + rest) == Some((u, rest))
    ensures EscapeUnit(u) != "" && EscapeUnit(u)[0] != '"'
  {
    if u in {8, 9, 10, 12, 13, 34, 92} {
      ShortEscapeRoundTrip(EscapeUnit(u)[1], rest);
    } else if 32 <= u <= 126 {
      assert ([u as char] + rest)[1..] == rest;
    } else {
      HexDigitsOf(u);
      HexEscapeRoundTrip(u / 4096, u / 256 % 16, u / 16 % 16, u % 16, rest);
    }
  }

  lemma {:induction false} UnitsRoundTrip(us: seq<int>, rest: string)
    requires forall i :: 0 <= i < |us| ==> 0 <= us[i] < 0x1_0000
    ensures ParseUnits(EscapeUnits(us) + "\"" + rest) == Some((us, rest))
  {
    var t := EscapeUnits(us) + "\"" + rest;
    if us == [] {
      assert t == "\"" + rest;
    } else {
      var tail := EscapeUnits(us[1..]) + "\"" + rest;
      assert t == EscapeUnit(us[0]) + tail;
      UnitRoundTrip(us[0], tail);
      UnitsRoundTrip(us[1..], rest);
      assert us == [us[0]] + us[1..];
    }
  }

  lemma {:induction false} NumberPrefixExact(n: string, rest: string)
    requires forall i :: 0 <= i < |n| ==> NumberChar(n[i])
    requires Stops(rest)
    ensures NumberPrefix(n + rest) == n
  {
    if n == "" {
      assert n + rest == rest;
    } else {
      assert (n + rest)[1..] == n[1..] + rest;
      NumberPrefixExact(n[1..], rest);
    }
  }

  lemma NumberRoundTrip(n: string, rest: string)
    requires n != "" && (n[0] == '-' || '0' <= n[0] <= '9')
    requires forall i :: 0 <= i < |n| ==> NumberChar(n[i])
    requires Stops(rest)
    ensures ParseValue(n + rest) == Some((WNumber(n), rest))
  {
    NumberPrefixExact(n, rest);
    assert (n + rest)[|n|..] == rest;
  }

  lemma WordRoundTrip(word: string, rest: string)
    requires word in {"null", "true", "false"}
    ensures ParseValue(word + rest) == Some((if word == "null" then WNull else WBool(word == "true"), rest))
  {
    var t := word + rest;
    assert t[..|word|] == word && t[|word|..] == rest;
  }

  lemma TextRoundTrip(s: Str, rest: string)
    ensures ParseValue(PrintText(s) + rest) == Some((WText(Utf16(s)), rest))
  {
    hide ParseUnits, EscapeUnits, Utf16, ParseElems, ParseMembers;
    var t := PrintText(s) + rest;
    assert t[0] == '"' && t[1..] == EscapeUnits(Utf16(s)) + "\"" + rest;
    UnitsRoundTrip(Utf16(s), rest);
  }

  lemma AtomRoundTrip(a: Atom, rest: string)
    requires Printable(Leaf(a)) && Stops(rest)
    ensures ParseValue(PrintAtom(a) + rest) == Some((WireAtom(a), rest))
    ensures PrintAtom(a) != "" && PrintAtom(a)[0] !in {']', '}'}
  {
    match a
    case NoneValue => WordRoundTrip("null", rest);
    case Bool(b) => WordRoundTrip(if b then "true" else "false", rest);
    case Int(i) => NumberRoundTrip(PrintInt(i), rest);
    case Real(f) => NumberRoundTrip(f.text, rest);
    case Text(s) => TextRoundTrip(s, rest);
  }

  lemma BracketedArray(body: string, ws: seq<Wire>, rest: string)
    requires body != "" && body[0] != ']'
    requires ParseElems(body + "]" + rest) == Some((ws, rest))
    ensures ParseValue("[" + body + "]" + rest) == Some((WArray(ws), rest))
  {
    var t := "[" + body + "]" + rest;
    assert t[1..] == body + "]" + rest;
  }

  lemma BracketedObject(body: string, ms: seq<WMember>, rest: string)
    requires body != "" && body[0] != '}'
    requires ParseMembers(body + "}" + rest) == Some((ms, rest))
    ensures ParseValue("{" + body + "}" + rest) == Some((WObject(ms), rest))
  {
    var t := "{" + body + "}" + rest;
    assert t[1..] == body + "}" + rest;
  }

  lemma {:induction false} RoundTrip(v: Value, rest: string)
    requires Printable(v) && Stops(rest)
    ensures ParseValue(Print(v) + rest) == Some((ToWire(v), rest))
    ensures Print(v) != "" && Print(v)[0] !in {']', '}'}
    decreases v, 0
  {
    match v
    case Leaf(a) => AtomRoundTrip(a, rest);
    case Dict(items) =>
      if items == [] {
        assert ("{}" + rest)[2..] == rest;
      } else {
        MembersRoundTrip(items, rest);
        BracketedObject(PrintMembers(items), WireMembers(items), rest);
      }
    case List(_, elems) =>
      if elems == [] {
        assert ("[]" + rest)[2..] == rest;
      } else {
        ElemsRoundTrip(elems, rest);
        BracketedArray(PrintElems(elems), WireElems(elems), rest);
      }
  }

  lemma {:induction false} ElemsRoundTrip(elems: seq<Value>, rest: string)
    requires elems != []
    requires forall i :: 0 <= i < |elems| ==> Printable(elems[i])
    ensures ParseElems(PrintElems(elems) + "]" + rest) == Some((WireElems(elems), rest))
    ensures PrintElems(elems) != "" && PrintElems(elems)[0] != ']'
    decreases elems, 1
  {
    var t := PrintElems(elems) + "]" + rest;
    if |elems| == 1 {
      assert t == Print(elems[0]) + ("]" + rest);
      RoundTrip(elems[0], "]" + rest);
      assert ("]" + rest)[1..] == rest;
      assert WireElems(elems[1..]) == [];
      assert WireElems(elems) == [ToWire(elems[0])];
    } else {
      var tail := PrintElems(elems[1..]) + "]" + rest;
      assert t == Print(elems[0]) + ("," + tail);
      RoundTrip(elems[0], "," + tail);
      assert ("," + tail)[1..] == tail;
      ElemsRoundTrip(elems[1..], rest);
    }
  }

  lemma Regroup(name: string, body: string, tail: string)
    ensures (name + ":" + body) + tail == name + (":" + (body + tail))
  {
  }

  lemma RegroupList(head: string, more: string, rest: string)
    ensures head + "," + more + "}" + rest == head + ("," + (more + "}" + rest))
  {
  }

  lemma LastMemberText(items: seq<Item>, rest: string)
    requires |items| == 1 && items[0].key.TextKey? && Printable(items[0].value)
    ensures PrintMembers(items) + "}" + rest
            == PrintText(items[0].key.text) + (":" + (Print(items[0].value) + ("}" + rest)))
  {
    Regroup(PrintText(items[0].key.text), Print(items[0].value), "}" + rest);
    assert PrintMembers(items) + "}" + rest == PrintMembers(items) + ("}" + rest);
  }

  lemma NextMemberText(items: seq<Item>, rest: string)
    requires |items| > 1
    requires forall i :: 0 <= i < |items| ==> items[i].key.TextKey? && Printable(items[i].value)
    ensures PrintMembers(items) + "}" + rest
            == PrintText(items[0].key.text) + (":" + (Print(items[0].value) + ("," + (PrintMembers(items[1..]) + "}" + rest))))
  {
    var more := PrintMembers(items[1..]) + "}" + rest;
    var head := PrintText(items[0].key.text) + ":" + Print(items[0].value);
    Regroup(PrintText(items[0].key.text), Print(items[0].value), "," + more);
    RegroupList(head, PrintMembers(items[1..]), rest);
  }

  lemma {:induction false} OneMember(items: seq<Item>)
    requires |items| == 1 && items[0].key.TextKey? && Printable(items[0].value)
    ensures WireMembers(items) == [WMember(Utf16(items[0].key.text), ToWire(items[0].value))]
  {
    assert WireMembers(items[1..]) == [];
  }

  lemma LastMember(name: Str, body: string, w: Wire, rest: string)
    requires ParseValue(body + ("}" + rest)) == Some((w, "}" + rest))
    ensures ParseMembers(PrintText(name) + (":" + (body + ("}" + rest)))) == Some(([WMember(Utf16(name), w)], rest))
  {
    var after := ":" + (body + ("}" + rest));
    NameThen(name, after);
    assert after[1..] == body + ("}" + rest);
    assert ("}" + rest)[1..] == rest;
  }

  lemma NextMember(name: Str, body: string, w: Wire, more: string, ms: seq<WMember>, rest: string)
    requires ParseValue(body + ("," + more)) == Some((w, "," + more))
    requires ParseMembers(more) == Some((ms, rest))
    ensures ParseMembers(PrintText(name) + (":" + (body + ("," + more)))) == Some(([WMember(Utf16(name), w)] + ms, rest))
  {
    var after := ":" + (body + ("," + more));
    NameThen(name, after);
    assert after[1..] == body + ("," + more);
    assert ("," + more)[1..] == more;
  }

  lemma NameThen(name: Str, after: string)
    ensures (PrintText(name) + after)[0] == '"'
    ensures ParseUnits((PrintText(name) + after)[1..]) == Some((Utf16(name), after))
  {
    assert (PrintText(name) + after)[1..] == EscapeUnits(Utf16(name)) + "\"" + after;
    UnitsRoundTrip(Utf16(name), after);
  }

  lemma {:induction false} MembersRoundTrip(items: seq<Item>, rest: string)
    requires items != []
    requires forall i :: 0 <= i < |items| ==> items[i].key.TextKey? && Printable(items[i].value)
    ensures ParseMembers(PrintMembers(items) + "}" + rest) == Some((WireMembers(items), rest))
    ensures PrintMembers(items) != "" && PrintMembers(items)[0] == '"'
    decreases items, 1
  {
    assert items[0].value < items[0];
    var name, body, w := items[0].key.text, Print(items[0].value), ToWire(items[0].value);
    if |items| == 1 {
      LastMemberText(items, rest);
      RoundTrip(items[0].value, "}" + rest);
      LastMember(name, body, w, rest);
      OneMember(items);
    } else {
      var more := PrintMembers(items[1..]) + "}" + rest;
      NextMemberText(items, rest);
      RoundTrip(items[0].value, "," + more);
      MembersRoundTrip(items[1..], rest);
      NextMember(name, body, w, more, WireMembers(items[1..]), rest);
    }
  }

  /** The parser undoes the printer: nothing is left over, and every printable value is recovered
      as its wire form. */
  lemma ParserUndoesPrinter(v: Value)
    requires Printable(v)
    ensures ParseValue(Print(v)) == Some((ToWire(v), ""))
  {
    RoundTrip(v, "");
    assert Print(v) + "" == Print(v);
  }
}
