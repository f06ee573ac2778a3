/** The streaming search for armoured key material (`govengine/_trust_references.py`). */
module ArmorScan {
  import opened PyStrings

  const MARKERS := ["PRIVATEKEY", "PUBLICKEY", "CERTIFICATE"]

  /** One less than the longest marker. */
  const CARRY_LENGTH := 10

  const DASHES := "-----"

  /** `str.upper` works character by character; nothing is known of it except on the dash. */
  type Upper = char -> string

  predicate DashFixed(up: Upper) {
    up('-') == "-"
  }

  predicate OccursAt(p: string, t: string, i: nat) {
    i + |p| <= |t| && t[i..i + |p|] == p
  }

  ghost predicate Occurs(p: string, t: string) {
    exists i: nat :: OccursAt(p, t, i)
  }

  /** `t.find(p, start)`; -1 when there is no occurrence. */
  function Find(t: string, p: string, start: nat): (r: int)
    ensures r == -1 || (start <= r && OccursAt(p, t, r))
    ensures forall i: nat :: start <= i && (r == -1 || i < r) ==> !OccursAt(p, t, i)
    decreases |t| - start
  {
    if start + |p| > |t| then -1
    else if OccursAt(p, t, start) then start
    else Find(t, p, start + 1)
  }

  /** The letters A to Z of the upper-cased text. */
  function Letters(up: Upper, s: string): string {
    if s == "" then "" else KeepLetters(up(s[0])) + Letters(up, s[1..])
  }

  function KeepLetters(s: string): string {
    if s == "" then ""
    else if 'A' <= s[0] <= 'Z' then [s[0]] + KeepLetters(s[1..])
    else KeepLetters(s[1..])
  }

  lemma {:induction false} LettersOfConcat(up: Upper, s: string, t: string)
    ensures Letters(up, s + t) == Letters(up, s) + Letters(up, t)
  {
    if s == "" {
      assert s + t == t;
    } else {
      assert (s + t)[1..] == s[1..] + t;
      LettersOfConcat(up, s[1..], t);
    }
  }

  lemma {:induction false} DashesHaveNoLetters(up: Upper, s: string)
    requires DashFixed(up) && forall i :: 0 <= i < |s| ==> s[i] == '-'
    ensures Letters(up, s) == ""
  {
    if s != "" {
      assert s[0] == '-' && KeepLetters("-") == KeepLetters("");
      DashesHaveNoLetters(up, s[1..]);
    }
  }

  /** Some marker occurs in the text. */
  ghost predicate HasMarker(t: string) {
    exists k :: 0 <= k < |MARKERS| && Occurs(MARKERS[k], t)
  }

  // ------------------------------------------------------------- the carry

  function Tail(t: string, n: nat): string {
    if |t| <= n then t else t[|t| - n..]
  }

  lemma MarkerLengths(k: nat)
    requires k < |MARKERS|
    ensures 0 < |MARKERS[k]| <= CARRY_LENGTH + 1
  {
  }

  lemma OccursInLonger(p: string, a: string, b: string, c: string)
    requires Occurs(p, b)
    ensures Occurs(p, a + b + c)
  {
    var i: nat :| OccursAt(p, b, i);
    assert (a + b + c)[|a| + i..|a| + i + |p|] == b[i..i + |p|];
    assert OccursAt(p, a + b + c, |a| + i);
  }

  /** A pattern no longer than the carry plus one either occurs before the seam or is seen across it. */
  lemma CarrySuffices(p: string, read: string, piece: string, n: nat)
    requires 0 < |p| <= n + 1
    ensures Occurs(p, read + piece) <==> Occurs(p, read) || Occurs(p, Tail(read, n) + piece)
  {
    var whole, window := read + piece, Tail(read, n) + piece;
    var cut := |read| - |Tail(read, n)|;
    assert whole == read[..cut] + window;
    if i: nat :| OccursAt(p, whole, i) {
      if i + |p| <= |read| {
        assert read[i..i + |p|] == whole[i..i + |p|];
        assert OccursAt(p, read, i);
      } else {
        assert window[i - cut..i - cut + |p|] == whole[i..i + |p|];
        assert OccursAt(p, window, i - cut);
      }
    }
    if Occurs(p, read) {
      OccursInLonger(p, "", read, piece);
      assert "" + read + piece == whole;
    }
    if Occurs(p, window) {
      OccursInLonger(p, read[..cut], window, "");
      assert read[..cut] + window + "" == whole;
    }
  }

  lemma MarkersSeenThroughCarry(read: string, piece: string)
    requires !HasMarker(read)
    ensures HasMarker(read + piece) <==> HasMarker(Tail(read, CARRY_LENGTH) + piece)
  {
    forall k | 0 <= k < |MARKERS|
      ensures Occurs(MARKERS[k], read + piece) <==> Occurs(MARKERS[k], Tail(read, CARRY_LENGTH) + piece)
    {
      MarkerLengths(k);
      CarrySuffices(MARKERS[k], read, piece, CARRY_LENGTH);
      assert !Occurs(MARKERS[k], read);
    }
  }

  lemma TailOfTail(read: string, piece: string, n: nat)
    ensures Tail(Tail(read, n) + piece, n) == Tail(read + piece, n)
  {
  }

  // ------------------------------------------------------------ label text

  /** Everything the labels between successive delimiters say, from a delimiter at `opening` on. */
  function LabelText(up: Upper, reference: string, opening: int): string
    requires opening == -1 || (0 <= opening && OccursAt(DASHES, reference, opening))
    decreases |reference| - opening
  {
    if opening < 0 then ""
    else
      var closing := Find(reference, DASHES, opening + 5);
      if closing < 0 then ""
      else Letters(up, reference[opening + 5..closing]) + LabelText(up, reference, closing)
  }

  lemma NoMarkerInNothing()
    ensures !HasMarker("")
  {
    forall k | 0 <= k < |MARKERS| ensures !Occurs(MARKERS[k], "") {
      MarkerLengths(k);
    }
  }

  lemma MarkerInLonger(a: string, b: string, c: string)
    requires HasMarker(b)
    ensures HasMarker(a + b + c)
  {
    var k :| 0 <= k < |MARKERS| && Occurs(MARKERS[k], b);
    OccursInLonger(MARKERS[k], a, b, c);
  }

  /** `any(marker in text for marker in MARKERS)`. */
  predicate AnyMarker(t: string) {
    exists k :: 0 <= k < |MARKERS| && Find(t, MARKERS[k], 0) >= 0
  }

  lemma AnyMarkerExact(t: string)
    ensures AnyMarker(t) <==> HasMarker(t)
  {
    forall k | 0 <= k < |MARKERS| ensures Find(t, MARKERS[k], 0) >= 0 <==> Occurs(MARKERS[k], t) {
    }
  }

  /** One more segment: the carry decides whether a marker is complete by now. */
  lemma SegmentStep(up: Upper, reference: string, opening: nat, closing: int, read: string)
    requires OccursAt(DASHES, reference, opening) && closing == Find(reference, DASHES, opening + 5) && closing >= 0
    requires !HasMarker(read)
    ensures var piece := Letters(up, reference[opening + 5..closing]);
            var combined := Tail(read, CARRY_LENGTH) + piece;
            && (HasMarker(combined) ==> HasMarker(read + LabelText(up, reference, opening)))
            && (!HasMarker(combined) ==> !HasMarker(read + piece))
            && Tail(combined, CARRY_LENGTH) == Tail(read + piece, CARRY_LENGTH)
            && read + LabelText(up, reference, opening) == read + piece + LabelText(up, reference, closing)
  {
    hide Letters, HasMarker;
    var piece, more := Letters(up, reference[opening + 5..closing]), LabelText(up, reference, closing);
    MarkersSeenThroughCarry(read, piece);
    TailOfTail(read, piece, CARRY_LENGTH);
    assert read + (piece + more) == read + piece + more;
    if HasMarker(read + piece) {
      MarkerInLonger("", read + piece, more);
      assert "" + (read + piece) + more == read + piece + more;
    }
  }

  /** The segment-by-segment search with a bounded carry finds exactly the markers of the whole label text. */
  method ContainsArmor(up: Upper, reference: string) returns (r: bool)
    ensures r <==> HasMarker(LabelText(up, reference, Find(reference, DASHES, 0)))
    ensures DashFixed(up) ==> (r <==> Armoured(up, reference))
  {
    hide Letters, HasMarker, AnyMarker, Armoured, DashFixed, Tail;
    if DashFixed(up) {
      ArmouredIffLabelled(up, reference);
    }
    NoMarkerInNothing();
    TailOfNothing();
    var opening := Find(reference, DASHES, 0);
    var carry := "";
    ghost var whole := LabelText(up, reference, opening);
    ghost var read := "";
    while opening >= 0
      invariant opening == -1 || OccursAt(DASHES, reference, opening)
      invariant carry == Tail(read, CARRY_LENGTH) && !HasMarker(read)
      invariant whole == read + LabelText(up, reference, opening)
      decreases |reference| - opening
    {
      var closing := Find(reference, DASHES, opening + 5);
      if closing < 0 {
        assert whole == read;
        return false;
      }
      SegmentStep(up, reference, opening, closing, read);
      var piece := Letters(up, reference[opening + 5..closing]);
      var combined := carry + piece;
      AnyMarkerExact(combined);
      if AnyMarker(combined) {
        return true;
      }
      carry := Tail(combined, CARRY_LENGTH);
      read := read + piece;
      opening := closing;
    }
    return false;
  }

  lemma TailOfNothing()
    ensures Tail("", CARRY_LENGTH) == ""
  {
  }

  // ------------------------------------------- independent characterisation

  ghost predicate IsFirst(p: string, t: string, i: nat) {
    OccursAt(p, t, i) && forall j: nat :: j < i ==> !OccursAt(p, t, j)
  }

  ghost predicate IsLast(p: string, t: string, i: nat) {
    OccursAt(p, t, i) && forall j: nat :: i < j ==> !OccursAt(p, t, j)
  }

  /** Some marker is spelled by the letters between the first and the last run of five dashes. */
  ghost predicate Armoured(up: Upper, reference: string) {
    exists first: nat, last: nat ::
      IsFirst(DASHES, reference, first) && IsLast(DASHES, reference, last) && first <= last
      && HasMarker(Letters(up, reference[first..last]))
  }

  lemma DashRun(t: string, i: nat, k: nat)
    requires OccursAt(DASHES, t, i) && i <= k <= i + 5
    ensures forall j :: 0 <= j < k - i ==> t[i..k][j] == '-'
  {
    forall j | 0 <= j < k - i ensures t[i..k][j] == '-' {
      assert t[i..i + 5][j] == DASHES[j];
    }
  }

  lemma {:induction false} LabelTextIsSpan(up: Upper, t: string, opening: nat, last: nat)
    requires DashFixed(up) && OccursAt(DASHES, t, opening) && IsLast(DASHES, t, last) && opening <= last
    ensures LabelText(up, t, opening) == Letters(up, t[opening..last])
    decreases |t| - opening
  {
    hide Letters;
    var closing := Find(t, DASHES, opening + 5);
    if closing < 0 {
      assert last < opening + 5;
      DashRun(t, opening, last);
      DashesHaveNoLetters(up, t[opening..last]);
    } else {
      assert closing <= last;
      var a, b, c := t[opening..opening + 5], t[opening + 5..closing], t[closing..last];
      LabelTextIsSpan(up, t, closing, last);
      DashRun(t, opening, opening + 5);
      DashesHaveNoLetters(up, a);
      LettersOfConcat(up, a, b + c);
      LettersOfConcat(up, b, c);
      assert b + c == t[opening + 5..last];
      assert t[opening..last] == a + (b + c);
      assert Letters(up, a) + (Letters(up, b) + Letters(up, c)) == Letters(up, b) + Letters(up, c);
    }
  }

  lemma {:induction false} LastExists(t: string, i: nat) returns (last: nat)
    requires OccursAt(DASHES, t, i)
    ensures IsLast(DASHES, t, last) && i <= last
    decreases |t| - i
  {
    if j: nat :| i < j && OccursAt(DASHES, t, j) {
      last := LastExists(t, j);
    } else {
      last := i;
    }
  }

  lemma ArmouredIffLabelled(up: Upper, reference: string)
    requires DashFixed(up)
    ensures Armoured(up, reference) <==> HasMarker(LabelText(up, reference, Find(reference, DASHES, 0)))
  {
    var opening := Find(reference, DASHES, 0);
    if opening < 0 {
      NoMarkerInNothing();
    } else {
      var last := LastExists(reference, opening);
      assert IsFirst(DASHES, reference, opening);
      LabelTextIsSpan(up, reference, opening, last);
      if Armoured(up, reference) {
        var f: nat, l: nat :|
          IsFirst(DASHES, reference, f) && IsLast(DASHES, reference, l) && f <= l
          && HasMarker(Letters(up, reference[f..l]));
        assert f == opening && l == last;
      }
    }
  }
}
