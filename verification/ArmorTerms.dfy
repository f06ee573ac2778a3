/** Armoured keys in plain terms: which letters count, and which headers are found (`govengine/_trust_references.py`). */
module ArmorTerms {
  import opened ArmorScan

  /** Exactly the letters A to Z are kept, one character at a time. */
  lemma {:induction false} KeptLetters(s: string, t: string, c: char)
    ensures KeepLetters("") == ""
    ensures KeepLetters([c]) == if 65 <= c as int <= 90 then [c] else ""
    ensures KeepLetters(s + t) == KeepLetters(s) + KeepLetters(t)
  {
    if s == "" {
      assert s + t == t;
    } else {
      assert (s + t)[1..] == s[1..] + t;
      KeptLetters(s[1..], t, c);
    }
    assert [c][1..] == "";
  }

  /** The dash run, the three markers, and an occurrence of one in a text. */
  ghost predicate DashesAt(t: string, i: nat) {
    i + 5 <= |t| && t[i..i + 5] == "-----"
  }

  ghost predicate Names(t: string, marker: string) {
    exists a: string, b: string :: t == a + marker + b
  }

  ghost predicate NamesAKey(t: string) {
    Names(t, "PRIVATEKEY") || Names(t, "PUBLICKEY") || Names(t, "CERTIFICATE")
  }

  lemma OccursNames(p: string, t: string)
    ensures Occurs(p, t) <==> Names(t, p)
  {
    if i: nat :| OccursAt(p, t, i) {
      assert t == t[..i] + p + t[i + |p|..];
    }
    if a: string, b: string :| t == a + p + b {
      assert t[|a|..|a| + |p|] == p;
      assert OccursAt(p, t, |a|);
    }
  }

  lemma MarkerNames(t: string)
    ensures HasMarker(t) <==> NamesAKey(t)
  {
    hide Occurs, Names;
    OccursNames("PRIVATEKEY", t);
    OccursNames("PUBLICKEY", t);
    OccursNames("CERTIFICATE", t);
    assert MARKERS[0] == "PRIVATEKEY" && MARKERS[1] == "PUBLICKEY" && MARKERS[2] == "CERTIFICATE";
    if NamesAKey(t) {
      assert Occurs(MARKERS[0], t) || Occurs(MARKERS[1], t) || Occurs(MARKERS[2], t);
    }
  }

  /** A reference is armoured exactly when the letters between two dash runs name a key or a certificate. */
  lemma FoundExactly(up: Upper, t: string)
    ensures Armoured(up, t) <==>
              exists i: nat, j: nat :: i <= j && DashesAt(t, i) && DashesAt(t, j) && NamesAKey(Letters(up, t[i..j]))
  {
    hide Letters, HasMarker, NamesAKey;
    if Armoured(up, t) {
      var i: nat, j: nat :|
        IsFirst(DASHES, t, i) && IsLast(DASHES, t, j) && i <= j && HasMarker(Letters(up, t[i..j]));
      MarkerNames(Letters(up, t[i..j]));
      assert DashesAt(t, i) && DashesAt(t, j);
    }
    if i: nat, j: nat :| i <= j && DashesAt(t, i) && DashesAt(t, j) && NamesAKey(Letters(up, t[i..j])) {
      MarkerNames(Letters(up, t[i..j]));
      BetweenRuns(up, t, i, j);
    }
  }

  lemma BetweenRuns(up: Upper, t: string, i: nat, j: nat)
    requires i <= j && DashesAt(t, i) && DashesAt(t, j) && HasMarker(Letters(up, t[i..j]))
    ensures Armoured(up, t)
  {
    hide Letters, HasMarker;
    var first := Find(t, DASHES, 0);
    assert OccursAt(DASHES, t, i) && OccursAt(DASHES, t, j);
    var last := LastExists(t, j);
    assert 0 <= first <= i;
    var a, b, c := t[first..i], t[i..j], t[j..last];
    LettersOfConcat(up, a, b + c);
    LettersOfConcat(up, b, c);
    MarkerInLonger(Letters(up, a), Letters(up, b), Letters(up, c));
    assert t[first..last] == a + (b + c);
    assert Letters(up, a) + (Letters(up, b) + Letters(up, c)) == Letters(up, a) + Letters(up, b) + Letters(up, c);
    assert IsFirst(DASHES, t, first);
  }

  /** Upper-casing leaves capitals and blanks alone. */
  ghost predicate CapitalsFixed(up: Upper) {
    up(' ') == " " && forall c :: 'A' <= c <= 'Z' ==> up(c) == [c]
  }

  lemma {:induction false} WordsKept(up: Upper, s: string)
    requires CapitalsFixed(up) && forall i :: 0 <= i < |s| ==> 'A' <= s[i] <= 'Z' || s[i] == ' '
    ensures Letters(up, s) == KeepLetters(s)
  {
    if s != "" {
      WordsKept(up, s[1..]);
      KeptLetters([s[0]], s[1..], s[0]);
      assert s == [s[0]] + s[1..];
      assert up(s[0]) == [s[0]];
    }
  }

  lemma {:induction false} CapitalsKept(s: string)
    requires forall i :: 0 <= i < |s| ==> 'A' <= s[i] <= 'Z'
    ensures KeepLetters(s) == s
  {
    if s != "" {
      CapitalsKept(s[1..]);
    }
  }

  lemma WordKept(up: Upper, word: string)
    requires CapitalsFixed(up) && forall i :: 0 <= i < |word| ==> 'A' <= word[i] <= 'Z'
    ensures Letters(up, word) == word
  {
    WordsKept(up, word);
    CapitalsKept(word);
  }

  lemma WordAndKey(up: Upper, word: string)
    requires CapitalsFixed(up) && forall i :: 0 <= i < |word| ==> 'A' <= word[i] <= 'Z'
    ensures Letters(up, word + " KEY") == word + "KEY" && Letters(up, word) == word
  {
    hide Letters;
    WordKept(up, word);
    WordKept(up, "KEY");
    BlankDropped(up);
    LettersOfConcat(up, word, " KEY");
    LettersOfConcat(up, " ", "KEY");
    assert " " + "KEY" == " KEY" && "" + "KEY" == "KEY";
  }

  lemma BlankDropped(up: Upper)
    requires CapitalsFixed(up)
    ensures Letters(up, " ") == ""
  {
    WordsKept(up, " ");
    KeptLetters("", "", ' ');
    assert [' '] == " ";
  }

  /** Any text that holds a header for a private key, a public key or a certificate between dash runs is armoured,
      whatever stands before, inside and behind. */
  lemma HeadersAreFound(up: Upper, before: string, left: string, right: string, after: string, title: string)
    requires CapitalsFixed(up) && title in {"PRIVATE KEY", "PUBLIC KEY", "CERTIFICATE"}
    ensures Armoured(up, before + "-----" + (left + title + right) + "-----" + after)
    ensures Armoured(up, before + "-----" + ("BEGIN " + title) + "-----" + after)
  {
    hide Armoured;
    HeaderIsFound(up, before, left, right, after, title);
    HeaderIsFound(up, before, "BEGIN ", "", after, title);
    assert "BEGIN " + title + "" == "BEGIN " + title;
  }

  lemma HeaderIsFound(up: Upper, before: string, left: string, right: string, after: string, title: string)
    requires CapitalsFixed(up) && title in {"PRIVATE KEY", "PUBLIC KEY", "CERTIFICATE"}
    ensures Armoured(up, before + "-----" + (left + title + right) + "-----" + after)
  {
    hide Letters, Armoured, NamesAKey;
    var head := left + title + right;
    var t := before + "-----" + head + "-----" + after;
    var i, j := |before|, |before| + 5 + |head|;
    assert t[i..i + 5] == "-----";
    assert t[j..j + 5] == "-----";
    assert t[i..j] == "-----" + head;
    TitleNames(up, title);
    LettersOfConcat(up, "-----", head);
    LettersOfConcat(up, left + title, right);
    LettersOfConcat(up, left, title);
    NamesInside(Letters(up, "-----") + Letters(up, left), Letters(up, title), Letters(up, right));
    assert Letters(up, t[i..j])
           == Letters(up, "-----") + Letters(up, left) + Letters(up, title) + Letters(up, right);
    assert DashesAt(t, i) && DashesAt(t, j) && NamesAKey(Letters(up, t[i..j]));
    FoundExactly(up, t);
  }

  lemma TitleNames(up: Upper, title: string)
    requires CapitalsFixed(up) && title in {"PRIVATE KEY", "PUBLIC KEY", "CERTIFICATE"}
    ensures NamesAKey(Letters(up, title))
  {
    hide Letters;
    WordAndKey(up, "PRIVATE");
    WordAndKey(up, "PUBLIC");
    WordAndKey(up, "CERTIFICATE");
    assert "PRIVATE" + " KEY" == "PRIVATE KEY" && "PUBLIC" + " KEY" == "PUBLIC KEY";
    assert "PRIVATE" + "KEY" == "" + "PRIVATEKEY" + "" && "PUBLIC" + "KEY" == "" + "PUBLICKEY" + "";
    assert "CERTIFICATE" == "" + "CERTIFICATE" + "";
  }

  lemma NamesInside(a: string, b: string, c: string)
    requires NamesAKey(b)
    ensures NamesAKey(a + b + c)
  {
    hide HasMarker;
    MarkerNames(b);
    MarkerInLonger(a, b, c);
    MarkerNames(a + b + c);
  }
}
