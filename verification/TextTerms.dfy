/** What the text helpers mean: stripping, digest form, ASCII, and removing repetitions, on code points and positions. */
module TextTerms {
  import opened Prelude
  import opened PyStrings

  /** The characters `str.strip` takes for space, by code point. */
  predicate Spacing(c: char) {
    var n := c as int;
    9 <= n <= 13 || 28 <= n <= 32 || n == 133 || n == 160 || n == 5760 || 8192 <= n <= 8202 || n == 8232 || n == 8233
    || n == 8239 || n == 8287 || n == 12288
  }

  ghost predicate AllSpacing(s: string) {
    forall i :: 0 <= i < |s| ==> Spacing(s[i])
  }

  lemma {:induction false} LeftCut(s: string) returns (left: string)
    ensures s == left + StripLeft(s) && AllSpacing(left)
    ensures StripLeft(s) != "" ==> !Spacing(StripLeft(s)[0])
  {
    if s != "" && IsSpace(s[0]) {
      left := LeftCut(s[1..]);
      left := [s[0]] + left;
    } else {
      left := "";
    }
  }

  lemma {:induction false} RightCut(s: string) returns (right: string)
    ensures s == StripRight(s) + right && AllSpacing(right)
    ensures StripRight(s) != "" ==> !Spacing(StripRight(s)[|StripRight(s)| - 1])
  {
    if s != "" && IsSpace(s[|s| - 1]) {
      right := RightCut(s[..|s| - 1]);
      right := right + [s[|s| - 1]];
    } else {
      right := "";
    }
  }

  /** Stripping removes spacing at both ends, all of it, and nothing else. */
  lemma StripExactly(s: string) returns (left: string, right: string)
    ensures s == left + Strip(s) + right && AllSpacing(left) && AllSpacing(right)
    ensures Strip(s) != "" ==> !Spacing(Strip(s)[0]) && !Spacing(Strip(s)[|Strip(s)| - 1])
  {
    left := LeftCut(s);
    right := RightCut(StripLeft(s));
    assert s == left + (Strip(s) + right);
    if Strip(s) != "" {
      assert Strip(s)[0] == StripLeft(s)[0];
    }
  }

  /** A digest is the algorithm's name and 64 lower-case hexadecimal digits. */
  lemma DigestForm(s: string)
    ensures IsSha256(s) <==>
              exists digits: string ::
                s == "sha256:" + digits && |digits| == 64 && forall i :: 0 <= i < 64 ==> digits[i] in "0123456789abcdef"
  {
    HexDigits();
    if IsSha256(s) {
      var digits := s[7..];
      assert s == s[..7] + digits;
      assert s == "sha256:" + digits && |digits| == 64;
    }
    if digits: string :| s == "sha256:" + digits && |digits| == 64
                         && forall i :: 0 <= i < 64 ==> digits[i] in "0123456789abcdef"
    {
      assert s[7..] == digits && s[..7] == "sha256:";
    }
  }

  lemma HexDigits()
    ensures forall c: char :: c in "0123456789abcdef" <==> '0' <= c <= '9' || 'a' <= c <= 'f'
  {
    var all := "0123456789abcdef";
    forall c: char
      ensures c in all <==> '0' <= c <= '9' || 'a' <= c <= 'f'
    {
      if '0' <= c <= '9' {
        assert all[c as int - '0' as int] == c;
      } else if 'a' <= c <= 'f' {
        assert all[10 + (c as int - 'a' as int)] == c;
      }
    }
  }

  /** A text starts with another exactly when something continues the one to the other. */
  lemma PrefixExactly(s: string, p: string)
    ensures HasPrefix(s, p) <==> exists rest: string :: s == p + rest
  {
    if HasPrefix(s, p) {
      assert s == p + s[|p|..];
    }
    if rest: string :| s == p + rest {
      assert s[..|p|] == p;
    }
  }

  /** ASCII text has code points below 128 only. */
  lemma AsciiExactly(s: string)
    ensures IsAscii(s) <==> forall i :: 0 <= i < |s| ==> s[i] as int <= 127
  {
    forall i | 0 <= i < |s|
      ensures s[i] < 128 as char <==> s[i] as int <= 127
    {
    }
  }

  lemma KeptFrom<T>(s: seq<T>, i: nat)
    requires i < |Dedup(s)|
    ensures Dedup(s)[i] in s
  {
    DedupKeepsElements(s);
    assert Dedup(s)[i] in Dedup(s);
  }

  lemma Position<T>(s: seq<T>, x: T) returns (at: nat)
    requires x in s
    ensures at < |s| && s[at] == x
  {
    at :| at < |s| && s[at] == x;
  }

  /** Removing repetitions keeps every element once, in the order of their first occurrences. */
  lemma {:induction false} DedupKeepsOrder<T>(s: seq<T>, i: nat, j: nat) returns (at: nat)
    requires i < j < |Dedup(s)|
    ensures at < |s| && s[at] == Dedup(s)[i] && Dedup(s)[j] !in s[..at + 1]
  {
    var init, last := s[..|s| - 1], s[|s| - 1];
    DedupKeepsElements(init);
    if j < |Dedup(init)| {
      at := DedupKeepsOrder(init, i, j);
      assert s[..at + 1] == init[..at + 1];
    } else {
      var x := Dedup(init)[i];
      KeptFrom(init, i);
      at := Position(init, x);
      assert forall y :: y in s[..at + 1] ==> y in init;
    }
  }
}
