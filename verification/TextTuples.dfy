/** `text_tuple` (`govengine/_governance_validation.py`): the form every list of names is brought into. */
module TextTuples {
  import opened Prelude
  import opened PyStrings

  /** List members; `None` stands for anything that is not a string. */
  type Member = Option<string>

  ghost predicate Named(item: Member) {
    item.Some? && Strip(item.value) != ""
  }

  function Stripped(items: seq<Member>): (r: seq<string>)
    ensures |r| == |items|
  {
    seq(|items|, i requires 0 <= i < |items| => if items[i].Some? then Strip(items[i].value) else "")
  }

  /** What is accepted: non-blank strings that stay distinct once stripped. */
  ghost predicate Acceptable(items: seq<Member>) {
    (forall i :: 0 <= i < |items| ==> Named(items[i])) && Distinct(Stripped(items))
  }

  /** `len(result) == len(set(result))` says that nothing is repeated. */
  lemma {:induction false} DistinctCount(s: seq<string>)
    ensures |set x | x in s| <= |s|
    ensures Distinct(s) <==> |set x | x in s| == |s|
  {
    if s != [] {
      var n := |s| - 1;
      var init, last := s[..n], s[n];
      DistinctCount(init);
      assert s == init + [last];
      assert (set x | x in s) == (set x | x in init) + {last};
      if last in init {
        assert (set x | x in s) == (set x | x in init);
        var i :| 0 <= i < n && init[i] == last;
        assert s[i] == s[n];
      } else {
        assert |set x | x in s| == |set x | x in init| + 1;
        if Distinct(init) {
          assert forall i :: 0 <= i < n ==> s[i] == init[i];
        }
        if Distinct(s) {
          assert forall i, j :: 0 <= i < j < n ==> init[i] != init[j];
        }
      }
    }
  }

  /** The loop accepts exactly lists of non-blank strings that stay distinct once stripped, and strips them in order. */
  method TextTuple(items: seq<Member>) returns (r: Option<seq<string>>)
    ensures r.Some? <==> Acceptable(items)
    ensures r.Some? ==> r.value == Stripped(items)
  {
    var result: seq<string> := [];
    for i := 0 to |items|
      invariant forall k :: 0 <= k < i ==> Named(items[k])
      invariant result == Stripped(items)[..i]
    {
      if items[i].None? || Strip(items[i].value) == "" {
        assert !Named(items[i]);
        return None;
      }
      result := result + [Strip(items[i].value)];
    }
    assert result == Stripped(items);
    DistinctCount(result);
    if |result| != |set x | x in result| {
      return None;
    }
    return Some(result);
  }

  function Given(texts: seq<string>): (r: seq<Member>)
    ensures |r| == |texts|
  {
    seq(|texts|, i requires 0 <= i < |texts| => Some(texts[i]))
  }

  /** An accepted list is already in form: taking it again changes nothing. */
  lemma TextTupleIsStable(items: seq<Member>)
    requires Acceptable(items)
    ensures Acceptable(Given(Stripped(items))) && Stripped(Given(Stripped(items))) == Stripped(items)
  {
    var once := Stripped(items);
    var twice := Stripped(Given(once));
    forall i | 0 <= i < |items| ensures twice[i] == once[i] && Named(Given(once)[i]) {
      assert Named(items[i]);
      StripTrims(items[i].value);
      StripTrims(once[i]);
    }
    assert twice == once;
  }
}
