/** What the key scan answers on finite values, and why it agrees with the copy. */
module TraversalAgreement {
  import opened Prelude
  import opened PyValues
  import opened BoundedTraversal
  import opened BoundedCopy

  /** A finite value, one object at a time. */
  function ViewOf(v: Value): Shape<Value> {
    match v
    case Leaf(_) => Scalar
    case Dict(items) => Mapping(items)
    case List(_, elems) => Sequence(elems)
  }

  function Values(items: seq<Item>): seq<Value> {
    seq(|items|, i requires 0 <= i < |items| => items[i].value)
  }

  /** Depth and collection lengths are in bounds throughout. */
  predicate InShape(l: Limits, v: Value, depth: nat)
    decreases v
  {
    depth <= l.maxDepth &&
    match v
    case Leaf(_) => true
    case Dict(items) => |items| <= l.maxCollectionLength && ItemsInShape(l, items, depth + 1)
    case List(_, elems) => |elems| <= l.maxCollectionLength && ElemsInShape(l, elems, depth + 1)
  }

  predicate ItemsInShape(l: Limits, items: seq<Item>, depth: nat)
    decreases items
  {
    items != [] ==>
      assert items[0].value < items[0];
      InShape(l, items[0].value, depth) && ItemsInShape(l, items[1..], depth)
  }

  predicate ElemsInShape(l: Limits, elems: seq<Value>, depth: nat)
    decreases elems
  {
    elems != [] ==> InShape(l, elems[0], depth) && ElemsInShape(l, elems[1..], depth)
  }

  /** No key anywhere in the value is forbidden. */
  predicate KeysClean(q: Query, v: Value) {
    match v
    case Leaf(_) => true
    case Dict(items) => FirstForbidden(q, items).None? && ItemsClean(q, items)
    case List(_, elems) => ElemsClean(q, elems)
  }

  predicate ItemsClean(q: Query, items: seq<Item>) {
    items != [] ==>
      assert items[0].value < items[0];
      KeysClean(q, items[0].value) && ItemsClean(q, items[1..])
  }

  predicate ElemsClean(q: Query, elems: seq<Value>) {
    elems != [] ==> KeysClean(q, elems[0]) && ElemsClean(q, elems[1..])
  }

  lemma {:induction false} FirstForbiddenExact(q: Query, items: seq<Item>)
    ensures FirstForbidden(q, items).None? <==> forall i :: 0 <= i < |items| ==> q.normalise(ShowKey(items[i].key)) !in q.forbidden
  {
    if items != [] {
      FirstForbiddenExact(q, items[1..]);
    }
  }

  /** The scan clears exactly the values within the shape bounds that hold no forbidden key, having counted
      every node once; and no value within those bounds makes it raise. */
  lemma {:induction false} ScanFromExact(q: Query, v: Value, depth: nat, nodes: nat)
    ensures var (answer, nodes') := ScanFrom(q, ViewOf, v, depth, nodes);
            && (answer == Clear <==> InShape(q.limits, v, depth) && KeysClean(q, v) && nodes + NodeCount(v) <= q.limits.maxNodes)
            && (answer == Clear ==> nodes' == nodes + NodeCount(v))
            && (InShape(q.limits, v, depth) && nodes + NodeCount(v) <= q.limits.maxNodes ==> !answer.Breached?)
    decreases v, 0
  {
    hide ScanAll, ItemsInShape, ElemsInShape, ItemsClean, ElemsClean, FirstForbidden;
    match v
    case Leaf(_) => ScanNothing(q, depth + 1, nodes + 1);
    case Dict(items) =>
      assert Children(ViewOf(v)) == Values(items);
      ScanItemsExact(q, items, depth + 1, nodes + 1);
    case List(_, elems) =>
      assert Children(ViewOf(v)) == elems;
      ScanElemsExact(q, elems, depth + 1, nodes + 1);
  }

  lemma ScanNothing(q: Query, depth: nat, nodes: nat)
    ensures ScanAll(q, ViewOf, [], depth, nodes) == (Clear, nodes)
  {
  }

  lemma {:induction false} ScanItemsExact(q: Query, items: seq<Item>, depth: nat, nodes: nat)
    ensures var (answer, nodes') := ScanAll(q, ViewOf, Values(items), depth, nodes);
            && (answer == Clear <==>
                  ItemsInShape(q.limits, items, depth) && ItemsClean(q, items)
                  && (items == [] || nodes + NodeCountItems(items) <= q.limits.maxNodes))
            && (answer == Clear ==> nodes' == nodes + NodeCountItems(items))
            && (ItemsInShape(q.limits, items, depth) && (items == [] || nodes + NodeCountItems(items) <= q.limits.maxNodes)
                ==> !answer.Breached?)
    decreases items, 1
  {
    hide ScanFrom, InShape, KeysClean, NodeCount;
    if items != [] {
      assert items[0].value < items[0];
      ScanFromExact(q, items[0].value, depth, nodes);
      assert Values(items)[1..] == Values(items[1..]);
      ScanItemsExact(q, items[1..], depth, nodes + NodeCount(items[0].value));
    }
  }

  lemma {:induction false} ScanElemsExact(q: Query, elems: seq<Value>, depth: nat, nodes: nat)
    ensures var (answer, nodes') := ScanAll(q, ViewOf, elems, depth, nodes);
            && (answer == Clear <==>
                  ElemsInShape(q.limits, elems, depth) && ElemsClean(q, elems)
                  && (elems == [] || nodes + NodeCountElems(elems) <= q.limits.maxNodes))
            && (answer == Clear ==> nodes' == nodes + NodeCountElems(elems))
            && (ElemsInShape(q.limits, elems, depth) && (elems == [] || nodes + NodeCountElems(elems) <= q.limits.maxNodes)
                ==> !answer.Breached?)
    decreases elems, 1
  {
    hide ScanFrom, InShape, KeysClean, NodeCount;
    if elems != [] {
      ScanFromExact(q, elems[0], depth, nodes);
      ScanElemsExact(q, elems[1..], depth, nodes + NodeCount(elems[0]));
    }
  }

  // ------------------------------------------------ agreement with the copy

  lemma {:induction false} ListedItemsForbidden(q: Query, items: seq<Item>)
    ensures FirstForbidden(q, ListedItems(items)) == FirstForbidden(q, items)
  {
    hide Listed;
    if items != [] {
      ListedItemsForbidden(q, items[1..]);
    }
  }

  lemma ListedVisit(q: Query, v: Value, depth: nat, n: nat)
    ensures Visit(q, ViewOf(Listed(v)), depth, n) == Visit(q, ViewOf(v), depth, n)
  {
    if v.Dict? {
      ListedItemsForbidden(q, v.items);
    }
  }

  /** The scan cannot tell a value from its copy. */
  lemma {:induction false} ScanListed(q: Query, v: Value, depth: nat, nodes: nat)
    ensures ScanFrom(q, ViewOf, Listed(v), depth, nodes) == ScanFrom(q, ViewOf, v, depth, nodes)
    decreases v, 0
  {
    hide ScanAll, Visit;
    ListedVisit(q, v, depth, nodes + 1);
    if Visit(q, ViewOf(v), depth, nodes + 1) == Clear {
      match v
      case Leaf(_) =>
      case Dict(items) =>
        assert Children(ViewOf(v)) == Values(items);
        assert Children(ViewOf(Listed(v))) == Values(ListedItems(items));
        ScanListedItems(q, items, depth + 1, nodes + 1);
      case List(_, elems) =>
        assert Children(ViewOf(v)) == elems;
        assert Children(ViewOf(Listed(v))) == ListedElems(elems);
        ScanListedElems(q, elems, depth + 1, nodes + 1);
    }
  }

  lemma {:induction false} ScanListedItems(q: Query, items: seq<Item>, depth: nat, nodes: nat)
    ensures ScanAll(q, ViewOf, Values(ListedItems(items)), depth, nodes) == ScanAll(q, ViewOf, Values(items), depth, nodes)
    decreases items, 1
  {
    hide ScanFrom, Listed;
    if items != [] {
      assert items[0].value < items[0];
      var (_, nodes') := ScanFrom(q, ViewOf, items[0].value, depth, nodes);
      ScanListed(q, items[0].value, depth, nodes);
      ScanListedItems(q, items[1..], depth, nodes');
      assert Values(items)[1..] == Values(items[1..]);
      assert Values(ListedItems(items))[1..] == Values(ListedItems(items[1..]));
    }
  }

  lemma {:induction false} ScanListedElems(q: Query, elems: seq<Value>, depth: nat, nodes: nat)
    ensures ScanAll(q, ViewOf, ListedElems(elems), depth, nodes) == ScanAll(q, ViewOf, elems, depth, nodes)
    decreases elems, 1
  {
    hide ScanFrom, Listed;
    if elems != [] {
      var (_, nodes') := ScanFrom(q, ViewOf, elems[0], depth, nodes);
      ScanListed(q, elems[0], depth, nodes);
      ScanListedElems(q, elems[1..], depth, nodes');
      assert ListedElems(elems)[1..] == ListedElems(elems[1..]);
    }
  }

  /** On a value the copy accepts, the scan never raises, answers the same before and after the copy,
      and clears the value exactly when no key is forbidden. */
  lemma ScanAgreesWithCopy(q: Query, t: bool, v: Value)
    requires WellFormed(v) && Copy(q.limits, t, v).Ok?
    ensures var answer := ScanFrom(q, ViewOf, v, 0, 0).0;
            && !answer.Breached?
            && ScanFrom(q, ViewOf, Copy(q.limits, t, v).value, 0, 0).0 == answer
            && (answer == Clear <==> KeysClean(q, v))
  {
    hide ScanFrom, CopyFrom, Fits, InShape, KeysClean, Listed, NodeCount, LeavesFit;
    CopyExact(q.limits, t, v);
    FitsExactly(q.limits, t, v, 0);
    ScanFromExact(q, v, 0, 0);
    ScanListed(q, v, 0, 0);
  }

  // ----------------------------------------------- what the scan does not see

  /** What only the copy looks at: every leaf and key is of an accepted type and length, and every sequence is of an
      accepted kind. */
  predicate LeavesFit(l: Limits, t: bool, v: Value) {
    match v
    case Leaf(a) => AtomFits(l, a)
    case Dict(items) => ItemLeavesFit(l, t, items)
    case List(isTuple, elems) => (isTuple ==> t) && ElemLeavesFit(l, t, elems)
  }

  predicate ItemLeavesFit(l: Limits, t: bool, items: seq<Item>) {
    items != [] ==>
      assert items[0].value < items[0];
      KeyFits(l, items[0].key) && LeavesFit(l, t, items[0].value) && ItemLeavesFit(l, t, items[1..])
  }

  predicate ElemLeavesFit(l: Limits, t: bool, elems: seq<Value>) {
    elems != [] ==> LeavesFit(l, t, elems[0]) && ElemLeavesFit(l, t, elems[1..])
  }

  lemma {:induction false} FitsExactly(l: Limits, t: bool, v: Value, depth: nat)
    ensures Fits(l, t, v, depth) <==> InShape(l, v, depth) && LeavesFit(l, t, v)
    decreases v, 0
  {
    match v
    case Leaf(_) =>
    case Dict(items) => ItemsFitExactly(l, t, items, depth + 1);
    case List(_, elems) => ElemsFitExactly(l, t, elems, depth + 1);
  }

  lemma {:induction false} ItemsFitExactly(l: Limits, t: bool, items: seq<Item>, depth: nat)
    ensures ItemsFit(l, t, items, depth) <==> ItemsInShape(l, items, depth) && ItemLeavesFit(l, t, items)
    decreases items, 1
  {
    if items != [] {
      assert items[0].value < items[0];
      FitsExactly(l, t, items[0].value, depth);
      ItemsFitExactly(l, t, items[1..], depth);
    }
  }

  lemma {:induction false} ElemsFitExactly(l: Limits, t: bool, elems: seq<Value>, depth: nat)
    ensures ElemsFit(l, t, elems, depth) <==> ElemsInShape(l, elems, depth) && ElemLeavesFit(l, t, elems)
    decreases elems, 1
  {
    if elems != [] {
      FitsExactly(l, t, elems[0], depth);
      ElemsFitExactly(l, t, elems[1..], depth);
    }
  }

  /** How far the scan mirrors the copy: on values without forbidden keys, the copy accepts exactly what the scan clears
      and whose leaves, keys and sequence kinds fit. The scan itself never looks at the latter. */
  lemma CopyIsScanAndLeaves(q: Query, t: bool, v: Value)
    requires WellFormed(v) && KeysClean(q, v)
    ensures Copy(q.limits, t, v).Ok? <==> ScanFrom(q, ViewOf, v, 0, 0).0 == Clear && LeavesFit(q.limits, t, v)
  {
    hide ScanFrom, CopyFrom, Fits, InShape, KeysClean, Listed, NodeCount, LeavesFit;
    CopyExact(q.limits, t, v);
    FitsExactly(q.limits, t, v, 0);
    ScanFromExact(q, v, 0, 0);
  }

  /** For example, the scan clears a float that is not finite, and the copy refuses it. */
  lemma ScanIsNoCopy(q: Query)
    requires q.limits.maxNodes >= 1
    ensures ScanFrom(q, ViewOf, Leaf(Real(NonFinite)), 0, 0).0 == Clear
    ensures Copy(q.limits, true, Leaf(Real(NonFinite))) == Err(NonFiniteNumber)
  {
  }

  // ------------------------------------------------------- duplicate members

  /** The pairs hook of `load_bounded_json`: a dictionary is built exactly from distinct names. */
  method PairsHook(pairs: seq<Item>) returns (r: Result<seq<Item>, Breach>)
    requires forall i :: 0 <= i < |pairs| ==> pairs[i].key.TextKey?
    ensures r.Ok? <==> DistinctKeys(pairs)
    ensures r.Ok? ==> r.value == pairs
    ensures r.Err? ==> exists i, j :: 0 <= i < j < |pairs| && pairs[i].key == pairs[j].key
                                      && r.error == DuplicateKey(pairs[j].key.text) && DistinctKeys(pairs[..j])
  {
    var result: seq<Item> := [];
    for j := 0 to |pairs|
      invariant result == pairs[..j] && DistinctKeys(pairs[..j])
    {
      if i :| 0 <= i < |result| && result[i].key == pairs[j].key {
        assert pairs[i].key == pairs[j].key;
        return Err(DuplicateKey(pairs[j].key.text));
      }
      AssignNewKey(result, pairs[j].key, pairs[j].value);
      result := Assign(result, pairs[j].key, pairs[j].value);
      assert pairs[..j + 1] == pairs[..j] + [pairs[j]];
    }
    assert pairs[..|pairs|] == pairs;
    return Ok(result);
  }
}
