/** `bounded_json_copy` (`govengine/_json_boundary.py`): what it accepts and what it returns. */
module BoundedCopy {
  import opened Prelude
  import opened PyValues
  import opened BoundedTraversal

  // ---------------------------------------------------------------- the copy

  /** `result[key] = value` on an insertion-ordered dictionary. */
  function Assign<T>(s: seq<Entry<T>>, key: Key, value: T): seq<Entry<T>> {
    if s == [] then [Entry(key, value)]
    else if s[0].key == key then [Entry(key, value)] + s[1..]
    else [s[0]] + Assign(s[1..], key, value)
  }

  function CopyAtom(l: Limits, a: Atom): Result<Value, Breach> {
    match a
    case Text(s) => if |s| > l.maxStringLength then Err(MaxStringLength) else Ok(Leaf(a))
    case Real(NonFinite) => Err(NonFiniteNumber)
    case Opaque(typeName) => Err(UnsupportedType(typeName))
    case _ => Ok(Leaf(a))
  }

  /** The recursive walk, threading the shared node counter. */
  function CopyFrom(l: Limits, allowTuples: bool, v: Value, depth: nat, nodes: nat): (Result<Value, Breach>, nat)
    decreases v
  {
    if nodes + 1 > l.maxNodes then (Err(MaxNodes), nodes + 1)
    else if depth > l.maxDepth then (Err(MaxDepth), nodes + 1)
    else
      match v
      case Leaf(a) => (CopyAtom(l, a), nodes + 1)
      case Dict(items) =>
        if |items| > l.maxCollectionLength then (Err(MaxCollectionLength), nodes + 1)
        else
          (match CopyItems(l, allowTuples, items, depth + 1, nodes + 1, [])
           case (Ok(copied), nodes') => (Ok(Dict(copied)), nodes')
           case (Err(breach), nodes') => (Err(breach), nodes'))
      case List(isTuple, elems) =>
        if isTuple && !allowTuples then (Err(UnsupportedType("tuple")), nodes + 1)
        else if |elems| > l.maxCollectionLength then (Err(MaxCollectionLength), nodes + 1)
        else
          (match CopyElems(l, allowTuples, elems, depth + 1, nodes + 1, [])
           case (Ok(copied), nodes') => (Ok(List(false, copied)), nodes')
           case (Err(breach), nodes') => (Err(breach), nodes'))
  }

  function CopyItems(l: Limits, allowTuples: bool, items: seq<Item>, depth: nat, nodes: nat, result: seq<Item>)
    : (Result<seq<Item>, Breach>, nat)
    decreases items
  {
    if items == [] then (Ok(result), nodes)
    else
      assert items[0].value < items[0];
      match items[0].key
      case OtherKey(_) => (Err(NonStringKey), nodes)
      case TextKey(text) =>
        if |text| > l.maxStringLength then (Err(MaxStringLength), nodes)
        else
          match CopyFrom(l, allowTuples, items[0].value, depth, nodes)
          case (Err(breach), nodes') => (Err(breach), nodes')
          case (Ok(copied), nodes') =>
            CopyItems(l, allowTuples, items[1..], depth, nodes', Assign(result, items[0].key, copied))
  }

  function CopyElems(l: Limits, allowTuples: bool, elems: seq<Value>, depth: nat, nodes: nat, result: seq<Value>)
    : (Result<seq<Value>, Breach>, nat)
    decreases elems
  {
    if elems == [] then (Ok(result), nodes)
    else
      match CopyFrom(l, allowTuples, elems[0], depth, nodes)
      case (Err(breach), nodes') => (Err(breach), nodes')
      case (Ok(copied), nodes') => CopyElems(l, allowTuples, elems[1..], depth, nodes', result + [copied])
  }

  function Copy(l: Limits, allowTuples: bool, v: Value): Result<Value, Breach> {
    CopyFrom(l, allowTuples, v, 0, 0).0
  }

  /** One call of `bounded_json_copy`: its walk updates the enclosing counter. */
  class JsonCopier {
    const limits: Limits
    const allowTuples: bool
    var nodes: nat

    constructor (limits: Limits, allowTuples: bool)
      ensures this.limits == limits && this.allowTuples == allowTuples && nodes == 0
    {
      this.limits := limits;
      this.allowTuples := allowTuples;
      nodes := 0;
    }

    method Walk(item: Value, depth: nat) returns (r: Result<Value, Breach>)
      modifies this
      ensures (r, nodes) == CopyFrom(limits, allowTuples, item, depth, old(nodes))
      decreases item
    {
      nodes := nodes + 1;
      if nodes > limits.maxNodes {
        return Err(MaxNodes);
      }
      if depth > limits.maxDepth {
        return Err(MaxDepth);
      }
      match item
      case Leaf(a) =>
        return CopyAtom(limits, a);
      case Dict(items) =>
        if |items| > limits.maxCollectionLength {
          return Err(MaxCollectionLength);
        }
        var result: seq<Item> := [];
        ghost var whole := CopyItems(limits, allowTuples, items, depth + 1, nodes, []);
        for i := 0 to |items|
          invariant whole == CopyItems(limits, allowTuples, items[i..], depth + 1, nodes, result)
        {
          assert items[i..][1..] == items[i + 1..];
          assert items[i].value < items[i] < item;
          match items[i].key
          case OtherKey(_) =>
            return Err(NonStringKey);
          case TextKey(text) =>
            if |text| > limits.maxStringLength {
              return Err(MaxStringLength);
            }
          var copied := Walk(items[i].value, depth + 1);
          if copied.Err? {
            return Err(copied.error);
          }
          result := Assign(result, items[i].key, copied.value);
        }
        return Ok(Dict(result));
      case List(isTuple, elems) =>
        if isTuple && !allowTuples {
          return Err(UnsupportedType("tuple"));
        }
        if |elems| > limits.maxCollectionLength {
          return Err(MaxCollectionLength);
        }
        var result: seq<Value> := [];
        ghost var whole := CopyElems(limits, allowTuples, elems, depth + 1, nodes, []);
        for i := 0 to |elems|
          invariant whole == CopyElems(limits, allowTuples, elems[i..], depth + 1, nodes, result)
        {
          assert elems[i..][1..] == elems[i + 1..];
          var copied := Walk(elems[i], depth + 1);
          if copied.Err? {
            return Err(copied.error);
          }
          result := result + [copied.value];
        }
        return Ok(List(false, result));
    }
  }

  // ------------------------------------------------------ exact acceptance

  function NodeCount(v: Value): nat {
    match v
    case Leaf(_) => 1
    case Dict(items) => 1 + NodeCountItems(items)
    case List(_, elems) => 1 + NodeCountElems(elems)
  }

  function NodeCountItems(items: seq<Item>): nat {
    if items == [] then 0
    else
      assert items[0].value < items[0];
      NodeCount(items[0].value) + NodeCountItems(items[1..])
  }

  function NodeCountElems(elems: seq<Value>): nat {
    if elems == [] then 0 else NodeCount(elems[0]) + NodeCountElems(elems[1..])
  }

  predicate AtomFits(l: Limits, a: Atom) {
    match a
    case Text(s) => |s| <= l.maxStringLength
    case Real(f) => f.Finite?
    case Opaque(_) => false
    case _ => true
  }

  predicate KeyFits(l: Limits, k: Key) {
    k.TextKey? && |k.text| <= l.maxStringLength
  }

  /** Every bound but the node count holds of a value found at `depth`, and of everything below it. */
  predicate Fits(l: Limits, allowTuples: bool, v: Value, depth: nat)
    decreases v
  {
    depth <= l.maxDepth &&
    match v
    case Leaf(a) => AtomFits(l, a)
    case Dict(items) => |items| <= l.maxCollectionLength && ItemsFit(l, allowTuples, items, depth + 1)
    case List(isTuple, elems) =>
      (isTuple ==> allowTuples) && |elems| <= l.maxCollectionLength && ElemsFit(l, allowTuples, elems, depth + 1)
  }

  predicate ItemsFit(l: Limits, allowTuples: bool, items: seq<Item>, depth: nat)
    decreases items
  {
    items != [] ==>
      assert items[0].value < items[0];
      KeyFits(l, items[0].key) && Fits(l, allowTuples, items[0].value, depth) && ItemsFit(l, allowTuples, items[1..], depth)
  }

  predicate ElemsFit(l: Limits, allowTuples: bool, elems: seq<Value>, depth: nat)
    decreases elems
  {
    elems != [] ==> Fits(l, allowTuples, elems[0], depth) && ElemsFit(l, allowTuples, elems[1..], depth)
  }

  /** The value with every tuple turned into a list. */
  function Listed(v: Value): Value {
    match v
    case Leaf(_) => v
    case Dict(items) => Dict(ListedItems(items))
    case List(_, elems) => List(false, ListedElems(elems))
  }

  function ListedItems(items: seq<Item>): (r: seq<Item>)
    ensures |r| == |items| && forall i :: 0 <= i < |r| ==> r[i].key == items[i].key
  {
    if items == [] then []
    else
      assert items[0].value < items[0];
      [Entry(items[0].key, Listed(items[0].value))] + ListedItems(items[1..])
  }

  function ListedElems(elems: seq<Value>): (r: seq<Value>)
    ensures |r| == |elems|
  {
    if elems == [] then [] else [Listed(elems[0])] + ListedElems(elems[1..])
  }

  lemma {:induction false} AssignNewKey<T>(s: seq<Entry<T>>, key: Key, value: T)
    requires forall i :: 0 <= i < |s| ==> s[i].key != key
    ensures Assign(s, key, value) == s + [Entry(key, value)]
  {
    if s != [] {
      AssignNewKey(s[1..], key, value);
    }
  }

  /** The copy succeeds exactly within the bounds, counts every node once and only turns tuples into lists. */
  lemma {:induction false} CopyFromExact(l: Limits, allowTuples: bool, v: Value, depth: nat, nodes: nat)
    requires WellFormed(v)
    ensures var (r, nodes') := CopyFrom(l, allowTuples, v, depth, nodes);
            && (r.Ok? <==> Fits(l, allowTuples, v, depth) && nodes + NodeCount(v) <= l.maxNodes)
            && (r.Ok? ==> r.value == Listed(v) && nodes' == nodes + NodeCount(v))
    decreases v, 0
  {
    hide ItemsFit, ElemsFit, CopyItems, CopyElems, ListedItems, ListedElems;
    match v
    case Leaf(_) =>
    case Dict(items) =>
      CopyItemsExact(l, allowTuples, items, depth + 1, nodes + 1, []);
      assert [] + ListedItems(items) == ListedItems(items);
    case List(_, elems) =>
      CopyElemsExact(l, allowTuples, elems, depth + 1, nodes + 1, []);
      assert [] + ListedElems(elems) == ListedElems(elems);
  }

  ghost predicate Apart(result: seq<Item>, items: seq<Item>) {
    forall i, j :: 0 <= i < |result| && 0 <= j < |items| ==> result[i].key != items[j].key
  }

  lemma ApartStep(result: seq<Item>, items: seq<Item>, copied: Value)
    requires Apart(result, items) && DistinctKeys(items) && items != []
    ensures Apart(result + [Entry(items[0].key, copied)], items[1..]) && DistinctKeys(items[1..])
    ensures Assign(result, items[0].key, copied) == result + [Entry(items[0].key, copied)]
  {
    AssignNewKey(result, items[0].key, copied);
  }

  lemma ListedItemsStep(result: seq<Item>, items: seq<Item>)
    requires items != []
    ensures result + [Entry(items[0].key, Listed(items[0].value))] + ListedItems(items[1..]) == result + ListedItems(items)
  {
    hide Listed;
  }

  lemma {:induction false} CopyItemsExact(l: Limits, allowTuples: bool, items: seq<Item>, depth: nat, nodes: nat,
                                          result: seq<Item>)
    requires forall i :: 0 <= i < |items| ==> WellFormed(items[i].value)
    requires DistinctKeys(items) && Apart(result, items)
    ensures var (r, nodes') := CopyItems(l, allowTuples, items, depth, nodes, result);
            && (r.Ok? <==> ItemsFit(l, allowTuples, items, depth) && (items == [] || nodes + NodeCountItems(items) <= l.maxNodes))
            && (r.Ok? ==> r.value == result + ListedItems(items) && nodes' == nodes + NodeCountItems(items))
    decreases items, 1
  {
    hide CopyFrom, Fits, Listed, NodeCount, WellFormed, Apart, DistinctKeys, Assign;
    if items == [] {
      assert result + ListedItems(items) == result;
    } else {
      assert items[0].value < items[0];
      var copied := Listed(items[0].value);
      CopyFromExact(l, allowTuples, items[0].value, depth, nodes);
      ApartStep(result, items, copied);
      CopyItemsExact(l, allowTuples, items[1..], depth, nodes + NodeCount(items[0].value), result + [Entry(items[0].key, copied)]);
      ListedItemsStep(result, items);
    }
  }

  lemma {:induction false} CopyElemsExact(l: Limits, allowTuples: bool, elems: seq<Value>, depth: nat, nodes: nat,
                                          result: seq<Value>)
    requires forall i :: 0 <= i < |elems| ==> WellFormed(elems[i])
    ensures var (r, nodes') := CopyElems(l, allowTuples, elems, depth, nodes, result);
            && (r.Ok? <==> ElemsFit(l, allowTuples, elems, depth) && (elems == [] || nodes + NodeCountElems(elems) <= l.maxNodes))
            && (r.Ok? ==> r.value == result + ListedElems(elems) && nodes' == nodes + NodeCountElems(elems))
    decreases elems, 1
  {
    hide CopyFrom, Fits, Listed, NodeCount, WellFormed;
    if elems == [] {
      assert result + ListedElems(elems) == result;
    } else {
      CopyFromExact(l, allowTuples, elems[0], depth, nodes);
      var longer := result + [Listed(elems[0])];
      CopyElemsExact(l, allowTuples, elems[1..], depth, nodes + NodeCount(elems[0]), longer);
      assert longer + ListedElems(elems[1..]) == result + ListedElems(elems);
    }
  }

  /** `bounded_json_copy` accepts exactly the values within all bounds, and returns them with tuples as lists. */
  lemma CopyExact(l: Limits, allowTuples: bool, v: Value)
    requires WellFormed(v)
    ensures Copy(l, allowTuples, v).Ok? <==> Fits(l, allowTuples, v, 0) && NodeCount(v) <= l.maxNodes
    ensures Copy(l, allowTuples, v).Ok? ==> Copy(l, allowTuples, v).value == Listed(v) && Denote(Listed(v)) == Denote(v)
  {
    hide CopyFrom, Fits, NodeCount;
    CopyFromExact(l, allowTuples, v, 0, 0);
    ListedDenotes(v);
  }

  lemma {:induction false} ListedDenotes(v: Value)
    ensures Denote(Listed(v)) == Denote(v)
    decreases v, 0
  {
    match v
    case Leaf(_) =>
    case Dict(items) => ListedItemsDenote(items);
    case List(_, elems) => ListedElemsDenote(elems);
  }

  lemma {:induction false} ListedItemsDenote(items: seq<Item>)
    ensures DenoteEach(ListedItems(items)) == DenoteEach(items)
    decreases items, 1
  {
    if items != [] {
      assert items[0].value < items[0];
      ListedDenotes(items[0].value);
      ListedItemsDenote(items[1..]);
    }
  }

  lemma {:induction false} ListedElemsDenote(elems: seq<Value>)
    ensures DenoteElems(ListedElems(elems)) == DenoteElems(elems)
    decreases elems, 1
  {
    if elems != [] {
      ListedDenotes(elems[0]);
      ListedElemsDenote(elems[1..]);
    }
  }

  /** The copy of an accepted value passes the same bounds, whatever is said about tuples, and is its own copy. */
  lemma {:induction false} ListedFits(l: Limits, t: bool, t': bool, v: Value, depth: nat)
    requires Fits(l, t, v, depth)
    ensures Fits(l, t', Listed(v), depth)
    decreases v, 0
  {
    match v
    case Leaf(_) =>
    case Dict(items) => ListedItemsFit(l, t, t', items, depth + 1);
    case List(_, elems) => ListedElemsFit(l, t, t', elems, depth + 1);
  }

  lemma {:induction false} ListedItemsFit(l: Limits, t: bool, t': bool, items: seq<Item>, depth: nat)
    requires ItemsFit(l, t, items, depth)
    ensures ItemsFit(l, t', ListedItems(items), depth)
    decreases items, 1
  {
    if items != [] {
      assert items[0].value < items[0];
      ListedFits(l, t, t', items[0].value, depth);
      ListedItemsFit(l, t, t', items[1..], depth);
    }
  }

  lemma {:induction false} ListedElemsFit(l: Limits, t: bool, t': bool, elems: seq<Value>, depth: nat)
    requires ElemsFit(l, t, elems, depth)
    ensures ElemsFit(l, t', ListedElems(elems), depth)
    decreases elems, 1
  {
    if elems != [] {
      ListedFits(l, t, t', elems[0], depth);
      ListedElemsFit(l, t, t', elems[1..], depth);
    }
  }

  lemma {:induction false} ListedStable(v: Value)
    ensures Listed(Listed(v)) == Listed(v) && NodeCount(Listed(v)) == NodeCount(v)
    ensures WellFormed(v) ==> WellFormed(Listed(v))
    decreases v, 0
  {
    match v
    case Leaf(_) =>
    case Dict(items) => ListedItemsStable(items);
    case List(_, elems) => ListedElemsStable(elems);
  }

  lemma {:induction false} ListedItemsStable(items: seq<Item>)
    ensures ListedItems(ListedItems(items)) == ListedItems(items)
    ensures NodeCountItems(ListedItems(items)) == NodeCountItems(items)
    ensures (forall i :: 0 <= i < |items| ==> WellFormed(items[i].value)) ==>
              forall i :: 0 <= i < |items| ==> WellFormed(ListedItems(items)[i].value)
    decreases items, 1
  {
    if items != [] {
      assert items[0].value < items[0];
      ListedStable(items[0].value);
      ListedItemsStable(items[1..]);
    }
  }

  lemma {:induction false} ListedElemsStable(elems: seq<Value>)
    ensures ListedElems(ListedElems(elems)) == ListedElems(elems)
    ensures NodeCountElems(ListedElems(elems)) == NodeCountElems(elems)
    ensures (forall i :: 0 <= i < |elems| ==> WellFormed(elems[i])) ==>
              forall i :: 0 <= i < |elems| ==> WellFormed(ListedElems(elems)[i])
    decreases elems, 1
  {
    if elems != [] {
      ListedStable(elems[0]);
      ListedElemsStable(elems[1..]);
    }
  }

  lemma CopyIsFixedPoint(l: Limits, t: bool, t': bool, v: Value)
    requires WellFormed(v) && Copy(l, t, v).Ok?
    ensures Copy(l, t', Copy(l, t, v).value) == Copy(l, t, v)
  {
    hide CopyFrom, Fits, NodeCount, Listed;
    CopyFromExact(l, t, v, 0, 0);
    ListedFits(l, t, t', v, 0);
    ListedStable(v);
    CopyFromExact(l, t', Listed(v), 0, 0);
  }
}
