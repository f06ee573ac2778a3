/** The two bounded traversals of JSON-like input: the recursive copy (`govengine/_json_boundary.py`)
    and the explicit-stack key scan (`govengine/_governance_validation.py`). */
module BoundedTraversal {
  import opened Prelude
  import opened PyValues

  datatype Limits = Limits(maxDepth: nat, maxNodes: nat, maxCollectionLength: nat, maxStringLength: nat)

  const DEFAULT_LIMITS := Limits(32, 10_000, 1_000, 65_536)

  datatype Breach =
    | MaxNodes
    | MaxDepth
    | MaxCollectionLength
    | MaxStringLength
    | NonFiniteNumber
    | NonStringKey
    | UnsupportedType(typeName: string)
    | DuplicateKey(name: Str)

  // ------------------------------------------------------------ the key scan

  /** One object as the scan sees it. Objects live in a graph that may be shared or cyclic. */
  datatype Shape<T> =
    | Scalar
    | Mapping(entries: seq<Entry<T>>)
    | Sequence(elems: seq<T>)

  function Children<T>(shape: Shape<T>): seq<T> {
    match shape
    case Scalar => []
    case Mapping(entries) => seq(|entries|, i requires 0 <= i < |entries| => entries[i].value)
    case Sequence(elems) => elems
  }

  datatype Scan = Clear | Found(name: Str) | Breached(breach: Breach)

  /** What is being looked for: the normalisation of key texts, the forbidden texts and the limits. */
  datatype Query = Query(normalise: Str -> Str, forbidden: set<Str>, limits: Limits)

  /** The first forbidden key of a mapping, in item order. */
  function FirstForbidden<T>(q: Query, entries: seq<Entry<T>>): Option<Str> {
    if entries == [] then None
    else
      var normalised := q.normalise(ShowKey(entries[0].key));
      if normalised in q.forbidden then Some(normalised) else FirstForbidden(q, entries[1..])
  }

  /** The checks made on one object when it is the `n`-th one visited. */
  function Visit<T>(q: Query, shape: Shape<T>, depth: nat, n: nat): Scan {
    if n > q.limits.maxNodes then Breached(MaxNodes)
    else if depth > q.limits.maxDepth then Breached(MaxDepth)
    else
      match shape
      case Scalar => Clear
      case Mapping(entries) =>
        if |entries| > q.limits.maxCollectionLength then Breached(MaxCollectionLength)
        else
          (match FirstForbidden(q, entries)
           case Some(name) => Found(name)
           case None => Clear)
      case Sequence(elems) =>
        if |elems| > q.limits.maxCollectionLength then Breached(MaxCollectionLength) else Clear
  }

  function Room(q: Query, depth: nat): nat {
    if depth > q.limits.maxDepth then 0 else q.limits.maxDepth + 1 - depth
  }

  /** Pre-order traversal threading one node counter; returns the answer and the counter. */
  function ScanFrom<T>(q: Query, view: T -> Shape<T>, item: T, depth: nat, nodes: nat): (Scan, nat)
    decreases Room(q, depth), 0, 0
  {
    var answer := Visit(q, view(item), depth, nodes + 1);
    if answer != Clear then (answer, nodes + 1)
    else ScanAll(q, view, Children(view(item)), depth + 1, nodes + 1)
  }

  function ScanAll<T>(q: Query, view: T -> Shape<T>, items: seq<T>, depth: nat, nodes: nat): (Scan, nat)
    decreases Room(q, depth), 1, |items|
  {
    if items == [] then (Clear, nodes)
    else
      var (answer, nodes') := ScanFrom(q, view, items[0], depth, nodes);
      if answer != Clear then (answer, nodes') else ScanAll(q, view, items[1..], depth, nodes')
  }

  /** What remains to be visited: a stack with its top at the end. */
  function ScanStack<T>(q: Query, view: T -> Shape<T>, stack: seq<(T, nat)>, nodes: nat): (Scan, nat) {
    if stack == [] then (Clear, nodes)
    else
      var (item, depth) := stack[|stack| - 1];
      var (answer, nodes') := ScanFrom(q, view, item, depth, nodes);
      if answer != Clear then (answer, nodes') else ScanStack(q, view, stack[..|stack| - 1], nodes')
  }

  /** `(nested, depth) for nested in reversed(items)`. */
  function Pushed<T>(items: seq<T>, depth: nat): seq<(T, nat)> {
    seq(|items|, i requires 0 <= i < |items| => (items[|items| - 1 - i], depth))
  }

  /** Children pushed in reverse are visited first to last, before the rest of the stack. */
  lemma {:induction false} PushedVisitInOrder<T>(q: Query, view: T -> Shape<T>, base: seq<(T, nat)>, items: seq<T>,
                                            depth: nat, nodes: nat)
    ensures ScanStack(q, view, base + Pushed(items, depth), nodes)
            == var (answer, nodes') := ScanAll(q, view, items, depth, nodes);
               if answer != Clear then (answer, nodes') else ScanStack(q, view, base, nodes')
    decreases |items|
  {
    hide ScanFrom;
    var stack := base + Pushed(items, depth);
    if items == [] {
      assert stack == base;
    } else {
      var (answer, nodes') := ScanFrom(q, view, items[0], depth, nodes);
      assert stack[|stack| - 1] == (items[0], depth);
      assert stack[..|stack| - 1] == base + Pushed(items[1..], depth);
      if answer == Clear {
        PushedVisitInOrder(q, view, base, items[1..], depth, nodes');
      }
    }
  }

  /** Visiting the top of the stack and pushing its children. */
  lemma StackStep<T>(q: Query, view: T -> Shape<T>, stack: seq<(T, nat)>, nodes: nat)
    requires stack != []
    ensures var (item, depth) := stack[|stack| - 1];
            var answer := Visit(q, view(item), depth, nodes + 1);
            ScanStack(q, view, stack, nodes).0
            == if answer != Clear then answer
               else ScanStack(q, view, stack[..|stack| - 1] + Pushed(Children(view(item)), depth + 1), nodes + 1).0
  {
    hide Visit;
    var (item, depth) := stack[|stack| - 1];
    PushedVisitInOrder(q, view, stack[..|stack| - 1], Children(view(item)), depth + 1, nodes + 1);
  }

  method FirstForbiddenKey<T>(q: Query, entries: seq<Entry<T>>) returns (r: Option<Str>)
    ensures r == FirstForbidden(q, entries)
  {
    for i := 0 to |entries|
      invariant FirstForbidden(q, entries) == FirstForbidden(q, entries[i..])
    {
      var normalised := q.normalise(ShowKey(entries[i].key));
      assert entries[i..][1..] == entries[i + 1..];
      if normalised in q.forbidden {
        return Some(normalised);
      }
    }
    return None;
  }

  /** `find_bounded_governance_key`: the explicit-stack scan answers like the recursive traversal, on any
      object graph, and enters its loop at most `maxNodes + 1` times. */
  method FindBoundedKey<T>(q: Query, view: T -> Shape<T>, root: T) returns (r: Scan, iterations: nat)
    ensures r == ScanFrom(q, view, root, 0, 0).0
    ensures iterations <= q.limits.maxNodes + 1
  {
    hide ScanFrom, ScanAll;
    var nodes: nat := 0;
    var stack: seq<(T, nat)> := [(root, 0)];
    iterations := 0;
    SingletonStack(q, view, root);
    while stack != []
      invariant iterations == nodes <= q.limits.maxNodes
      invariant ScanStack(q, view, stack, nodes).0 == ScanFrom(q, view, root, 0, 0).0
      decreases q.limits.maxNodes + 1 - nodes
    {
      StackStep(q, view, stack, nodes);
      var (item, depth) := stack[|stack| - 1];
      stack := stack[..|stack| - 1];
      nodes := nodes + 1;
      iterations := iterations + 1;
      if nodes > q.limits.maxNodes {
        return Breached(MaxNodes), iterations;
      }
      if depth > q.limits.maxDepth {
        return Breached(MaxDepth), iterations;
      }
      match view(item)
      case Scalar =>
        assert stack + Pushed(Children(view(item)), depth + 1) == stack;
      case Mapping(entries) =>
        if |entries| > q.limits.maxCollectionLength {
          return Breached(MaxCollectionLength), iterations;
        }
        var key := FirstForbiddenKey(q, entries);
        if key.Some? {
          return Found(key.value), iterations;
        }
        stack := stack + Pushed(Children(view(item)), depth + 1);
      case Sequence(elems) =>
        if |elems| > q.limits.maxCollectionLength {
          return Breached(MaxCollectionLength), iterations;
        }
        stack := stack + Pushed(elems, depth + 1);
    }
    return Clear, iterations;
  }

  lemma SingletonStack<T>(q: Query, view: T -> Shape<T>, root: T)
    ensures ScanStack(q, view, [(root, 0)], 0) == ScanFrom(q, view, root, 0, 0)
  {
    hide ScanFrom;
    assert [(root, 0 as nat)][..0] == [];
    assert ScanStack(q, view, [(root, 0)], 0) ==
      var (answer, nodes') := ScanFrom(q, view, root, 0, 0);
      if answer != Clear then (answer, nodes') else ScanStack(q, view, [], nodes');
  }
}
