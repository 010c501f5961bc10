/**
 * Per-row UI state and the flattening of the hierarchy into rows.
 *
 * A `Component` is the state the tree list keeps for one visible node: the
 * expand flag, the depth it was first met at, its position in the current
 * row list, and one edit buffer per field of the node. The node itself is
 * referred to by its name, the hierarchy's identity for it.
 */
module Rows {
  import opened Wrappers
  import opened Hierarchy

  /** A single-line text input: its text and whether it has the focus. */
  datatype Buffer = Buffer(value: string, focused: bool)

  datatype Component = Component(item: string, expanded: bool, depth: nat, index: nat, fields: map<string, Buffer>)

  /** `Component(item, depth, index)`: collapsed, one unfocused buffer per field seeded from the node. */
  function NewComponent(n: Node, depth: nat, index: nat): (c: Component)
    ensures c.item == n.name && !c.expanded && c.depth == depth && c.index == index
    ensures c.fields.Keys == FieldNames(n)
    ensures forall f :: f in c.fields ==> c.fields[f] == Buffer(FieldValue(n, f), false)
  {
    Component(n.name, false, depth, index, map f | f in FieldNames(n) :: Buffer(FieldValue(n, f), false))
  }

  /** `refresh_item(field)`: that field's buffer is re-seeded from the node; nothing else changes. */
  function RefreshItem(c: Component, n: Node, field: string): (r: Component)
    requires n.name == c.item && field in FieldNames(n)
    ensures field in r.fields && r.fields[field] == Buffer(FieldValue(n, field), false)
    ensures r.fields.Keys == c.fields.Keys + {field}
    ensures forall f :: f in c.fields && f != field ==> r.fields[f] == c.fields[f]
    ensures r.(fields := c.fields) == c
  {
    c.(fields := c.fields[field := Buffer(FieldValue(n, field), false)])
  }

  /** `toggle_expand()`: flips the flag and nothing else. */
  function ToggleExpand(c: Component): (r: Component)
    ensures r.expanded != c.expanded
    ensures r.(expanded := c.expanded) == c
  {
    c.(expanded := !c.expanded)
  }

  /** `expand(e)`: sets the flag and nothing else. */
  function Expand(c: Component, e: bool): (r: Component)
    ensures r.expanded == e
    ensures r.(expanded := c.expanded) == c
  {
    c.(expanded := e)
  }

  lemma {:induction false} ToggleExpandTwice(c: Component)
    ensures ToggleExpand(ToggleExpand(c)) == c
  {
  }

  lemma {:induction false} ToggleIsExpandNegated(c: Component)
    ensures ToggleExpand(c) == Expand(c, !c.expanded)
    ensures Expand(Expand(c, true), true) == Expand(c, true)
  {
  }

  /** `_rows.get(name)`: the row kept for the named node in a row list. */
  function Lookup(rows: seq<Component>, x: string): (r: Option<Component>)
    ensures r.Some? ==> r.value in rows && r.value.item == x
    ensures r.None? <==> forall c :: c in rows ==> c.item != x
  {
    if rows == [] then None
    else if rows[0].item == x then Some(rows[0])
    else Lookup(rows[1..], x)
  }

  /** Replacing a row by one for the same node leaves what every other name looks up as it was. */
  lemma {:induction false} LookupOther(rows: seq<Component>, j: nat, c: Component, x: string)
    requires j < |rows| && c.item == rows[j].item && x != c.item
    ensures Lookup(rows[j := c], x) == Lookup(rows, x)
  {
    if j > 0 && rows[0].item != x {
      assert rows[j := c][1..] == rows[1..][j - 1 := c];
      LookupOther(rows[1..], j - 1, c, x);
    }
  }

  /**
   * What one refresh pass reads besides the hierarchy: the rows of the
   * previous pass, the filter text, and the pattern matcher standing for
   * `re.findall(pattern, about)` being non-empty.
   */
  datatype Pass = Pass(prev: seq<Component>, pattern: string, matches: (string, string) -> bool)

  /** `push_item`: the previous pass's component for the node if there is one, else a new one; either way at `index`. */
  function Reuse(q: Pass, n: Node, depth: nat, index: nat): (c: Component)
    ensures c.item == n.name && c.index == index
    ensures Lookup(q.prev, n.name).Some? ==> c.(index := Lookup(q.prev, n.name).value.index) == Lookup(q.prev, n.name).value
    ensures Lookup(q.prev, n.name).None? ==> c == NewComponent(n, depth, index)
  {
    match Lookup(q.prev, n.name)
    case Some(kept) => kept.(index := index)
    case None => NewComponent(n, depth, index)
  }

  /**
   * The rows `add_rows(n, depth)` appends when `start` rows precede it. With
   * a filter, the node is listed only if it matches and its children are
   * always searched; without one, the node is always listed and its children
   * only if its component is expanded.
   */
  function VisitNode(n: Node, depth: nat, start: nat, q: Pass): seq<Component>
    decreases n, 1
  {
    if q.pattern != "" then
      var head := if q.matches(q.pattern, n.about) then [Reuse(q, n, depth, start)] else [];
      head + VisitForest(n.children, depth + 1, start + |head|, q)
    else
      var c := Reuse(q, n, depth, start);
      [c] + if c.expanded then VisitForest(n.children, depth + 1, start + 1, q) else []
  }

  /** The rows appended by the `for` loop over a list of siblings. */
  function VisitForest(ns: seq<Node>, depth: nat, start: nat, q: Pass): seq<Component>
    decreases ns, 0
  {
    if ns == [] then []
    else
      var init := VisitForest(ns[..|ns| - 1], depth, start, q);
      init + VisitNode(ns[|ns| - 1], depth, start + |init|, q)
  }

  /** One step of the loop over siblings: the rows of all but the last, then the last one's rows. */
  lemma {:induction false} ForestStep(ns: seq<Node>, depth: nat, start: nat, q: Pass)
    requires ns != []
    ensures VisitForest(ns, depth, start, q) ==
      VisitForest(ns[..|ns| - 1], depth, start, q) + VisitNode(ns[|ns| - 1], depth, start + |VisitForest(ns[..|ns| - 1], depth, start, q)|, q)
  {
  }

  /** One step of the filtered walk: the node's own row, if it matches, then its subtrees. */
  lemma {:induction false} UnfoldFiltered(n: Node, depth: nat, start: nat, q: Pass, h: seq<Component>)
    requires q.pattern != ""
    requires h == if q.matches(q.pattern, n.about) then [Reuse(q, n, depth, start)] else []
    ensures VisitNode(n, depth, start, q) == h + VisitForest(n.children, depth + 1, start + |h|, q)
  {
  }

  /** The same, case by case: a matching node's row comes first; a node that does not match adds only its subtrees' rows. */
  lemma {:induction false} FilteredStep(n: Node, depth: nat, start: nat, q: Pass)
    requires q.pattern != ""
    ensures q.matches(q.pattern, n.about) ==>
      VisitNode(n, depth, start, q) == [Reuse(q, n, depth, start)] + VisitForest(n.children, depth + 1, start + 1, q)
    ensures !q.matches(q.pattern, n.about) ==>
      VisitNode(n, depth, start, q) == VisitForest(n.children, depth + 1, start, q)
  {
    if !q.matches(q.pattern, n.about) {
      assert [] + VisitForest(n.children, depth + 1, start, q) == VisitForest(n.children, depth + 1, start, q);
    }
  }

  /** One step of the unfiltered walk: the node's row, then its subtrees if it is expanded. */
  lemma {:induction false} UnfoldUnfiltered(n: Node, depth: nat, start: nat, q: Pass, c: Component)
    requires q.pattern == "" && c == Reuse(q, n, depth, start)
    ensures VisitNode(n, depth, start, q) == [c] + if c.expanded then VisitForest(n.children, depth + 1, start + 1, q) else []
  {
  }

  /** `push_item(n)` on the rows built so far: the reused component, indexed by its position. */
  function PushRow(acc: seq<Component>, n: Node, depth: nat, q: Pass): seq<Component>
  {
    acc + [Reuse(q, n, depth, |acc|)]
  }

  /**
   * `add_rows(n, depth)` as it runs: the rows built so far, extended in
   * place. With a filter the node is pushed if it matches and its children
   * are always visited; without one the node is pushed and its children
   * are visited if the pushed row is expanded.
   */
  function AddNode(acc: seq<Component>, n: Node, depth: nat, q: Pass): seq<Component>
    decreases n, 1
  {
    if q.pattern != "" then
      AddForest(if q.matches(q.pattern, n.about) then PushRow(acc, n, depth, q) else acc, n.children, depth + 1, q)
    else
      var pushed := PushRow(acc, n, depth, q);
      if pushed[|pushed| - 1].expanded then AddForest(pushed, n.children, depth + 1, q) else pushed
  }

  /** The `for` loop over siblings, each visited in turn on the rows built so far. */
  function AddForest(acc: seq<Component>, ns: seq<Node>, depth: nat, q: Pass): seq<Component>
    decreases ns, 0
  {
    if ns == [] then acc else AddNode(AddForest(acc, ns[..|ns| - 1], depth, q), ns[|ns| - 1], depth, q)
  }

  /** Building in place only appends: what `add_rows` adds is the node's walk, starting at the current length. */
  lemma {:induction false} AddNodeAppends(acc: seq<Component>, n: Node, depth: nat, q: Pass, start: nat)
    requires start == |acc|
    ensures AddNode(acc, n, depth, q) == acc + VisitNode(n, depth, start, q)
    decreases n, 1
  {
    var c := Reuse(q, n, depth, start);
    var pushed := PushRow(acc, n, depth, q);
    assert pushed == acc + [c] && pushed[|pushed| - 1] == c;
    if q.pattern != "" {
      FilteredStep(n, depth, start, q);
      if q.matches(q.pattern, n.about) {
        AddForestAppends(pushed, n.children, depth + 1, q, start + 1);
        Regroup(acc, [c], VisitForest(n.children, depth + 1, start + 1, q));
      } else {
        AddForestAppends(acc, n.children, depth + 1, q, start);
      }
    } else {
      UnfoldUnfiltered(n, depth, start, q, c);
      if c.expanded {
        AddForestAppends(pushed, n.children, depth + 1, q, start + 1);
        Regroup(acc, [c], VisitForest(n.children, depth + 1, start + 1, q));
      } else {
        Regroup(acc, [c], []);
      }
    }
  }

  /** The same for the loop over siblings. */
  lemma {:induction false} AddForestAppends(acc: seq<Component>, ns: seq<Node>, depth: nat, q: Pass, start: nat)
    requires start == |acc|
    ensures AddForest(acc, ns, depth, q) == acc + VisitForest(ns, depth, start, q)
    decreases ns, 0
  {
    if ns != [] {
      var init := ns[..|ns| - 1];
      var last := ns[|ns| - 1];
      var vi := VisitForest(init, depth, start, q);
      AddForestStep(acc, ns, depth, q);
      AddForestAppends(acc, init, depth, q, start);
      Regroup(acc, vi, VisitNode(last, depth, start + |vi|, q));
      AddNodeAppends(acc + vi, last, depth, q, start + |vi|);
      ForestStep(ns, depth, start, q);
    }
  }

  lemma {:induction false} AddForestStep(acc: seq<Component>, ns: seq<Node>, depth: nat, q: Pass)
    requires ns != []
    ensures AddForest(acc, ns, depth, q) == AddNode(AddForest(acc, ns[..|ns| - 1], depth, q), ns[|ns| - 1], depth, q)
  {
  }

  lemma Regroup(a: seq<Component>, b: seq<Component>, c: seq<Component>)
    ensures (a + b) + c == a + (b + c) && |a + b| == |a| + |b|
  {
  }

  /** `row_vals` after `_refresh_rows`. */
  function Flatten(roots: seq<Node>, q: Pass): seq<Component>
  {
    VisitForest(roots, 0, 0, q)
  }

  function Names(rows: seq<Component>): seq<string>
  {
    seq(|rows|, i requires 0 <= i < |rows| => rows[i].item)
  }
}
