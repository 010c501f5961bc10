/**
 * The hierarchy the tree list navigates. It belongs to an outside
 * collaborator (the workspace manager); the list only reads it. A node has a
 * unique name that serves as its identity, an `about` text, further named
 * fields, and an ordered list of children. The top level of the hierarchy
 * (the manager's workspaces) is a sequence of nodes.
 */
module Hierarchy {
  import opened Wrappers

  datatype Node = Node(name: string, about: string, attrs: map<string, string>, children: seq<Node>)

  /** The editable fields of a node: `about` and its other attributes. */
  function FieldNames(n: Node): set<string>
  {
    {"about"} + n.attrs.Keys
  }

  /** `getattr(item, field)` for a field of the node. */
  function FieldValue(n: Node, f: string): string
    requires f in FieldNames(n)
  {
    if f == "about" then n.about else n.attrs[f]
  }

  /** A node met by a walk of the hierarchy, with the names of its ancestors, outermost first. */
  datatype Entry = Entry(node: Node, path: seq<string>)

  /** Pre-order walk of one node: the node, then its children's subtrees in order. */
  function PreOrderNode(n: Node, path: seq<string>): seq<Entry>
    decreases n, 1
  {
    [Entry(n, path)] + PreOrder(n.children, path + [n.name])
  }

  /** Pre-order walk of a list of sibling subtrees, left to right. */
  function PreOrder(ns: seq<Node>, path: seq<string>): seq<Entry>
    decreases ns, 0
  {
    if ns == [] then [] else PreOrder(ns[..|ns| - 1], path) + PreOrderNode(ns[|ns| - 1], path)
  }

  function EntryNames(es: seq<Entry>): seq<string>
  {
    seq(|es|, i requires 0 <= i < |es| => es[i].node.name)
  }

  predicate Distinct(s: seq<string>)
  {
    forall i, j :: 0 <= i < j < |s| ==> s[i] != s[j]
  }

  /** The hierarchy's standing assumption: no two nodes share a name. */
  predicate UniqueNames(roots: seq<Node>)
  {
    Distinct(EntryNames(PreOrder(roots, [])))
  }

  /** Every entry of a walk started under `path` carries `path` as a prefix of its own. */
  lemma {:induction false} PreOrderPaths(ns: seq<Node>, path: seq<string>)
    ensures forall e :: e in PreOrder(ns, path) ==> |path| <= |e.path| && e.path[..|path|] == path
    decreases ns, 0
  {
    if ns != [] {
      PreOrderPaths(ns[..|ns| - 1], path);
      PreOrderNodePaths(ns[|ns| - 1], path);
    }
  }

  lemma {:induction false} PreOrderNodePaths(n: Node, path: seq<string>)
    ensures forall e :: e in PreOrderNode(n, path) ==> |path| <= |e.path| && e.path[..|path|] == path
    decreases n, 1
  {
    var sub := path + [n.name];
    PreOrderPaths(n.children, sub);
    forall e | e in PreOrder(n.children, sub)
      ensures |path| <= |e.path| && e.path[..|path|] == path
    {
      assert e.path[..|sub|] == sub;
      assert e.path[..|path|] == e.path[..|sub|][..|path|];
    }
  }

  /** Each node of a sibling list has its own entry in the walk of that list. */
  lemma {:induction false} TopEntries(ns: seq<Node>, path: seq<string>)
    ensures forall i :: 0 <= i < |ns| ==> Entry(ns[i], path) in PreOrder(ns, path)
  {
    if ns != [] {
      var init := ns[..|ns| - 1];
      TopEntries(init, path);
      assert Entry(ns[|ns| - 1], path) in PreOrderNode(ns[|ns| - 1], path);
      forall i | 0 <= i < |ns|
        ensures Entry(ns[i], path) in PreOrder(ns, path)
      {
        if i < |ns| - 1 {
          assert ns[i] == init[i];
        }
      }
    }
  }

  /** A child of a node met by the walk is met right under it: its path is the node's path plus the node. */
  lemma {:induction false} ChildEntry(ns: seq<Node>, path: seq<string>, e: Entry, c: Node)
    requires e in PreOrder(ns, path) && c in e.node.children
    ensures Entry(c, e.path + [e.node.name]) in PreOrder(ns, path)
    decreases ns, 0
  {
    var init := ns[..|ns| - 1];
    if e in PreOrder(init, path) {
      ChildEntry(init, path, e, c);
    } else {
      ChildEntryNode(ns[|ns| - 1], path, e, c);
    }
  }

  lemma {:induction false} ChildEntryNode(n: Node, path: seq<string>, e: Entry, c: Node)
    requires e in PreOrderNode(n, path) && c in e.node.children
    ensures Entry(c, e.path + [e.node.name]) in PreOrderNode(n, path)
    decreases n, 1
  {
    var sub := path + [n.name];
    if e == Entry(n, path) {
      TopEntries(n.children, sub);
      var i :| 0 <= i < |n.children| && n.children[i] == c;
    } else {
      ChildEntry(n.children, sub, e, c);
    }
  }

  /**
   * Every ancestor named on an entry's path (below the starting path) has
   * its own entry in the walk, whose path is the corresponding prefix.
   */
  lemma {:induction false} AncestorEntry(ns: seq<Node>, path: seq<string>, e: Entry, k: nat) returns (a: Entry)
    requires e in PreOrder(ns, path) && |path| <= k < |e.path|
    ensures a in PreOrder(ns, path) && a.node.name == e.path[k] && a.path == e.path[..k]
    decreases ns, 0
  {
    var init := ns[..|ns| - 1];
    if e in PreOrder(init, path) {
      a := AncestorEntry(init, path, e, k);
    } else {
      a := AncestorEntryNode(ns[|ns| - 1], path, e, k);
    }
  }

  lemma {:induction false} AncestorEntryNode(n: Node, path: seq<string>, e: Entry, k: nat) returns (a: Entry)
    requires e in PreOrderNode(n, path) && |path| <= k < |e.path|
    ensures a in PreOrderNode(n, path) && a.node.name == e.path[k] && a.path == e.path[..k]
    decreases n, 1
  {
    var sub := path + [n.name];
    assert e != Entry(n, path);
    assert e in PreOrder(n.children, sub);
    if k == |path| {
      PreOrderPaths(n.children, sub);
      assert e.path[..|sub|] == sub;
      assert e.path[..k] == e.path[..|sub|][..k];
      a := Entry(n, path);
    } else {
      a := AncestorEntry(n.children, sub, e, k);
    }
  }

  /** Names distinct over a whole list of entries are distinct within each part and between the parts. */
  lemma {:induction false} DistinctParts(a: seq<Entry>, b: seq<Entry>)
    requires Distinct(EntryNames(a + b))
    ensures Distinct(EntryNames(a)) && Distinct(EntryNames(b))
    ensures forall e, f :: e in a && f in b ==> e.node.name != f.node.name
  {
    var ab := a + b;
    forall i, j | 0 <= i < j < |a|
      ensures EntryNames(a)[i] != EntryNames(a)[j]
    {
      assert EntryNames(ab)[i] != EntryNames(ab)[j];
    }
    forall i, j | 0 <= i < j < |b|
      ensures EntryNames(b)[i] != EntryNames(b)[j]
    {
      assert ab[|a| + i] == b[i] && ab[|a| + j] == b[j];
      assert EntryNames(ab)[|a| + i] != EntryNames(ab)[|a| + j];
    }
    forall e, f | e in a && f in b
      ensures e.node.name != f.node.name
    {
      var i :| 0 <= i < |a| && a[i] == e;
      var j :| 0 <= j < |b| && b[j] == f;
      assert ab[i] == e && ab[|a| + j] == f;
      assert EntryNames(ab)[i] != EntryNames(ab)[|a| + j];
    }
  }

  /** In a list of entries with distinct names, two entries about the same name are the same entry. */
  lemma {:induction false} DistinctEntry(es: seq<Entry>, e1: Entry, e2: Entry)
    requires Distinct(EntryNames(es))
    requires e1 in es && e2 in es && e1.node.name == e2.node.name
    ensures e1 == e2
  {
    var i :| 0 <= i < |es| && es[i] == e1;
    var j :| 0 <= j < |es| && es[j] == e2;
    assert EntryNames(es)[i] == EntryNames(es)[j];
  }

  /** Under unique names, two entries of the walk about the same name are the same entry. */
  lemma {:induction false} UniqueEntry(roots: seq<Node>, e1: Entry, e2: Entry)
    requires UniqueNames(roots)
    requires e1 in PreOrder(roots, []) && e2 in PreOrder(roots, []) && e1.node.name == e2.node.name
    ensures e1 == e2
  {
    var es := PreOrder(roots, []);
    var i :| 0 <= i < |es| && es[i] == e1;
    var j :| 0 <= j < |es| && es[j] == e2;
    assert EntryNames(es)[i] == EntryNames(es)[j];
  }

  /** The first entry of a walk that is about the named node. */
  function FindEntry(es: seq<Entry>, x: string): (r: Option<Entry>)
    ensures r.Some? ==> r.value in es && r.value.node.name == x
    ensures r.None? ==> forall e :: e in es ==> e.node.name != x
  {
    if es == [] then None
    else if es[0].node.name == x then Some(es[0])
    else FindEntry(es[1..], x)
  }

  /**
   * `item.parent.name` when the parent is a node; None when the item is a
   * top-level node (its parent is the manager) or is not in the hierarchy.
   */
  function ParentName(roots: seq<Node>, x: string): (r: Option<string>)
    ensures r.Some? ==> exists e :: e in PreOrder(roots, []) && e.node.name == x && e.path != [] && r.value == e.path[|e.path| - 1]
    ensures (forall e :: e in PreOrder(roots, []) ==> e.node.name != x) ==> r.None?
    ensures UniqueNames(roots) ==> forall e :: e in PreOrder(roots, []) && e.node.name == x ==>
      r == if e.path == [] then None else Some(e.path[|e.path| - 1])
  {
    var es := PreOrder(roots, []);
    assert UniqueNames(roots) ==> forall e :: e in es && e.node.name == x ==> FindEntry(es, x) == Some(e) by {
      if UniqueNames(roots) {
        forall e | e in es && e.node.name == x
          ensures FindEntry(es, x) == Some(e)
        {
          UniqueEntry(roots, FindEntry(es, x).value, e);
        }
      }
    }
    match FindEntry(es, x)
    case Some(e) => if e.path == [] then None else Some(e.path[|e.path| - 1])
    case None => None
  }

  /** The position of the named node among the given siblings. */
  function IndexOf(ns: seq<Node>, x: string): (r: Option<nat>)
    ensures r.Some? ==> r.value < |ns| && ns[r.value].name == x
    ensures r.None? ==> forall i :: 0 <= i < |ns| ==> ns[i].name != x
  {
    if ns == [] then None
    else if ns[0].name == x then Some(0)
    else match IndexOf(ns[1..], x)
      case Some(i) => Some(i + 1)
      case None => None
  }

  /** Two nodes met by a walk with the same path, that is, under the same parent. */
  ghost predicate Siblings(es: seq<Entry>, x: string, y: string)
  {
    exists e, f :: e in es && f in es && e.node.name == x && f.node.name == y && f.path == e.path
  }

  /**
   * The name of the sibling `step` places after the named node (before it
   * for a negative step) in the sibling group that holds it, the top level
   * first and then the subtrees left to right: `next_sibling()` is step 1,
   * `prev_sibling()` step -1. None when there is no such sibling. The two
   * nodes share their parent, so they share their path in the walk.
   */
  function SiblingOf(ns: seq<Node>, path: seq<string>, x: string, step: int): (r: Option<string>)
    ensures r.Some? ==> Siblings(PreOrder(ns, path), x, r.value)
    decreases ns, 1
  {
    match IndexOf(ns, x)
    case Some(i) =>
      if 0 <= i + step < |ns| then
        TopEntries(ns, path);
        assert Entry(ns[i], path) in PreOrder(ns, path);
        assert Entry(ns[i + step], path) in PreOrder(ns, path);
        Some(ns[i + step].name)
      else None
    case None => SiblingBelow(ns, path, x, step)
  }

  /** The search of `SiblingOf` in the subtrees of a sibling list, left to right. */
  function SiblingBelow(ns: seq<Node>, path: seq<string>, x: string, step: int): (r: Option<string>)
    ensures r.Some? ==> Siblings(PreOrder(ns, path), x, r.value)
    decreases ns, 0
  {
    if ns == [] then None
    else
      var init := ns[..|ns| - 1];
      var last := ns[|ns| - 1];
      assert PreOrder(ns, path) == PreOrder(init, path) + [Entry(last, path)] + PreOrder(last.children, path + [last.name]);
      match SiblingBelow(init, path, x, step)
      case Some(y) => Some(y)
      case None => SiblingOf(last.children, path + [last.name], x, step)
  }

  /** A sibling list of the walk: the top-level list itself, or the children of a node met by the walk. */
  ghost predicate Group(ns: seq<Node>, path: seq<string>, cs: seq<Node>)
  {
    cs == ns || exists p :: p in PreOrder(ns, path) && p.node.children == cs
  }

  /** The step from a node in the sibling list that holds it: the sibling `step` places away, or None past either end. */
  function Stepped(cs: seq<Node>, i: int, step: int): Option<string>
  {
    if 0 <= i + step < |cs| then Some(cs[i + step].name) else None
  }

  /**
   * Under distinct names, `SiblingOf` moves `step` places within the one
   * sibling list that holds the node: from position `i` of that list it
   * gives the name at `i + step`, and None when that falls outside it.
   */
  lemma {:induction false} SiblingOfStep(ns: seq<Node>, path: seq<string>, cs: seq<Node>, x: string, i: nat, step: int)
    requires Distinct(EntryNames(PreOrder(ns, path)))
    requires Group(ns, path, cs) && IndexOf(cs, x) == Some(i)
    ensures SiblingOf(ns, path, x, step) == Stepped(cs, i, step)
    decreases ns, 1
  {
    if cs != ns {
      var p :| p in PreOrder(ns, path) && p.node.children == cs;
      match IndexOf(ns, x)
      case Some(j) =>
        TopEntries(ns, path);
        ChildEntry(ns, path, p, cs[i]);
        PreOrderPaths(ns, path);
        DistinctEntry(PreOrder(ns, path), Entry(ns[j], path), Entry(cs[i], p.path + [p.node.name]));
        assert false;
      case None =>
        SiblingBelowStep(ns, path, p, x, i, step);
    }
  }

  lemma {:induction false} SiblingBelowStep(ns: seq<Node>, path: seq<string>, p: Entry, x: string, i: nat, step: int)
    requires Distinct(EntryNames(PreOrder(ns, path)))
    requires p in PreOrder(ns, path) && IndexOf(p.node.children, x) == Some(i)
    ensures SiblingBelow(ns, path, x, step) == Stepped(p.node.children, i, step)
    decreases ns, 0
  {
    var init := ns[..|ns| - 1];
    var last := ns[|ns| - 1];
    var sub := path + [last.name];
    var cs := p.node.children;
    var xe := Entry(cs[i], p.path + [p.node.name]);
    assert PreOrder(ns, path) == PreOrder(init, path) + PreOrderNode(last, path);
    DistinctParts(PreOrder(init, path), PreOrderNode(last, path));
    DistinctParts([Entry(last, path)], PreOrder(last.children, sub));
    if p in PreOrder(init, path) {
      SiblingBelowStep(init, path, p, x, i, step);
      ChildEntry(init, path, p, cs[i]);
      assert xe in PreOrder(init, path);
      SiblingAbsent(last.children, sub, x, step);
    } else {
      ChildEntryNode(last, path, p, cs[i]);
      assert xe in PreOrderNode(last, path);
      SiblingBelowAbsent(init, path, x, step);
      SiblingOfStep(last.children, sub, cs, x, i, step);
    }
  }

  /** A name the walk does not meet has no sibling. */
  lemma {:induction false} SiblingAbsent(ns: seq<Node>, path: seq<string>, x: string, step: int)
    requires forall e :: e in PreOrder(ns, path) ==> e.node.name != x
    ensures SiblingOf(ns, path, x, step).None?
    decreases ns, 1
  {
    TopEntries(ns, path);
    assert IndexOf(ns, x).None? by {
      forall i | 0 <= i < |ns|
        ensures ns[i].name != x
      {
        assert Entry(ns[i], path) in PreOrder(ns, path);
      }
    }
    SiblingBelowAbsent(ns, path, x, step);
  }

  lemma {:induction false} SiblingBelowAbsent(ns: seq<Node>, path: seq<string>, x: string, step: int)
    requires forall e :: e in PreOrder(ns, path) ==> e.node.name != x
    ensures SiblingBelow(ns, path, x, step).None?
    decreases ns, 0
  {
    if ns != [] {
      var init := ns[..|ns| - 1];
      var last := ns[|ns| - 1];
      assert PreOrder(ns, path) == PreOrder(init, path) + [Entry(last, path)] + PreOrder(last.children, path + [last.name]);
      SiblingBelowAbsent(init, path, x, step);
      SiblingAbsent(last.children, path + [last.name], x, step);
    }
  }
}
