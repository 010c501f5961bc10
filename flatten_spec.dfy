/**
 * An independent description of what one refresh pass lists, and the
 * properties of `_refresh_rows` proved against it: the rows are the
 * pre-order walk of the hierarchy restricted to the listed nodes, each row's
 * index is its position, components are carried over by name, and a second
 * refresh with nothing changed in between gives the same rows.
 */
module FlattenSpec {
  import opened Wrappers
  import opened Hierarchy
  import opened Rows

  /** Whether the previous pass left the named node expanded (a node it did not list is not). */
  function Expanded(prev: seq<Component>, x: string): bool
  {
    match Lookup(prev, x)
    case Some(c) => c.expanded
    case None => false
  }

  /** Every ancestor on the path is expanded. */
  predicate Visible(path: seq<string>, prev: seq<Component>)
  {
    forall k :: 0 <= k < |path| ==> Expanded(prev, path[k])
  }

  /**
   * Whether a pass lists a node: with a filter, iff its `about` matches,
   * wherever it is; without one, iff all its ancestors are expanded.
   */
  predicate Keep(e: Entry, q: Pass)
  {
    if q.pattern != "" then q.matches(q.pattern, e.node.about) else Visible(e.path, q.prev)
  }

  /** The entries a pass keeps, in walk order. */
  function Kept(es: seq<Entry>, q: Pass): (r: seq<Entry>)
    ensures |r| <= |es|
  {
    if es == [] then []
    else Kept(es[..|es| - 1], q) + if Keep(es[|es| - 1], q) then [es[|es| - 1]] else []
  }

  /** The components a pass gives a list of kept entries, the first at position `start`. */
  function Build(es: seq<Entry>, q: Pass, start: nat): (r: seq<Component>)
  {
    seq(|es|, k requires 0 <= k < |es| => Reuse(q, es[k].node, |es[k].path|, start + k))
  }

  lemma {:induction false} KeptAppend(a: seq<Entry>, b: seq<Entry>, q: Pass)
    ensures Kept(a + b, q) == Kept(a, q) + Kept(b, q)
    decreases |b|
  {
    if b == [] {
      assert a + b == a;
    } else {
      var b' := b[..|b| - 1];
      assert (a + b)[..|a + b| - 1] == a + b';
      assert (a + b)[|a + b| - 1] == b[|b| - 1];
      KeptAppend(a, b', q);
    }
  }

  /** A kept entry is an entry of the walk that the pass keeps, and every such entry is kept. */
  lemma {:induction false} KeptMembers(es: seq<Entry>, q: Pass)
    ensures forall e :: e in Kept(es, q) <==> e in es && Keep(e, q)
  {
    if es != [] {
      var init := es[..|es| - 1];
      KeptMembers(init, q);
      assert es == init + [es[|es| - 1]];
    }
  }

  lemma {:induction false} KeptEmpty(es: seq<Entry>, q: Pass)
    requires forall e :: e in es ==> !Keep(e, q)
    ensures Kept(es, q) == []
  {
    if es != [] {
      var init := es[..|es| - 1];
      assert forall e :: e in init ==> e in es;
      KeptEmpty(init, q);
      assert es[|es| - 1] in es;
    }
  }

  /** Position k of a built list is the component for the k-th entry at index start + k. */
  lemma {:induction false} BuildAt(es: seq<Entry>, q: Pass, start: nat)
    ensures forall k :: 0 <= k < |es| ==> Build(es, q, start)[k] == Reuse(q, es[k].node, |es[k].path|, start + k)
  {
    if es != [] {
      BuildAt(es[..|es| - 1], q, start);
    }
  }

  lemma {:induction false} BuildAppend(a: seq<Entry>, b: seq<Entry>, q: Pass, start: nat, mid: nat)
    requires mid == start + |a|
    ensures Build(a + b, q, start) == Build(a, q, start) + Build(b, q, mid)
  {
    var l := Build(a + b, q, start);
    var r := Build(a, q, start) + Build(b, q, start + |a|);
    BuildAt(a + b, q, start);
    BuildAt(a, q, start);
    BuildAt(b, q, start + |a|);
    assert |l| == |r|;
    forall k | 0 <= k < |l|
      ensures l[k] == r[k]
    {
      if k >= |a| {
        assert (a + b)[k] == b[k - |a|];
      }
    }
  }

  /** A component built for a node is expanded exactly when the previous pass left it expanded. */
  lemma {:induction false} ReuseExpanded(q: Pass, n: Node, depth: nat, index: nat)
    ensures Reuse(q, n, depth, index).expanded == Expanded(q.prev, n.name)
  {
  }

  /** A node's own entry is kept alone or not at all, and builds one component. */
  lemma {:induction false} HeadEntry(n: Node, path: seq<string>, start: nat, q: Pass)
    ensures Kept([Entry(n, path)], q) == if Keep(Entry(n, path), q) then [Entry(n, path)] else []
    ensures Build([Entry(n, path)], q, start) == [Reuse(q, n, |path|, start)]
  {
    assert [Entry(n, path)][..0] == [];
  }

  /** The kept rows of a node's walk split into its own row and its subtrees' rows. */
  lemma {:induction false} SplitNodeWalk(n: Node, path: seq<string>, start: nat, q: Pass, head: seq<Entry>, rest: seq<Entry>)
    requires head == Kept([Entry(n, path)], q) && rest == PreOrder(n.children, path + [n.name])
    ensures Build(Kept(PreOrderNode(n, path), q), q, start) == Build(head, q, start) + Build(Kept(rest, q), q, start + |head|)
  {
    var e := Entry(n, path);
    assert PreOrderNode(n, path) == [e] + rest;
    KeptAppend([e], rest, q);
    BuildAppend(head, Kept(rest, q), q, start, start + |head|);
  }

  /** Below a collapsed node, an unfiltered pass keeps nothing. */
  lemma {:induction false} HiddenBelowCollapsed(n: Node, path: seq<string>, q: Pass)
    requires q.pattern == "" && !Expanded(q.prev, n.name)
    ensures Kept(PreOrder(n.children, path + [n.name]), q) == []
  {
    var sub := path + [n.name];
    var rest := PreOrder(n.children, sub);
    PreOrderPaths(n.children, sub);
    forall x | x in rest
      ensures !Keep(x, q)
    {
      assert x.path[..|sub|] == sub;
      assert x.path[|path|] == n.name;
    }
    KeptEmpty(rest, q);
  }

  /** With a filter, the node's kept entries are its own if it matches, then its subtrees' kept entries. */
  lemma {:induction false} FilteredSplit(n: Node, path: seq<string>, start: nat, q: Pass, h: seq<Component>)
    requires q.pattern != ""
    requires h == if q.matches(q.pattern, n.about) then [Reuse(q, n, |path|, start)] else []
    ensures Build(Kept(PreOrderNode(n, path), q), q, start) == h + Build(Kept(PreOrder(n.children, path + [n.name]), q), q, start + |h|)
  {
    var head := Kept([Entry(n, path)], q);
    assert |head| == |h| && Build(head, q, start) == h by {
      HeadEntry(n, path, start, q);
      if q.matches(q.pattern, n.about) {
        assert head == [Entry(n, path)];
      } else {
        assert head == [];
      }
    }
    SplitNodeWalk(n, path, start, q, head, PreOrder(n.children, path + [n.name]));
  }

  /** Without a filter, a visible node's kept entries are its own, then its subtrees' kept entries. */
  lemma {:induction false} UnfilteredSplit(n: Node, path: seq<string>, start: nat, q: Pass)
    requires q.pattern == "" && Visible(path, q.prev)
    ensures Build(Kept(PreOrderNode(n, path), q), q, start) == [Reuse(q, n, |path|, start)] + Build(Kept(PreOrder(n.children, path + [n.name]), q), q, start + 1)
  {
    var head := Kept([Entry(n, path)], q);
    assert head == [Entry(n, path)] && Build(head, q, start) == [Reuse(q, n, |path|, start)] by {
      HeadEntry(n, path, start, q);
    }
    SplitNodeWalk(n, path, start, q, head, PreOrder(n.children, path + [n.name]));
  }

  /** The children of an expanded visible node are visible. */
  lemma {:induction false} VisibleBelow(path: seq<string>, x: string, prev: seq<Component>)
    requires Visible(path, prev) && Expanded(prev, x)
    ensures Visible(path + [x], prev)
  {
  }

  /** The recursive walk of one node lists exactly the kept entries of its pre-order walk. */
  lemma {:induction false} VisitNodeIsBuild(n: Node, path: seq<string>, start: nat, q: Pass)
    requires q.pattern != "" || Visible(path, q.prev)
    ensures VisitNode(n, |path|, start, q) == Build(Kept(PreOrderNode(n, path), q), q, start)
    decreases n, 1
  {
    var sub := path + [n.name];
    if q.pattern != "" {
      var h := if q.matches(q.pattern, n.about) then [Reuse(q, n, |path|, start)] else [];
      FilteredSplit(n, path, start, q, h);
      UnfoldFiltered(n, |path|, start, q, h);
      VisitForestIsBuild(n.children, sub, start + |h|, q);
    } else {
      var c := Reuse(q, n, |path|, start);
      UnfilteredSplit(n, path, start, q);
      UnfoldUnfiltered(n, |path|, start, q, c);
      ReuseExpanded(q, n, |path|, start);
      if c.expanded {
        VisibleBelow(path, n.name, q.prev);
        VisitForestIsBuild(n.children, sub, start + 1, q);
      } else {
        HiddenBelowCollapsed(n, path, q);
      }
    }
  }

  /** The same for the loop over a list of siblings. */
  lemma {:induction false} VisitForestIsBuild(ns: seq<Node>, path: seq<string>, start: nat, q: Pass)
    requires q.pattern != "" || Visible(path, q.prev)
    ensures VisitForest(ns, |path|, start, q) == Build(Kept(PreOrder(ns, path), q), q, start)
    decreases ns, 1
  {
    if ns != [] {
      var vi := VisitForest(ns[..|ns| - 1], |path|, start, q);
      ForestWalkSplit(ns, path, start, q);
      KeptBuildSplit(ns, path, start, q, start + |vi|);
    }
  }

  /** The walk of a list of siblings is the walk of all but the last, then the last one's walk. */
  lemma {:induction false} ForestWalkSplit(ns: seq<Node>, path: seq<string>, start: nat, q: Pass)
    requires ns != [] && (q.pattern != "" || Visible(path, q.prev))
    ensures |VisitForest(ns[..|ns| - 1], |path|, start, q)| == |Kept(PreOrder(ns[..|ns| - 1], path), q)|
    ensures VisitForest(ns, |path|, start, q) ==
      Build(Kept(PreOrder(ns[..|ns| - 1], path), q), q, start) +
      Build(Kept(PreOrderNode(ns[|ns| - 1], path), q), q, start + |VisitForest(ns[..|ns| - 1], |path|, start, q)|)
    decreases ns, 0
  {
    var init := ns[..|ns| - 1];
    var vi := VisitForest(init, |path|, start, q);
    ForestStep(ns, |path|, start, q);
    VisitForestIsBuild(init, path, start, q);
    VisitNodeIsBuild(ns[|ns| - 1], path, start + |vi|, q);
  }

  /** The kept entries of a list of siblings, built, are those of all but the last, then the last one's. */
  lemma {:induction false} KeptBuildSplit(ns: seq<Node>, path: seq<string>, start: nat, q: Pass, mid: nat)
    requires ns != [] && mid == start + |Kept(PreOrder(ns[..|ns| - 1], path), q)|
    ensures Build(Kept(PreOrder(ns, path), q), q, start) ==
      Build(Kept(PreOrder(ns[..|ns| - 1], path), q), q, start) + Build(Kept(PreOrderNode(ns[|ns| - 1], path), q), q, mid)
  {
    var init := ns[..|ns| - 1];
    var last := ns[|ns| - 1];
    assert PreOrder(ns, path) == PreOrder(init, path) + PreOrderNode(last, path);
    KeptAppend(PreOrder(init, path), PreOrderNode(last, path), q);
    BuildAppend(Kept(PreOrder(init, path), q), Kept(PreOrderNode(last, path), q), q, start, mid);
  }

  /**
   * `_refresh_rows` lists the hierarchy in pre-order, restricted to the nodes
   * the pass keeps, and gives each the previous pass's component for its name
   * (or a new collapsed one at its depth) with the index set to its position.
   */
  lemma {:induction false} FlattenIsPreOrder(roots: seq<Node>, q: Pass)
    ensures Flatten(roots, q) == Build(Kept(PreOrder(roots, []), q), q, 0)
  {
    VisitForestIsBuild(roots, [], 0, q);
  }

  /** Every row's index is its position in the row list. */
  lemma {:induction false} FlattenIndexed(roots: seq<Node>, q: Pass)
    ensures forall k :: 0 <= k < |Flatten(roots, q)| ==> Flatten(roots, q)[k].index == k
  {
    FlattenIsPreOrder(roots, q);
    BuildAt(Kept(PreOrder(roots, []), q), q, 0);
  }

  /**
   * A node listed again keeps the component it had, apart from the index; a
   * node listed for the first time gets a collapsed component at its depth.
   */
  lemma {:induction false} FlattenKeepsComponents(roots: seq<Node>, q: Pass, k: nat)
    requires k < |Flatten(roots, q)|
    ensures |Kept(PreOrder(roots, []), q)| == |Flatten(roots, q)|
    ensures var c := Flatten(roots, q)[k];
      var e := Kept(PreOrder(roots, []), q)[k];
      e in PreOrder(roots, []) && e.node.name == c.item &&
      match Lookup(q.prev, c.item)
      case Some(p) => c == p.(index := k)
      case None => c == NewComponent(e.node, |e.path|, k)
  {
    var es := Kept(PreOrder(roots, []), q);
    KeptMembers(PreOrder(roots, []), q);
    FlattenIsPreOrder(roots, q);
    BuildAt(es, q, 0);
    assert es[k] in es;
  }

  /** The listed names are the names of the kept entries, position by position. */
  lemma {:induction false} FlattenNames(roots: seq<Node>, q: Pass)
    ensures Names(Flatten(roots, q)) == EntryNames(Kept(PreOrder(roots, []), q))
  {
    FlattenIsPreOrder(roots, q);
    BuildAt(Kept(PreOrder(roots, []), q), q, 0);
  }

  /** A name is listed iff some node of that name is kept by the pass. */
  lemma {:induction false} ListedIffKept(roots: seq<Node>, q: Pass, x: string)
    ensures x in Names(Flatten(roots, q)) <==> exists e :: e in PreOrder(roots, []) && e.node.name == x && Keep(e, q)
  {
    var es := Kept(PreOrder(roots, []), q);
    FlattenNames(roots, q);
    KeptMembers(PreOrder(roots, []), q);
    if x in EntryNames(es) {
      var k :| 0 <= k < |es| && EntryNames(es)[k] == x;
      assert es[k] in es;
    }
    if exists e :: e in PreOrder(roots, []) && e.node.name == x && Keep(e, q) {
      var e :| e in PreOrder(roots, []) && e.node.name == x && Keep(e, q);
      assert e in es;
      var k :| 0 <= k < |es| && es[k] == e;
      assert EntryNames(es)[k] == x;
    }
  }

  /** With a filter, a node is listed iff its `about` matches, at any depth and whatever is expanded. */
  lemma {:induction false} FilterListsMatches(roots: seq<Node>, q: Pass, x: string)
    requires q.pattern != ""
    ensures x in Names(Flatten(roots, q)) <==>
      exists e :: e in PreOrder(roots, []) && e.node.name == x && q.matches(q.pattern, e.node.about)
  {
    ListedIffKept(roots, q, x);
  }

  /** Without a filter, every top-level node is listed. */
  lemma {:induction false} UnfilteredListsRoots(roots: seq<Node>, q: Pass)
    requires q.pattern == ""
    ensures forall i :: 0 <= i < |roots| ==> roots[i].name in Names(Flatten(roots, q))
  {
    TopEntries(roots, []);
    forall i | 0 <= i < |roots|
      ensures roots[i].name in Names(Flatten(roots, q))
    {
      ListedIffKept(roots, q, roots[i].name);
      assert Keep(Entry(roots[i], []), q);
    }
  }

  /**
   * Without a filter, the children of a listed node are listed exactly when
   * that node is expanded.
   */
  lemma {:induction false} UnfilteredChildrenIffExpanded(roots: seq<Node>, q: Pass, e: Entry, c: Node)
    requires q.pattern == ""
    requires e in Kept(PreOrder(roots, []), q) && c in e.node.children
    ensures Entry(c, e.path + [e.node.name]) in Kept(PreOrder(roots, []), q) <==> Expanded(q.prev, e.node.name)
  {
    KeptMembers(PreOrder(roots, []), q);
    ChildEntry(roots, [], e, c);
    var sub := e.path + [e.node.name];
    if Expanded(q.prev, e.node.name) {
      assert Visible(sub, q.prev);
    } else {
      assert !Visible(sub, q.prev) by {
        assert sub[|e.path|] == e.node.name;
      }
    }
  }

  /**
   * Without a filter, the parent of a listed node is listed, so
   * `_rows[parent.name]` finds it.
   */
  lemma {:induction false} UnfilteredParentListed(roots: seq<Node>, q: Pass, x: string, p: string)
    requires q.pattern == "" && UniqueNames(roots)
    requires x in Names(Flatten(roots, q)) && ParentName(roots, x) == Some(p)
    ensures p in Names(Flatten(roots, q))
  {
    ListedIffKept(roots, q, x);
    var e :| e in PreOrder(roots, []) && e.node.name == x && Keep(e, q);
    var f :| f in PreOrder(roots, []) && f.node.name == x && f.path != [] && p == f.path[|f.path| - 1];
    UniqueEntry(roots, e, f);
    var a := AncestorEntry(roots, [], e, |e.path| - 1);
    assert Keep(a, q);
    ListedIffKept(roots, q, p);
  }

  /** Distinct names stay distinct when some entries are dropped. */
  lemma {:induction false} KeptDistinct(es: seq<Entry>, q: Pass)
    requires Distinct(EntryNames(es))
    ensures Distinct(EntryNames(Kept(es, q)))
  {
    if es != [] {
      var init := es[..|es| - 1];
      var last := es[|es| - 1];
      assert Distinct(EntryNames(init)) by {
        forall i, j | 0 <= i < j < |init|
          ensures EntryNames(init)[i] != EntryNames(init)[j]
        {
          assert EntryNames(es)[i] != EntryNames(es)[j];
        }
      }
      KeptDistinct(init, q);
      KeptMembers(init, q);
      var ki := Kept(init, q);
      if Keep(last, q) {
        var r := ki + [last];
        assert Kept(es, q) == r;
        forall i, j | 0 <= i < j < |r|
          ensures EntryNames(r)[i] != EntryNames(r)[j]
        {
          if j == |r| - 1 {
            assert r[i] == ki[i] && ki[i] in ki;
            var i' :| 0 <= i' < |init| && init[i'] == r[i];
            assert es[i'] == init[i'];
            assert EntryNames(es)[i'] != EntryNames(es)[|es| - 1];
          } else {
            assert EntryNames(ki)[i] != EntryNames(ki)[j];
          }
        }
      } else {
        assert Kept(es, q) == ki;
      }
    }
  }

  /** Under unique names, no two rows of a pass are about the same node. */
  lemma {:induction false} FlattenDistinct(roots: seq<Node>, q: Pass)
    requires UniqueNames(roots)
    ensures Distinct(Names(Flatten(roots, q)))
  {
    FlattenNames(roots, q);
    KeptDistinct(PreOrder(roots, []), q);
  }

  /** In a row list without repeated names, looking a row's name up finds that row. */
  lemma {:induction false} LookupDistinct(rows: seq<Component>)
    requires Distinct(Names(rows))
    ensures forall c :: c in rows ==> Lookup(rows, c.item) == Some(c)
  {
    if rows != [] {
      var tail := rows[1..];
      assert Distinct(Names(tail)) by {
        forall i, j | 0 <= i < j < |tail|
          ensures Names(tail)[i] != Names(tail)[j]
        {
          assert Names(rows)[i + 1] != Names(rows)[j + 1];
        }
      }
      LookupDistinct(tail);
      forall c | c in rows
        ensures Lookup(rows, c.item) == Some(c)
      {
        if c != rows[0] {
          var j :| 0 <= j < |rows| && rows[j] == c;
          assert Names(rows)[0] != Names(rows)[j];
          assert c in tail;
        }
      }
    }
  }

  /** A listed node's row carries the expansion flag its previous row had (collapsed when it had none). */
  lemma {:induction false} ExpandedCarried(roots: seq<Node>, q: Pass, x: string)
    requires UniqueNames(roots) && x in Names(Flatten(roots, q))
    ensures Expanded(Flatten(roots, q), x) == Expanded(q.prev, x)
  {
    var rows := Flatten(roots, q);
    var j :| 0 <= j < |rows| && Names(rows)[j] == x;
    FlattenDistinct(roots, q);
    LookupDistinct(rows);
    assert rows[j] in rows;
    FlattenKeepsComponents(roots, q, j);
  }

  /** Each of the rows is held, unchanged, under its name in `prev`. */
  predicate Held(rows: seq<Component>, prev: seq<Component>)
  {
    forall i :: 0 <= i < |rows| ==> Lookup(prev, rows[i].item) == Some(rows[i])
  }

  lemma {:induction false} HeldSplit(rows: seq<Component>, a: seq<Component>, b: seq<Component>, prev: seq<Component>)
    requires rows == a + b && Held(rows, prev)
    ensures Held(a, prev) && Held(b, prev)
  {
    forall i | 0 <= i < |a| ensures Lookup(prev, a[i].item) == Some(a[i]) {
      assert (a + b)[i] == a[i];
    }
    forall i | 0 <= i < |b| ensures Lookup(prev, b[i].item) == Some(b[i]) {
      assert (a + b)[|a| + i] == b[i];
    }
  }

  /** A component held under its own name is reused as it is. */
  lemma {:induction false} ReuseHeld(q: Pass, n: Node, depth: nat, index: nat, prev: seq<Component>)
    requires Lookup(prev, n.name) == Some(Reuse(q, n, depth, index))
    ensures Reuse(q.(prev := prev), n, depth, index) == Reuse(q, n, depth, index)
  {
  }

  /** A walk gives the same rows whatever the previous rows, as long as they hold each of its rows under its name. */
  lemma {:induction false} VisitNodeStable(n: Node, depth: nat, start: nat, q: Pass, prev: seq<Component>)
    requires Held(VisitNode(n, depth, start, q), prev)
    ensures VisitNode(n, depth, start, q.(prev := prev)) == VisitNode(n, depth, start, q)
    decreases n, 2
  {
    if q.pattern != "" {
      FilteredStable(n, depth, start, q, prev);
    } else {
      UnfilteredStable(n, depth, start, q, prev);
    }
  }

  lemma {:induction false} FilteredStable(n: Node, depth: nat, start: nat, q: Pass, prev: seq<Component>)
    requires q.pattern != "" && Held(VisitNode(n, depth, start, q), prev)
    ensures VisitNode(n, depth, start, q.(prev := prev)) == VisitNode(n, depth, start, q)
    decreases n, 1
  {
    var c := Reuse(q, n, depth, start);
    FilteredStep(n, depth, start, q);
    FilteredStep(n, depth, start, q.(prev := prev));
    if q.matches(q.pattern, n.about) {
      HeldSplit(VisitNode(n, depth, start, q), [c], VisitForest(n.children, depth + 1, start + 1, q), prev);
      assert Lookup(prev, c.item) == Some(c) by {
        assert [c][0] == c;
      }
      ReuseHeld(q, n, depth, start, prev);
      VisitForestStable(n.children, depth + 1, start + 1, q, prev);
    } else {
      VisitForestStable(n.children, depth + 1, start, q, prev);
    }
  }

  lemma {:induction false} UnfilteredStable(n: Node, depth: nat, start: nat, q: Pass, prev: seq<Component>)
    requires q.pattern == "" && Held(VisitNode(n, depth, start, q), prev)
    ensures VisitNode(n, depth, start, q.(prev := prev)) == VisitNode(n, depth, start, q)
    decreases n, 1
  {
    var c := Reuse(q, n, depth, start);
    var rest := if c.expanded then VisitForest(n.children, depth + 1, start + 1, q) else [];
    UnfoldUnfiltered(n, depth, start, q, c);
    HeldSplit(VisitNode(n, depth, start, q), [c], rest, prev);
    assert Lookup(prev, c.item) == Some(c) by {
      assert [c][0] == c;
    }
    ReuseHeld(q, n, depth, start, prev);
    UnfoldUnfiltered(n, depth, start, q.(prev := prev), c);
    if c.expanded {
      VisitForestStable(n.children, depth + 1, start + 1, q, prev);
    }
  }

  lemma {:induction false} VisitForestStable(ns: seq<Node>, depth: nat, start: nat, q: Pass, prev: seq<Component>)
    requires Held(VisitForest(ns, depth, start, q), prev)
    ensures VisitForest(ns, depth, start, q.(prev := prev)) == VisitForest(ns, depth, start, q)
    decreases ns, 0
  {
    if ns != [] {
      var init := ns[..|ns| - 1];
      var last := ns[|ns| - 1];
      var q' := q.(prev := prev);
      var vi := VisitForest(init, depth, start, q);
      var vn := VisitNode(last, depth, start + |vi|, q);
      ForestStep(ns, depth, start, q);
      HeldSplit(VisitForest(ns, depth, start, q), vi, vn, prev);
      VisitForestStable(init, depth, start, q, prev);
      VisitNodeStable(last, depth, start + |vi|, q, prev);
      ForestStep(ns, depth, start, q');
    }
  }

  /**
   * Two refreshes with no change to the hierarchy or the filter in between
   * give the same rows: same nodes, same order, same components.
   */
  lemma {:induction false} RefreshIdempotent(roots: seq<Node>, q: Pass)
    requires UniqueNames(roots)
    ensures Flatten(roots, q.(prev := Flatten(roots, q))) == Flatten(roots, q)
  {
    var rows := Flatten(roots, q);
    FlattenDistinct(roots, q);
    assert Held(rows, rows) by {
      LookupDistinct(rows);
      forall i | 0 <= i < |rows| ensures Lookup(rows, rows[i].item) == Some(rows[i]) {
        assert rows[i] in rows;
      }
    }
    VisitForestStable(roots, 0, 0, q, rows);
  }

  /**
   * After a filtered refresh, every node whose `about` does not match counts
   * as collapsed: its component was dropped, so clearing the filter brings
   * it back with a new, collapsed component.
   */
  lemma {:induction false} FilterForgetsHiddenExpansion(roots: seq<Node>, q: Pass, e: Entry)
    requires q.pattern != "" && UniqueNames(roots)
    requires e in PreOrder(roots, []) && !q.matches(q.pattern, e.node.about)
    ensures !Expanded(Flatten(roots, q), e.node.name)
  {
    var rows := Flatten(roots, q);
    var x := e.node.name;
    if Lookup(rows, x).Some? {
      assert x in Names(rows) by {
        var c := Lookup(rows, x).value;
        var k :| 0 <= k < |rows| && rows[k] == c;
        assert Names(rows)[k] == x;
      }
      FilterListsMatches(roots, q, x);
      var f :| f in PreOrder(roots, []) && f.node.name == x && q.matches(q.pattern, f.node.about);
      UniqueEntry(roots, e, f);
      assert false;
    }
  }

  /**
   * Without a filter, a sibling of a listed node is listed too, so moving to
   * the next or previous sibling finds its row.
   */
  lemma {:induction false} UnfilteredSiblingListed(roots: seq<Node>, q: Pass, x: string, y: string)
    requires q.pattern == "" && UniqueNames(roots)
    requires x in Names(Flatten(roots, q)) && Siblings(PreOrder(roots, []), x, y)
    ensures y in Names(Flatten(roots, q))
  {
    ListedIffKept(roots, q, x);
    var k :| k in PreOrder(roots, []) && k.node.name == x && Keep(k, q);
    var e, f :| e in PreOrder(roots, []) && f in PreOrder(roots, []) && e.node.name == x && f.node.name == y && f.path == e.path;
    UniqueEntry(roots, e, k);
    assert Keep(f, q);
    ListedIffKept(roots, q, y);
  }
}
