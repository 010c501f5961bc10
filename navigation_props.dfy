/**
 * Properties of the tree list's controller: how the selection watcher
 * clamps, fixes the view and announces; the priority of key handling; and
 * what the handlers guarantee about the rows they rebuild.
 */
module NavigationProps {
  import opened Wrappers
  import opened Hierarchy
  import opened Rows
  import opened FlattenSpec
  import opened Viewport
  import opened Navigation

  // -------------------------------------------------------------- watcher

  /**
   * One run of the watcher for `value`: the selection becomes `value`
   * clamped from above to the last row index, and one more run is scheduled
   * when that changed it. Only the selection, the window, the messages and
   * the schedule change. The run raises exactly when the clamped selection
   * is neither -1 nor a valid Python index; otherwise the selected row is
   * announced. Either way the window is fixed on the selection first.
   */
  lemma {:induction false} WatchClamps(s: State, value: int)
    ensures var o := Watch(s, value);
      var c := Min(value, |s.rows| - 1);
      o.s.current == c &&
      o.s.pending == s.pending + (if c != s.current then [c] else []) &&
      o.s.(current := s.current, win := s.win, events := s.events, pending := s.pending) == s &&
      (o.fault.Some? <==> Announce(c, s.rows).None?) &&
      (o.fault.Some? ==> o.fault == Some(IndexError) && o.s.events == s.events) &&
      (o.fault.None? ==> o.s.events == s.events + Announce(c, s.rows).value) &&
      (s.win.Height() >= 0 ==> o.s.win == Fix(s.win, c) && o.s.win.Contains(c))
  {
  }

  /**
   * The watcher runs a handler leaves scheduled, run once it has returned:
   * the selection ends clamped from above to the last row index, with
   * nothing left scheduled, and the window is fixed on it. The selected row
   * is announced once, or twice when the clamp scheduled a second run. They
   * raise exactly when the clamped selection is neither -1 nor a valid
   * Python index.
   */
  lemma {:induction false} RunWatchersSettles(s: State)
    requires s.pending == [s.current]
    ensures var o := RunWatchers(s);
      var c := Min(s.current, |s.rows| - 1);
      o.s.current == c &&
      o.s.(current := s.current, win := s.win, events := s.events, pending := s.pending) == s &&
      (o.fault.Some? <==> Announce(c, s.rows).None?) &&
      (o.fault.Some? ==> o.fault == Some(IndexError) && o.s.events == s.events) &&
      (o.fault.None? ==>
        o.s.pending == [] &&
        var es := Announce(c, s.rows).value;
        o.s.events == s.events + es + if c != s.current then es else []) &&
      (s.win.Height() >= 0 ==> o.s.win == Fix(s.win, c) && o.s.win.Contains(c))
  {
    var c := Min(s.current, |s.rows| - 1);
    var t := s.(pending := []);
    WatchClamps(t, s.current);
    var o1 := Watch(t, s.current);
    if o1.fault.None? && c != s.current {
      WatchClamps(o1.s.(pending := []), c);
      var o2 := Watch(o1.s.(pending := []), c);
      assert RunWatchers(s) == RunWatchers(o1.s);
      assert RunWatchers(o1.s) == Ok(o2.s);
      if s.win.Height() >= 0 {
        FixIdempotent(s.win, c);
      }
    }
  }

  /** What `watch_current` announces: nothing at -1, otherwise the item of the row the selection indexes. */
  lemma {:induction false} AnnounceSelected(current: int, rows: seq<Component>)
    ensures Announce(current, rows).Some? <==> current == -1 || Index(current, |rows|).Some?
    ensures Announce(current, rows) == Some([]) <==> current == -1
    ensures current != -1 && Index(current, |rows|).Some? ==>
      Announce(current, rows) == Some([TopicSelect(rows[Index(current, |rows|).value].item)])
  {
  }

  /**
   * An assignment to the selection, once its watcher has run: the selection
   * is the value when it already held it, otherwise the value clamped from
   * above to the last row index; the rows, the hierarchy and the modes stay.
   */
  lemma {:induction false} AssignClamps(s: State, v: int)
    requires s.pending == []
    ensures var o := RunWatchers(Assign(s, v));
      o.s.current == (if v == s.current then v else Min(v, |s.rows| - 1)) &&
      o.s.(current := s.current, win := s.win, events := s.events, pending := s.pending) == s &&
      (v != s.current ==> o.s.current <= |s.rows| - 1) &&
      (|s.rows| == 0 && v != s.current && v >= -1 ==> o.s.current == -1 && o.fault.None? && o.s.events == s.events)
  {
    if v != s.current {
      RunWatchersSettles(Assign(s, v));
    }
  }

  /**
   * `move_to_bottom` leaves the selection one past the last row. When the
   * selection was elsewhere, the watcher then selects the last row without
   * raising. When it was already there (the stale value `remove_item` can
   * leave), the assignment changes nothing, no watcher runs and the
   * selection stays past the end.
   */
  lemma {:induction false} MoveToBottomSelectsLast(s: State)
    requires |s.rows| > 0 && s.pending == []
    ensures MoveToBottom(s).current == |s.rows|
    ensures s.current != |s.rows| ==>
      RunWatchers(MoveToBottom(s)).fault.None? &&
      RunWatchers(MoveToBottom(s)).s.current == |s.rows| - 1 &&
      Select(RunWatchers(MoveToBottom(s)).s) == Row(|s.rows| - 1)
    ensures s.current == |s.rows| ==>
      MoveToBottom(s) == s && RunWatchers(MoveToBottom(s)) == Ok(s) && Select(s).Broken?
  {
    if s.current != |s.rows| {
      RunWatchersSettles(MoveToBottom(s));
    }
  }

  /** `move_up` at the first row changes nothing. */
  lemma {:induction false} MoveUpAtTop(s: State)
    requires s.current == 0
    ensures MoveUp(s) == s
  {
  }

  /**
   * `move_up` with nothing selected goes to -2, which Python reads as the
   * second row from the end: the watcher raises when fewer than two rows
   * are listed.
   */
  lemma {:induction false} MoveUpFromNothing(s: State)
    requires s.current == -1 && s.pending == []
    ensures MoveUp(s).current == -2
    ensures RunWatchers(MoveUp(s)).s.current == -2
    ensures RunWatchers(MoveUp(s)).fault.Some? <==> |s.rows| < 2
    ensures |s.rows| >= 2 ==> Select(RunWatchers(MoveUp(s)).s) == Row(|s.rows| - 2)
  {
    RunWatchersSettles(MoveUp(s));
  }

  // -------------------------------------------------------- key handling

  /**
   * In edit mode every key but escape goes to the edited field's buffer of
   * the indexed row, and nothing else changes.
   */
  lemma {:induction false} EditModeTypes(s: State, env: Env, key: string, k: nat)
    requires s.editing != "none" && key != "escape"
    requires Index(s.current, |s.rows|) == Some(k) && s.editing in s.rows[k].fields
    ensures var o := HandleKey(s, env, key);
      var c := s.rows[k];
      o.fault.None? &&
      o.s.(rows := s.rows) == s &&
      |o.s.rows| == |s.rows| &&
      (forall j :: 0 <= j < |s.rows| && j != k ==> o.s.rows[j] == s.rows[j]) &&
      o.s.rows[k].(fields := c.fields) == c &&
      o.s.rows[k].fields == c.fields[s.editing := env.typing(c.fields[s.editing], key)]
  {
  }

  /**
   * In edit mode escape commits the buffer's text to the node's field,
   * blurs the buffer, reports NORMAL and leaves edit mode; the selection,
   * the filter and the window stay.
   */
  lemma {:induction false} EditModeEscapeCommits(s: State, env: Env, k: nat)
    requires s.editing != "none" && Select(s) == Row(k) && s.editing in s.rows[k].fields
    ensures var o := HandleKey(s, env, "escape");
      var c := s.rows[k];
      var b := c.fields[s.editing];
      o.fault.None? &&
      o.s.editing == "none" &&
      o.s.roots == env.mutate(s.roots, Edit(c.item, s.editing, b.value)) &&
      o.s.rows == s.rows[k := c.(fields := c.fields[s.editing := b.(focused := false)])] &&
      o.s.events == s.events + [ChangeStatus("NORMAL")] &&
      o.s.current == s.current && o.s.filter == s.filter && o.s.win == s.win
  {
  }

  /**
   * While the sort menu is shown (and nothing is being edited) it has every
   * key: unless it picks an attribute, at most its own visibility changes.
   */
  lemma {:induction false} SortMenuTakesKeys(s: State, env: Env, key: string)
    requires s.editing == "none" && s.sortMenu && !env.menu(key).Pick?
    ensures HandleKey(s, env, key).fault.None?
    ensures HandleKey(s, env, key).s.(sortMenu := s.sortMenu) == s
  {
  }

  /**
   * In the focused filter each key updates the filter and shows it, then
   * rebuilds the rows with the new text, which raises `re.error` exactly
   * when the text does not compile and there is a node to match it against.
   * Otherwise the first row is selected once the watcher has run. When
   * nothing matches, the watcher pulls the selection back to -1, unless it
   * already was 0: then the watcher does not run and the selection is left
   * past the end.
   */
  lemma {:induction false} FilterKeyRebuilds(s: State, env: Env, key: string)
    requires s.editing == "none" && !s.sortMenu && s.filter.focused && s.pending == []
    ensures var o := Step(s, env, key);
      var f := env.typing(s.filter, key);
      var rows := Flatten(s.roots, Pass(s.rows, f.value, env.matches));
      (o.fault.Some? <==> PatternRaises(s.(filter := f), env)) &&
      (o.fault.Some? ==> o.fault == Some(PatternError) && o.s.rows == s.rows) &&
      o.s.filter == f && o.s.roots == s.roots && o.s.editing == s.editing &&
      |o.s.events| > |s.events| && o.s.events[..|s.events| + 1] == s.events + [Notify(f.value)] &&
      (o.fault.None? ==>
        o.s.rows == rows && o.s.pending == [] &&
        o.s.current == (if s.current == 0 then 0 else Min(0, |rows| - 1)))
  {
    var f := env.typing(s.filter, key);
    var o1 := Refresh(Emit(s.(filter := f), Notify(f.value)), env);
    if o1.fault.None? && s.current != 0 {
      RunWatchersSettles(Assign(o1.s, 0));
    }
  }

  /** `/` focuses and shows the filter; from then on the filter has the keys. */
  lemma {:induction false} StartFilteringFocuses(s: State, env: Env, key: string)
    requires s.editing == "none" && !s.sortMenu && !s.filter.focused
    ensures var t := HandleKey(s, env, "/").s;
      HandleKey(s, env, "/").fault.None? &&
      t == s.(filter := s.filter.(focused := true), events := s.events + [Notify(s.filter.value)]) &&
      HandleKey(t, env, key) == FilterKey(t, env, key)
  {
  }

  /** In normal mode a key outside the table does nothing. */
  lemma {:induction false} UnboundKeyIgnored(s: State, env: Env, key: string)
    requires s.editing == "none" && !s.sortMenu && !s.filter.focused && key !in Keybinds
    ensures HandleKey(s, env, key) == Ok(s)
  {
  }

  /** Tab with nothing selected does nothing; tab without a filter only switches tabs. */
  lemma {:induction false} HandleTabPlain(s: State, env: Env)
    ensures s.current == -1 ==> HandleTab(s, env) == Ok(s)
    ensures s.current != -1 && s.filter.value == "" ==> HandleTab(s, env) == Ok(s.(events := s.events + [SwitchTab]))
  {
  }

  /**
   * Tab with a filter announces the selected item, clears the filter and
   * rebuilds the rows, clears the selection and finally switches tabs. The
   * watcher it leaves scheduled only fixes the window, and announces nothing.
   */
  lemma {:induction false} HandleTabWithFilter(s: State, env: Env, k: nat)
    requires Select(s) == Row(k) && s.filter.value != "" && s.pending == []
    ensures var o := HandleTab(s, env);
      var rows := Flatten(s.roots, Pass(s.rows, "", env.matches));
      o.fault.None? &&
      o.s.current == -1 && o.s.pending == [-1] && o.s.filter.value == "" && o.s.rows == rows &&
      o.s.events[..|s.events| + 1] == s.events + [TopicSelect(s.rows[k].item)] &&
      o.s.events[|o.s.events| - 1] == SwitchTab &&
      RunWatchers(o.s) == Ok(o.s.(pending := [], win := Fix(o.s.win, -1)))
  {
    var o := HandleTab(s, env);
    RunWatchersSettles(o.s);
  }

  // ------------------------------------------------- rows and the hierarchy

  /** A row found by name in rebuilt rows sits at the position its index names. */
  lemma {:induction false} LookupIndexed(roots: seq<Node>, q: Pass, x: string)
    requires Lookup(Flatten(roots, q), x).Some?
    ensures var c := Lookup(Flatten(roots, q), x).value;
      c.index < |Flatten(roots, q)| && Flatten(roots, q)[c.index] == c
  {
    var rows := Flatten(roots, q);
    var c := Lookup(rows, x).value;
    FlattenIndexed(roots, q);
    var j :| 0 <= j < |rows| && rows[j] == c;
  }

  /**
   * Selecting a valid row position never raises: once the watcher has run,
   * that row is the selected one, and it was announced when it was not
   * selected before.
   */
  lemma {:induction false} AssignRow(s: State, j: nat)
    requires j < |s.rows| && s.pending == []
    ensures var o := RunWatchers(Assign(s, j));
      o.fault.None? && o.s.current == j && Select(o.s) == Row(j) &&
      o.s.rows == s.rows && o.s.roots == s.roots &&
      o.s.events == s.events + if j != s.current then [TopicSelect(s.rows[j].item)] else []
  {
    if j != s.current {
      RunWatchersSettles(Assign(s, j));
    }
  }

  /** With nothing selected, the handlers that act on the selected node change nothing. */
  lemma {:induction false} UnselectedNoops(s: State, env: Env, attr: string, step: int, edit: string)
    requires s.current == -1
    ensures Navigation.ToggleExpand(s, env) == Ok(s) && ToggleExpandParent(s, env) == Ok(s)
    ensures ShiftUp(s, env) == Ok(s) && ShiftDown(s, env) == Ok(s)
    ensures RemoveItem(s, env) == Ok(s) && Sort(s, env, attr) == Ok(s)
    ensures StartEdit(s, edit) == Ok(s) && ToSibling(s, step, edit) == Ok(s)
  {
  }

  /**
   * `sort` re-selects the node it sorted by name. The rebuild raises on a
   * filter that does not compile; otherwise nothing raises exactly when the
   * node is still listed, and then its row is the selected one, also once
   * the watcher has run.
   */
  lemma {:induction false} SortReselects(s: State, env: Env, attr: string, k: nat)
    requires Select(s) == Row(k) && s.pending == []
    ensures var x := s.rows[k].item;
      var u := Mutate(s, env, SortSiblings(x, attr));
      var o := Sort(s, env, attr);
      (o.fault == Some(PatternError) <==> PatternRaises(u, env)) &&
      (o.fault.None? <==> !PatternRaises(u, env) && x in Names(Rebuild(u, env).rows)) &&
      (o.fault.None? ==>
        0 <= o.s.current < |o.s.rows| && o.s.rows[o.s.current].item == x &&
        RunWatchers(o.s).fault.None? && RunWatchers(o.s).s.current == o.s.current)
  {
    var x := s.rows[k].item;
    var u := Mutate(s, env, SortSiblings(x, attr));
    if !PatternRaises(u, env) {
      var t := Rebuild(u, env);
      var q := Pass(s.rows, s.filter.value, env.matches);
      assert t.rows == Flatten(t.roots, q);
      if Lookup(t.rows, x).Some? {
        var c := Lookup(t.rows, x).value;
        LookupIndexed(t.roots, q, x);
        AssignRow(t, c.index);
        assert Names(t.rows)[c.index] == x;
      }
    }
  }

  /** Rows rebuilt without a filter, from some earlier rows, over a hierarchy with unique names. */
  ghost predicate Unfiltered(s: State, env: Env)
  {
    s.filter.value == "" && UniqueNames(s.roots) &&
    exists prev :: s.rows == Flatten(s.roots, Pass(prev, "", env.matches))
  }

  /** A listed name is found by `Lookup`. */
  lemma {:induction false} ListedFound(rows: seq<Component>, x: string)
    requires x in Names(rows)
    ensures Lookup(rows, x).Some?
  {
    var j :| 0 <= j < |rows| && Names(rows)[j] == x;
    assert rows[j] in rows;
  }

  /** The rows rebuilt without a filter after the row at position `j` has its flag flipped. */
  function Toggled(s: State, env: Env, j: nat): seq<Component>
    requires j < |s.rows|
  {
    Flatten(s.roots, Pass(s.rows[j := Rows.ToggleExpand(s.rows[j])], "", env.matches))
  }

  /** Flipping a listed node's row leaves every ancestor of the node expanded. */
  lemma {:induction false} ToggleKeepsVisible(s: State, env: Env, j: nat, e: Entry)
    requires Unfiltered(s, env) && j < |s.rows|
    requires e in PreOrder(s.roots, []) && e.node.name == s.rows[j].item
    ensures Visible(e.path, s.rows[j := Rows.ToggleExpand(s.rows[j])])
  {
    var prev :| s.rows == Flatten(s.roots, Pass(prev, "", env.matches));
    var q := Pass(prev, "", env.matches);
    var x := e.node.name;
    var t := Rows.ToggleExpand(s.rows[j]);
    assert Names(s.rows)[j] == x;
    ListedIffKept(s.roots, q, x);
    var f :| f in PreOrder(s.roots, []) && f.node.name == x && Keep(f, q);
    UniqueEntry(s.roots, e, f);
    forall i | 0 <= i < |e.path|
      ensures Expanded(s.rows[j := t], e.path[i])
    {
      var a := AncestorEntry(s.roots, [], e, i);
      if a.node.name == x {
        UniqueEntry(s.roots, a, e);
        assert false;
      }
      assert Visible(a.path, prev) by {
        forall l | 0 <= l < |a.path|
          ensures Expanded(prev, a.path[l])
        {
          assert a.path[l] == e.path[l];
        }
      }
      ListedIffKept(s.roots, q, a.node.name);
      ExpandedCarried(s.roots, q, a.node.name);
      LookupOther(s.rows, j, t, a.node.name);
    }
  }

  /**
   * Without a filter, flipping a listed node's row and rebuilding keeps the
   * node listed with the flag flipped, and lists its children exactly when
   * the row was collapsed before.
   */
  lemma {:induction false} ToggledRows(s: State, env: Env, j: nat, e: Entry)
    requires Unfiltered(s, env) && j < |s.rows|
    requires e in PreOrder(s.roots, []) && e.node.name == s.rows[j].item
    ensures var rows := Toggled(s, env, j);
      e.node.name in Names(rows) &&
      Expanded(rows, e.node.name) == !s.rows[j].expanded &&
      forall c :: c in e.node.children ==> (c.name in Names(rows) <==> !s.rows[j].expanded)
  {
    var prev :| s.rows == Flatten(s.roots, Pass(prev, "", env.matches));
    var x := e.node.name;
    var t := Rows.ToggleExpand(s.rows[j]);
    var prev2 := s.rows[j := t];
    var q2 := Pass(prev2, "", env.matches);
    var rows := Flatten(s.roots, q2);
    FlattenDistinct(s.roots, Pass(prev, "", env.matches));
    assert Names(prev2) == Names(s.rows);
    LookupDistinct(prev2);
    assert prev2[j] in prev2;
    assert Expanded(prev2, x) == !s.rows[j].expanded;
    ToggleKeepsVisible(s, env, j, e);
    ListedIffKept(s.roots, q2, x);
    ExpandedCarried(s.roots, q2, x);
    KeptMembers(PreOrder(s.roots, []), q2);
    forall c | c in e.node.children
      ensures c.name in Names(rows) <==> !s.rows[j].expanded
    {
      var ce := Entry(c, e.path + [x]);
      UnfilteredChildrenIffExpanded(s.roots, q2, e, c);
      ChildEntry(s.roots, [], e, c);
      ListedIffKept(s.roots, q2, c.name);
      if c.name in Names(rows) {
        var f :| f in PreOrder(s.roots, []) && f.node.name == c.name && Keep(f, q2);
        UniqueEntry(s.roots, f, ce);
      }
    }
  }

  /**
   * `toggle_expand` without a filter keeps the selection and flips the
   * selected row's flag: the node stays listed, and its children are listed
   * exactly when it was collapsed.
   */
  lemma {:induction false} ToggleExpandFlips(s: State, env: Env, k: nat, e: Entry)
    requires Unfiltered(s, env) && Select(s) == Row(k)
    requires e in PreOrder(s.roots, []) && e.node.name == s.rows[k].item
    ensures var o := Navigation.ToggleExpand(s, env);
      o == Ok(s.(rows := Toggled(s, env, k))) &&
      e.node.name in Names(o.s.rows) &&
      Expanded(o.s.rows, e.node.name) == !s.rows[k].expanded &&
      forall c :: c in e.node.children ==> (c.name in Names(o.s.rows) <==> !s.rows[k].expanded)
  {
    ToggledRows(s, env, k, e);
  }

  /**
   * Without a filter, `toggle_expand_parent` on a selected row never
   * raises. It selects the row of the node's parent, which is listed
   * whenever the node is (a top-level node keeps its own row), and flips
   * that row as `toggle_expand` does.
   */
  lemma {:induction false} ToggleExpandParentToggles(s: State, env: Env, k: nat)
    requires Unfiltered(s, env) && Select(s) == Row(k)
    ensures var o := ToggleExpandParent(s, env);
      o.fault.None? &&
      match ParentName(s.roots, s.rows[k].item)
      case None => o.s == s.(rows := Toggled(s, env, k))
      case Some(p) =>
        0 <= o.s.current < |s.rows| && s.rows[o.s.current].item == p &&
        o.s == Assign(s, o.s.current).(rows := Toggled(s, env, o.s.current))
  {
    var prev :| s.rows == Flatten(s.roots, Pass(prev, "", env.matches));
    var q := Pass(prev, "", env.matches);
    var x := s.rows[k].item;
    match ParentName(s.roots, x)
    case None =>
    case Some(p) =>
      assert Names(s.rows)[k] == x;
      UnfilteredParentListed(s.roots, q, x, p);
      ListedFound(s.rows, p);
      var c := Lookup(s.rows, p).value;
      LookupIndexed(s.roots, q, p);
      assert Select(Assign(s, c.index)) == Row(c.index);
  }

  /**
   * Without a filter, moving to the next or previous sibling selects the
   * row of the node `SiblingOf` names (`SiblingOfStep`: the one `step`
   * places away in the node's sibling group), and edits it when asked; a
   * sibling of a listed node is listed, so no KeyError is raised. Without
   * such a sibling nothing changes.
   */
  lemma {:induction false} ToSiblingSelects(s: State, env: Env, step: int, k: nat, edit: string)
    requires Unfiltered(s, env) && Select(s) == Row(k)
    ensures var o := ToSibling(s, step, edit);
      match SiblingOf(s.roots, [], s.rows[k].item, step)
      case None => o == Ok(s)
      case Some(y) =>
        var j := o.s.current;
        0 <= j < |s.rows| && s.rows[j].item == y &&
        o == (if edit == "" then Ok(Assign(s, j)) else StartEdit(Assign(s, j), edit))
  {
    var prev :| s.rows == Flatten(s.roots, Pass(prev, "", env.matches));
    var q := Pass(prev, "", env.matches);
    var x := s.rows[k].item;
    match SiblingOf(s.roots, [], x, step)
    case None =>
    case Some(y) =>
      assert Names(s.rows)[k] == x;
      UnfilteredSiblingListed(s.roots, q, x, y);
      ListedFound(s.rows, y);
      var c := Lookup(s.rows, y).value;
      LookupIndexed(s.roots, q, y);
  }

  /** `_start_edit` changes no row but through the focus of its buffers, and nothing but the rows, the mode and the messages. */
  lemma {:induction false} StartEditOnlyFocuses(s: State, field: string)
    ensures var o := StartEdit(s, field);
      o.s.(rows := s.rows, editing := s.editing, events := s.events) == s &&
      |o.s.rows| == |s.rows| &&
      forall j :: 0 <= j < |s.rows| ==> o.s.rows[j].(fields := s.rows[j].fields) == s.rows[j]
  {
  }

  /**
   * `shift_up` and `shift_down` on a selected row: the hierarchy takes the
   * node's move, the rows are rebuilt (which raises on a filter that does
   * not compile), and the selection moves one row up (not above row 0) or
   * down. That row holds the moved node only when the rows between did not
   * change: over an expanded sibling it lands inside the sibling's subtree.
   */
  lemma {:induction false} ShiftMoves(s: State, env: Env, k: nat)
    requires Select(s) == Row(k)
    ensures var u := Mutate(s, env, ShiftUpItem(s.rows[k].item));
      var o := ShiftUp(s, env);
      o.s.roots == u.roots &&
      (o.fault.Some? <==> PatternRaises(u, env)) &&
      (o.fault.None? ==>
        o.s.rows == Rebuild(u, env).rows &&
        o.s.current == (if s.current == 0 then 0 else s.current - 1))
    ensures var u := Mutate(s, env, ShiftDownItem(s.rows[k].item));
      var o := ShiftDown(s, env);
      o.s.roots == u.roots &&
      (o.fault.Some? <==> PatternRaises(u, env)) &&
      (o.fault.None? ==> o.s.rows == Rebuild(u, env).rows && o.s.current == s.current + 1)
  {
  }

  /**
   * `add_sibling` on a selected row adds a sibling after the node when
   * `current` is not negative and a top-level node when it is, rebuilds,
   * and moves to the next sibling of the row `current` then selects, to
   * edit it (`ToSiblingSelects`).
   */
  lemma {:induction false} AddSiblingWithRow(s: State, env: Env, k: nat)
    requires Select(s) == Row(k)
    ensures var call := if s.current >= 0 then AddSiblingOf(s.rows[k].item) else AddRootWorkspace;
      var u := Mutate(s, env, call);
      var o := AddSibling(s, env);
      o.s.roots == u.roots &&
      (PatternRaises(u, env) ==> o == Outcome(u, Some(PatternError))) &&
      (!PatternRaises(u, env) ==> o == ToSibling(Rebuild(u, env), 1, "about"))
  {
    var call := if s.current >= 0 then AddSiblingOf(s.rows[k].item) else AddRootWorkspace;
    var u := Mutate(s, env, call);
    if !PatternRaises(u, env) {
      assert AddSibling(s, env) == ToSibling(Rebuild(u, env), 1, "about");
      SiblingKeepsHierarchy(Rebuild(u, env), 1, "about");
    }
  }

  /** Moving to a sibling leaves the hierarchy alone. */
  lemma {:induction false} SiblingKeepsHierarchy(s: State, step: int, edit: string)
    ensures ToSibling(s, step, edit).s.roots == s.roots
  {
  }

  /**
   * `add_sibling` with nothing selected adds a top-level node and rebuilds.
   * It raises a KeyError exactly when the new node is not listed (under a
   * filter it does not match); otherwise it selects the new node's row,
   * reports INSERT and edits its `about`.
   */
  lemma {:induction false} AddSiblingWithoutRow(s: State, env: Env)
    requires s.current == -1
    ensures var name := env.created(s.roots, AddRootWorkspace);
      var u := Mutate(s, env, AddRootWorkspace);
      var rows := Rebuild(u, env).rows;
      var o := AddSibling(s, env);
      o.s.roots == u.roots &&
      (PatternRaises(u, env) ==> o == Outcome(u, Some(PatternError))) &&
      (!PatternRaises(u, env) && name !in Names(rows) ==> o == Outcome(Rebuild(u, env), Some(KeyError(name)))) &&
      (!PatternRaises(u, env) && name in Names(rows) ==>
        0 <= o.s.current < |rows| && rows[o.s.current].item == name &&
        o.s.events == s.events + [ChangeStatus("INSERT")] &&
        (o.fault.None? <==> "about" in rows[o.s.current].fields) &&
        (o.fault.None? ==> o.s.editing == "about"))
  {
    var name := env.created(s.roots, AddRootWorkspace);
    var u := Mutate(s, env, AddRootWorkspace);
    if !PatternRaises(u, env) {
      var t := Rebuild(u, env);
      var q := Pass(s.rows, s.filter.value, env.matches);
      assert t.rows == Flatten(u.roots, q);
      if name in Names(t.rows) {
        ListedFound(t.rows, name);
      }
      if Lookup(t.rows, name).Some? {
        var c := Lookup(t.rows, name).value;
        LookupIndexed(u.roots, q, name);
        assert Names(t.rows)[c.index] == name;
        assert Select(Assign(t, c.index)) == Row(c.index);
      }
    }
  }

  /** All rows of a node are expanded: the rows given the node's children when it is listed. */
  ghost predicate AllExpanded(rows: seq<Component>, x: string)
  {
    forall c :: c in rows && c.item == x ==> c.expanded
  }

  /** The first step of `add_child` expands the selected row, and the rebuild keeps it expanded. */
  lemma {:induction false} AddChildRowsExpanded(s: State, env: Env, k: nat)
    requires Select(s) == Row(k) && Distinct(Names(s.rows))
    ensures AllExpanded(WithChild(s, env).rows, s.rows[k].item)
    ensures AllExpanded(Rebuild(WithChild(s, env), env).rows, s.rows[k].item)
  {
    var x := s.rows[k].item;
    var u := WithChild(s, env);
    assert u.rows == s.rows[k := Expand(s.rows[k], true)];
    assert Names(u.rows) == Names(s.rows);
    LookupDistinct(u.rows);
    assert u.rows[k] in u.rows;
    assert Lookup(u.rows, x) == Some(u.rows[k]);
    var t := Rebuild(u, env);
    var q := Pass(u.rows, u.filter.value, env.matches);
    forall c | c in t.rows && c.item == x
      ensures c.expanded
    {
      var j :| 0 <= j < |t.rows| && t.rows[j] == c;
      FlattenKeepsComponents(t.roots, q, j);
    }
  }

  /**
   * `add_child` leaves the row it was called on expanded, so the new child
   * is shown: whichever step it stops at, every row of that node is
   * expanded (the row names must be distinct, as rebuilt rows over a
   * hierarchy with unique names are).
   */
  lemma {:induction false} AddChildExpands(s: State, env: Env, k: nat)
    requires Select(s) == Row(k) && Distinct(Names(s.rows))
    ensures AllExpanded(AddChild(s, env).s.rows, s.rows[k].item)
  {
    var x := s.rows[k].item;
    var u := WithChild(s, env);
    AddChildRowsExpanded(s, env, k);
    if !PatternRaises(u, env) {
      var t := MoveDown(Rebuild(u, env));
      var o := StartEdit(t, "about");
      assert AddChild(s, env) == o;
      StartEditOnlyFocuses(t, "about");
      forall c | c in o.s.rows && c.item == x
        ensures c.expanded
      {
        var j :| 0 <= j < |o.s.rows| && o.s.rows[j] == c;
        assert o.s.rows[j].(fields := t.rows[j].fields) == t.rows[j];
        assert t.rows[j] in t.rows;
      }
    }
  }

  /**
   * `add_child` edits the row just below the selected one (row 0 when
   * nothing was selected) in the rebuilt rows, before the watcher has run.
   * When no row is there (the new child is not listed, under a filter it
   * does not match, say), reading it raises an IndexError rather than the
   * watcher pulling the selection back.
   */
  lemma {:induction false} AddChildEditsNext(s: State, env: Env)
    requires !Select(s).Broken?
    ensures var u := WithChild(s, env);
      var o := AddChild(s, env);
      var rows := Rebuild(u, env).rows;
      var v := s.current + 1;
      (PatternRaises(u, env) ==> o == Outcome(u, Some(PatternError))) &&
      (!PatternRaises(u, env) ==>
        o.s.current == v && o.s.pending == s.pending + [v] &&
        (o.fault == Some(IndexError) <==> v != -1 && !(-|rows| <= v < |rows|)) &&
        (0 <= v < |rows| ==>
          o.s.events == s.events + [ChangeStatus("INSERT")] &&
          (o.fault.None? <==> "about" in rows[v].fields) &&
          (o.fault.None? ==> o.s.editing == "about" && o.s.rows[v].fields["about"].focused)))
  {
  }

  /** Two refreshes with nothing changed in between end as one does. */
  lemma {:induction false} RefreshTwice(s: State, env: Env)
    requires UniqueNames(s.roots)
    ensures Refresh(Refresh(s, env).s, env) == Refresh(s, env)
  {
    RefreshIdempotent(s.roots, Pass(s.rows, s.filter.value, env.matches));
  }

  /**
   * A filter followed by clearing it does not keep expansion: a node whose
   * `about` the filter did not match comes back collapsed.
   */
  lemma {:induction false} FilterRoundTripCollapses(s: State, env: Env, prev: seq<Component>, e: Entry)
    requires s.filter.value != "" && UniqueNames(s.roots)
    requires s.rows == Flatten(s.roots, Pass(prev, s.filter.value, env.matches))
    requires e in PreOrder(s.roots, []) && !env.matches(s.filter.value, e.node.about)
    ensures forall c :: c in StopFiltering(s, env).rows && c.item == e.node.name ==> !c.expanded
  {
    FilterForgetsHiddenExpansion(s.roots, Pass(prev, s.filter.value, env.matches), e);
    var rows := StopFiltering(s, env).rows;
    var q := Pass(s.rows, "", env.matches);
    assert rows == Flatten(s.roots, q);
    forall c | c in rows && c.item == e.node.name
      ensures !c.expanded
    {
      var j :| 0 <= j < |rows| && rows[j] == c;
      FlattenKeepsComponents(s.roots, q, j);
    }
  }

  /**
   * `remove_item` drops the node and rebuilds, and leaves the selection
   * where it was without scheduling the watcher; when the list got shorter
   * than that, the next read of the selected row raises.
   */
  lemma {:induction false} RemoveKeepsSelection(s: State, env: Env, k: nat)
    requires Select(s) == Row(k)
    ensures var u := Mutate(s, env, Drop(s.rows[k].item));
      var o := RemoveItem(s, env);
      o.s.roots == u.roots && o.s.current == s.current && o.s.pending == s.pending &&
      (o.fault.Some? <==> PatternRaises(u, env)) &&
      (o.fault.None? ==> o.s.rows == Rebuild(u, env).rows) &&
      (o.fault.None? && s.current >= |o.s.rows| ==> Select(o.s) == Broken)
  {
  }

  /** A first pass over a hierarchy, with no earlier rows and no filter, makes a new collapsed row per top-level node. */
  lemma {:induction false} FreshForest(ns: seq<Node>, depth: nat, start: nat, m: (string, string) -> bool)
    ensures VisitForest(ns, depth, start, Pass([], "", m)) ==
      seq(|ns|, i requires 0 <= i < |ns| => NewComponent(ns[i], depth, start + i))
  {
    if ns != [] {
      var init := ns[..|ns| - 1];
      FreshForest(init, depth, start, m);
      var q := Pass([], "", m);
      var c := Reuse(q, ns[|ns| - 1], depth, start + |init|);
      assert c == NewComponent(ns[|ns| - 1], depth, start + |init|);
      assert VisitNode(ns[|ns| - 1], depth, start + |init|, q) == [c];
    }
  }

  /** Mounting lists exactly the top-level nodes, in order, collapsed, with nothing selected or scheduled. */
  lemma {:induction false} MountListsTopLevel(roots: seq<Node>, height: int, env: Env)
    ensures var s := Mount(roots, height, env);
      s.current == -1 && s.editing == "none" && s.events == [] && s.pending == [] &&
      Names(s.rows) == seq(|roots|, i requires 0 <= i < |roots| => roots[i].name) &&
      forall c :: c in s.rows ==> !c.expanded
  {
    FreshForest(roots, 0, 0, env.matches);
  }
}
