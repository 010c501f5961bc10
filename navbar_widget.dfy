/**
 * The navigation bar widget: the tree list's handlers with the `NavBar`
 * overrides, as a class whose fields the handlers update in place. Each
 * handler is proved to perform the transition module Navigation gives it:
 * its new state, read through `Snap()`, and the fault it raises are those
 * of the matching function applied to the old state.
 */
module NavBarWidget {
  import opened Wrappers
  import opened Hierarchy
  import opened Rows
  import opened Viewport
  import opened Navigation

  class NavBar {
    var roots: seq<Node>
    var rows: seq<Component>
    var current: int
    var editing: string
    var filter: Buffer
    var sortMenu: bool
    var view: VerticalView
    var events: seq<Event>
    var pending: seq<int>
    const env: Env

    /** The widget's state as a value. */
    function Snap(): State
      reads this, view
    {
      State(roots, rows, current, editing, filter, sortMenu, view.Win(), events, pending)
    }

    /** `__init__`, then `on_mount`: `_set_screen` and a first `_refresh_rows`. */
    constructor (roots: seq<Node>, height: int, env: Env)
      ensures this.env == env && fresh(view)
      ensures Snap() == Mount(roots, height, env)
    {
      this.roots := roots;
      rows := [];
      current := -1;
      editing := "none";
      filter := Buffer("", false);
      sortMenu := false;
      events := [];
      pending := [];
      this.env := env;
      view := new VerticalView(0, height - 3);
      new;
      RebuildRows();
    }

    // ------------------------------------------------------------ the view

    /** `_fix_view`. */
    method FixView()
      modifies view
      ensures Snap() == old(Snap()).(win := Fix(old(view.Win()), current))
    {
      view.FixView(current);
    }

    /** `_set_view`, run on every resize with the widget's new height. */
    method SetView(height: int)
      modifies view
      ensures Snap() == Resized(old(Snap()), height)
    {
      var prevSize := view.Height();
      var currSize := height - 3;
      var diff := prevSize - currSize;
      if diff <= 0 {
        view.ShiftUpper(diff);
      } else {
        view.ShiftLower(-diff);
        var bottom := Max(current + 1, view.b);
        view.a := bottom - currSize;
        view.b := bottom;
      }
      assert view.Win() == Viewport.Resize(old(view.Win()), current, currSize);
      FixView();
    }

    // ------------------------------------------------------------- the rows


    /** `push_item`: the previous pass's component for the node, or a new one, at the next position. */
    method PushItem(n: Node, depth: nat, q: Pass)
      modifies this`rows
      ensures rows == PushRow(old(rows), n, depth, q)
    {
      var c := match Lookup(q.prev, n.name)
        case Some(kept) => kept
        case None => NewComponent(n, depth, |rows|);
      rows := rows + [c.(index := |rows|)];
    }

    /** `add_rows(n, depth)`. */
    method AddRows(n: Node, depth: nat, q: Pass)
      modifies this`rows
      ensures rows == AddNode(old(rows), n, depth, q)
      decreases n, 1
    {
      if q.pattern != "" {
        if q.matches(q.pattern, n.about) {
          PushItem(n, depth, q);
        }
        AddChildren(n, depth, q);
      } else {
        PushItem(n, depth, q);
        if rows[|rows| - 1].expanded {
          AddChildren(n, depth, q);
        }
      }
    }

    /** The `for` loop of `add_rows` over the node's children, one level deeper. */
    method AddChildren(n: Node, depth: nat, q: Pass)
      modifies this`rows
      ensures rows == AddForest(old(rows), n.children, depth + 1, q)
      decreases n, 0
    {
      ghost var r0 := rows;
      var children := n.children;
      for i := 0 to |children|
        invariant rows == AddForest(r0, children[..i], depth + 1, q)
      {
        AddRows(children[i], depth + 1, q);
        assert children[..i + 1][..i] == children[..i];
      }
      assert children[..|children|] == children;
    }

    /**
     * `_refresh_rows`: rebuild the rows from the hierarchy, re-using the
     * current components by name; with a filter that does not compile,
     * `re.findall` raises on the first node instead.
     */
    method RefreshRows() returns (fault: Option<Fault>)
      modifies this`rows
      ensures Outcome(Snap(), fault) == Refresh(old(Snap()), env)
    {
      fault := None;
      if filter.value != "" && !env.valid(filter.value) && roots != [] {
        fault := Some(PatternError);
        return;
      }
      RebuildRows();
    }

    /** The walk `_refresh_rows` makes when it does not raise. */
    method RebuildRows()
      modifies this`rows
      ensures Snap() == Rebuild(old(Snap()), env)
    {
      var q := Pass(rows, filter.value, env.matches);
      var top := roots;
      rows := [];
      for i := 0 to |top|
        invariant rows == AddForest([], top[..i], 0, q)
      {
        AddRows(top[i], 0, q);
        assert top[..i + 1][..i] == top[..i];
      }
      assert top[..|top|] == top;
      AddForestAppends([], top, 0, q, 0);
    }

    // ------------------------------------------------------- the selection

    /**
     * `self.current = v`: the reactive attribute stores the value and, when
     * it changed, schedules the `watch_current` coroutine for it, which runs
     * after the handler (`RunWatchers`).
     */
    method Assign(v: int)
      modifies this`current, this`pending
      ensures Snap() == Navigation.Assign(old(Snap()), v)
    {
      if v != current {
        current := v;
        pending := pending + [v];
      }
    }

    /** `watch_current(value)`: clamp, assign (which may schedule it again), fix the view, announce. */
    method WatchCurrent(value: int) returns (fault: Option<Fault>)
      modifies this, view
      ensures view == old(view)
      ensures Outcome(Snap(), fault) == Watch(old(Snap()), value)
    {
      Assign(Min(value, |rows| - 1));
      fault := Settle();
    }

    /** The rest of `watch_current`: fix the view, then announce the selected item. */
    method Settle() returns (fault: Option<Fault>)
      modifies this, view
      ensures view == old(view)
      ensures Outcome(Snap(), fault) == Navigation.Settle(old(Snap()))
    {
      FixView();
      fault := None;
      if current != -1 {
        match Index(current, |rows|)
        case None =>
          fault := Some(IndexError);
        case Some(k) =>
          events := events + [TopicSelect(rows[k].item)];
      }
    }

    /** The event loop running the scheduled watchers, oldest first, until none is left or one raises. */
    method RunWatchers() returns (fault: Option<Fault>)
      requires Scheduled(Snap())
      modifies this, view
      ensures view == old(view)
      ensures Outcome(Snap(), fault) == Navigation.RunWatchers(old(Snap()))
    {
      fault := None;
      while pending != []
        invariant view == old(view) && fault == None
        invariant Scheduled(Snap())
        invariant Navigation.RunWatchers(Snap()) == Navigation.RunWatchers(old(Snap()))
        decreases Backlog(Snap())
      {
        var value := pending[0];
        pending := [];
        fault := WatchCurrent(value);
        if fault.Some? {
          return;
        }
      }
    }

    method MoveUp()
      modifies this`current, this`pending
      ensures Snap() == Navigation.MoveUp(old(Snap()))
    {
      if current != 0 {
        Assign(current - 1);
      }
    }

    method MoveDown()
      modifies this`current, this`pending
      ensures Snap() == Navigation.MoveDown(old(Snap()))
    {
      Assign(current + 1);
    }

    method MoveToTop()
      modifies this`current, this`pending
      ensures Snap() == Navigation.MoveToTop(old(Snap()))
    {
      Assign(0);
    }

    method MoveToBottom()
      modifies this`current, this`pending
      ensures Snap() == Navigation.MoveToBottom(old(Snap()))
    {
      Assign(|rows|);
    }

    /** `_move_to_item(target, edit)`, with `edit == ""` for no edit. */
    method MoveToItem(target: Option<string>, edit: string) returns (fault: Option<Fault>)
      modifies this, view
      ensures view == old(view)
      ensures Outcome(Snap(), fault) == Navigation.MoveToItem(old(Snap()), target, edit)
    {
      fault := None;
      match target
      case None =>
      case Some(y) =>
        match Lookup(rows, y)
        case None =>
          fault := Some(KeyError(y));
        case Some(c) =>
          Assign(c.index);
          if edit != "" {
            fault := StartEdit(edit);
          }
    }

    /** `to_next_sibling(edit)`, through `NavBar._next_sibling`. */
    method ToNextSibling(edit: string) returns (fault: Option<Fault>)
      modifies this, view
      ensures view == old(view)
      ensures Outcome(Snap(), fault) == ToSibling(old(Snap()), 1, edit)
    {
      fault := None;
      match Select(Snap())
      case Broken =>
        fault := Some(IndexError);
      case NoRow =>
      case Row(k) =>
        fault := MoveToItem(SiblingOf(roots, [], rows[k].item, 1), edit);
    }

    /** `to_prev_sibling(edit)`, through `NavBar._prev_sibling`. */
    method ToPrevSibling(edit: string) returns (fault: Option<Fault>)
      modifies this, view
      ensures view == old(view)
      ensures Outcome(Snap(), fault) == ToSibling(old(Snap()), -1, edit)
    {
      fault := None;
      match Select(Snap())
      case Broken =>
        fault := Some(IndexError);
      case NoRow =>
      case Row(k) =>
        fault := MoveToItem(SiblingOf(roots, [], rows[k].item, -1), edit);
    }

    // --------------------------------------------------------------- editing

    method StartEdit(field: string) returns (fault: Option<Fault>)
      modifies this
      ensures view == old(view)
      ensures Outcome(Snap(), fault) == Navigation.StartEdit(old(Snap()), field)
    {
      fault := None;
      match Select(Snap())
      case Broken =>
        fault := Some(IndexError);
      case NoRow =>
      case Row(k) =>
        events := events + [ChangeStatus(if field == "about" then "INSERT" else "DATE")];
        var c := rows[k];
        if field !in c.fields {
          fault := Some(KeyError(field));
          return;
        }
        rows := rows[k := c.(fields := c.fields[field := c.fields[field].(focused := true)])];
        editing := field;
    }

    method StopEdit() returns (fault: Option<Fault>)
      modifies this
      ensures view == old(view)
      ensures Outcome(Snap(), fault) == Navigation.StopEdit(old(Snap()), env)
    {
      fault := None;
      match Select(Snap())
      case Broken =>
        fault := Some(IndexError);
      case NoRow =>
      case Row(k) =>
        events := events + [ChangeStatus("NORMAL")];
        var c := rows[k];
        if editing !in c.fields {
          fault := Some(KeyError(editing));
          return;
        }
        var b := c.fields[editing];
        rows := rows[k := c.(fields := c.fields[editing := b.(focused := false)])];
        roots := env.mutate(roots, Edit(c.item, editing, b.value));
        editing := "none";
    }

    method StartFiltering()
      modifies this
      ensures view == old(view)
      ensures Snap() == Navigation.StartFiltering(old(Snap()))
    {
      filter := filter.(focused := true);
      events := events + [Notify(filter.value)];
    }

    method StopFiltering()
      modifies this
      ensures view == old(view)
      ensures Snap() == Navigation.StopFiltering(old(Snap()), env)
    {
      filter := filter.(value := "");
      RebuildRows();
      events := events + [Notify(filter.value)];
      events := events + [ChangeStatus("NORMAL")];
    }

    // ------------------------------------------------------------- mutations

    /** `remove_item`, through `NavBar._drop`. */
    method RemoveItem() returns (fault: Option<Fault>)
      modifies this, view
      ensures view == old(view)
      ensures Outcome(Snap(), fault) == Navigation.RemoveItem(old(Snap()), env)
    {
      fault := None;
      match Select(Snap())
      case Broken =>
        fault := Some(IndexError);
      case NoRow =>
      case Row(k) =>
        roots := env.mutate(roots, Drop(rows[k].item));
        fault := RefreshRows();
        if fault.None? {
          Assign(current);
        }
    }

    /** `add_child`, through `NavBar._add_child`. */
    method AddChild() returns (fault: Option<Fault>)
      modifies this, view
      ensures view == old(view)
      ensures Outcome(Snap(), fault) == Navigation.AddChild(old(Snap()), env)
    {
      match Select(Snap()) {
        case Broken =>
          fault := Some(IndexError);
          return;
        case NoRow =>
          roots := env.mutate(roots, AddRootWorkspace);
        case Row(k) =>
          rows := rows[k := Expand(rows[k], true)];
          roots := env.mutate(roots, AddWorkspaceTo(rows[k].item));
      }
      fault := RefreshRows();
      if fault.None? {
        MoveDown();
        fault := StartEdit("about");
      }
    }

    /** `add_sibling`, through `NavBar._add_child` and `NavBar._add_sibling`. */
    method AddSibling() returns (fault: Option<Fault>)
      modifies this, view
      ensures view == old(view)
      ensures Outcome(Snap(), fault) == Navigation.AddSibling(old(Snap()), env)
    {
      match Select(Snap())
      case Broken =>
        fault := Some(IndexError);
      case Row(k) =>
        var call := if current >= 0 then AddSiblingOf(rows[k].item) else AddRootWorkspace;
        roots := env.mutate(roots, call);
        fault := RefreshRows();
        if fault.None? {
          fault := ToNextSibling("about");
        }
      case NoRow =>
        var name := env.created(roots, AddRootWorkspace);
        roots := env.mutate(roots, AddRootWorkspace);
        fault := RefreshRows();
        if fault.Some? {
          return;
        }
        match Lookup(rows, name)
        case None =>
          fault := Some(KeyError(name));
        case Some(c) =>
          Assign(c.index);
          fault := StartEdit("about");
    }

    /** `shift_up`, through `NavBar._shift_up`. */
    method ShiftUp() returns (fault: Option<Fault>)
      modifies this, view
      ensures view == old(view)
      ensures Outcome(Snap(), fault) == Navigation.ShiftUp(old(Snap()), env)
    {
      fault := None;
      match Select(Snap())
      case Broken =>
        fault := Some(IndexError);
      case NoRow =>
      case Row(k) =>
        roots := env.mutate(roots, ShiftUpItem(rows[k].item));
        fault := RefreshRows();
        if fault.None? {
          MoveUp();
        }
    }

    /** `shift_down`, through `NavBar._shift_down`. */
    method ShiftDown() returns (fault: Option<Fault>)
      modifies this, view
      ensures view == old(view)
      ensures Outcome(Snap(), fault) == Navigation.ShiftDown(old(Snap()), env)
    {
      fault := None;
      match Select(Snap())
      case Broken =>
        fault := Some(IndexError);
      case NoRow =>
      case Row(k) =>
        roots := env.mutate(roots, ShiftDownItem(rows[k].item));
        fault := RefreshRows();
        if fault.None? {
          MoveDown();
        }
    }

    method ToggleExpand() returns (fault: Option<Fault>)
      modifies this
      ensures view == old(view)
      ensures Outcome(Snap(), fault) == Navigation.ToggleExpand(old(Snap()), env)
    {
      fault := None;
      match Select(Snap())
      case Broken =>
        fault := Some(IndexError);
      case NoRow =>
      case Row(k) =>
        rows := rows[k := Rows.ToggleExpand(rows[k])];
        fault := RefreshRows();
    }

    method ToggleExpandParent() returns (fault: Option<Fault>)
      modifies this, view
      ensures view == old(view)
      ensures Outcome(Snap(), fault) == Navigation.ToggleExpandParent(old(Snap()), env)
    {
      fault := None;
      match Select(Snap())
      case Broken =>
        fault := Some(IndexError);
      case NoRow =>
      case Row(k) =>
        match ParentName(roots, rows[k].item)
        case None =>
          fault := ToggleExpand();
        case Some(p) =>
          match Lookup(rows, p)
          case None =>
            fault := Some(KeyError(p));
          case Some(c) =>
            Assign(c.index);
            fault := ToggleExpand();
    }

    method Sort(attr: string) returns (fault: Option<Fault>)
      modifies this, view
      ensures view == old(view)
      ensures Outcome(Snap(), fault) == Navigation.Sort(old(Snap()), env, attr)
    {
      fault := None;
      match Select(Snap())
      case Broken =>
        fault := Some(IndexError);
      case NoRow =>
      case Row(k) =>
        var x := rows[k].item;
        roots := env.mutate(roots, SortSiblings(x, attr));
        fault := RefreshRows();
        if fault.Some? {
          return;
        }
        match Lookup(rows, x)
        case None =>
          fault := Some(KeyError(x));
        case Some(c) =>
          Assign(c.index);
    }

    method ShowSortMenu()
      modifies this
      ensures view == old(view)
      ensures Snap() == Navigation.ShowSortMenu(old(Snap()))
    {
      sortMenu := true;
    }

    // ---------------------------------------------------------- key handling

    /** `NavBar.handle_tab`. */
    method HandleTab() returns (fault: Option<Fault>)
      modifies this, view
      ensures view == old(view)
      ensures Outcome(Snap(), fault) == Navigation.HandleTab(old(Snap()), env)
    {
      fault := None;
      if current == -1 {
        return;
      }
      if filter.value != "" {
        fault := LeaveFilter();
        if fault.Some? {
          return;
        }
      }
      events := events + [SwitchTab];
    }

    /** The part of `handle_tab` run while a filter is set: announce the item, clear the filter, clear the selection. */
    method LeaveFilter() returns (fault: Option<Fault>)
      modifies this, view
      ensures view == old(view)
      ensures Outcome(Snap(), fault) == Navigation.LeaveFilter(old(Snap()), env)
    {
      match Select(Snap()) {
        case Broken =>
          fault := Some(IndexError);
          return;
        case NoRow =>
        case Row(k) =>
          events := events + [TopicSelect(rows[k].item)];
      }
      StopFiltering();
      Assign(-1);
      fault := None;
    }

    /** The sort menu's handling of a key. */
    method MenuKey(key: string) returns (fault: Option<Fault>)
      modifies this, view
      ensures view == old(view)
      ensures Outcome(Snap(), fault) == Navigation.MenuKey(old(Snap()), env, key)
    {
      fault := None;
      match env.menu(key)
      case Browse =>
      case Dismiss =>
        sortMenu := false;
      case Pick(attr) =>
        fault := Sort(attr);
        if fault.None? {
          sortMenu := false;
        }
    }

    /** The normal-mode key table. */
    method BoundKey(key: string) returns (fault: Option<Fault>)
      modifies this, view
      ensures view == old(view)
      ensures Outcome(Snap(), fault) == Navigation.BoundKey(old(Snap()), env, key)
    {
      fault := None;
      if key == "escape" {
        StopFiltering();
      } else if key == "ctrl+i" {
        fault := HandleTab();
      } else if key == "k" || key == "up" {
        MoveUp();
      } else if key == "K" || key == "shift+up" {
        fault := ShiftUp();
      } else if key == "j" || key == "down" {
        MoveDown();
      } else if key == "J" || key == "shift+down" {
        fault := ShiftDown();
      } else if key == "i" {
        fault := StartEdit("about");
      } else if key == "z" {
        fault := ToggleExpand();
      } else if key == "Z" {
        fault := ToggleExpandParent();
      } else if key == "A" {
        fault := AddChild();
      } else if key == "a" {
        fault := AddSibling();
      } else if key == "x" {
        fault := RemoveItem();
      } else if key == "g" || key == "home" {
        MoveToTop();
      } else if key == "G" {
        MoveToBottom();
      } else if key == "s" {
        ShowSortMenu();
      } else if key == "/" {
        StartFiltering();
      }
    }

    /** `handle_key`: edit mode, then the sort menu, then the focused filter, then the key table. */
    method HandleKey(key: string) returns (fault: Option<Fault>)
      modifies this, view
      ensures view == old(view)
      ensures Outcome(Snap(), fault) == Navigation.HandleKey(old(Snap()), env, key)
    {
      fault := None;
      if editing != "none" {
        match Index(current, |rows|)
        case None =>
          fault := Some(IndexError);
        case Some(k) =>
          if editing !in rows[k].fields {
            fault := Some(KeyError(editing));
          } else if key == "escape" {
            fault := StopEdit();
          } else {
            var c := rows[k];
            rows := rows[k := c.(fields := c.fields[editing := env.typing(c.fields[editing], key)])];
          }
      } else if sortMenu {
        fault := MenuKey(key);
      } else if filter.focused {
        filter := env.typing(filter, key);
        events := events + [Notify(filter.value)];
        fault := RefreshRows();
        if fault.None? {
          Assign(0);
        }
      } else {
        fault := BoundKey(key);
      }
    }

    /**
     * A key press as the application delivers it: `handle_key`, then the
     * watcher runs it scheduled, before the next key is read.
     */
    method KeyPress(key: string) returns (fault: Option<Fault>)
      requires pending == []
      modifies this, view
      ensures view == old(view)
      ensures Outcome(Snap(), fault) == Step(old(Snap()), env, key)
    {
      fault := HandleKey(key);
      if fault.None? {
        HandleKeySchedulesOnce(old(Snap()), env, key);
        fault := RunWatchers();
      }
    }
  }
}
