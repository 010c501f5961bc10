/**
 * The tree list's controller as a state machine: the selection `current`,
 * the field being edited, the filter input, the sort menu's visibility, the
 * scroll window, the messages emitted so far and the watcher runs scheduled
 * by assignments to `current`, with one transition per handler of
 * `TreeList` and of its `NavBar` subclass. A handler that raises (an
 * `IndexError` from indexing the rows, a `KeyError` from looking a name up
 * in the row table, `re.error` from a filter that does not compile) ends
 * with the state reached at the point it raised.
 *
 * The widget class in module NavBarWidget performs these transitions in
 * place; this module states what each of them computes.
 */
module Navigation {
  import opened Wrappers
  import opened Hierarchy
  import opened Rows
  import opened Viewport

  /** Messages the widget posts to the application. */
  datatype Event =
    | ChangeStatus(mode: string)
    | Notify(text: string)
    | TopicSelect(item: string)
    | SwitchTab

  /** The calls the list makes on the hierarchy it shows. */
  datatype Call =
    | AddSiblingOf(item: string)      // item.add_sibling()
    | AddWorkspaceTo(item: string)    // item.add_workspace()
    | AddRootWorkspace                // model.add_child_workspace()
    | Drop(item: string)              // item.drop()
    | ShiftUpItem(item: string)       // item.shift_up()
    | ShiftDownItem(item: string)     // item.shift_down()
    | SortSiblings(item: string, attr: string)          // item.sort(attr)
    | Edit(item: string, field: string, value: string)  // item.edit(field, value)

  datatype Fault = IndexError | KeyError(key: string) | PatternError

  /** What the sort menu does with one key. */
  datatype MenuStep = Browse | Dismiss | Pick(attr: string)

  /**
   * The collaborators the list calls but whose code is not part of this
   * model: the pattern matcher and whether a pattern compiles, a text
   * input's key handling, the hierarchy's mutations (the hierarchy after the
   * call, and the name of the node an add call creates) and the sort menu.
   */
  datatype Env = Env(
    matches: (string, string) -> bool,
    valid: string -> bool,
    typing: (Buffer, string) -> Buffer,
    mutate: (seq<Node>, Call) -> seq<Node>,
    created: (seq<Node>, Call) -> string,
    menu: string -> MenuStep)

  /**
   * The list's state. `rows` stands for both `row_vals` and the `_rows`
   * table; `pending` holds the values of the assignments to `current` whose
   * watcher has not run yet, oldest first.
   */
  datatype State = State(
    roots: seq<Node>,
    rows: seq<Component>,
    current: int,
    editing: string,
    filter: Buffer,
    sortMenu: bool,
    win: Window,
    events: seq<Event>,
    pending: seq<int>)

  datatype Outcome = Outcome(s: State, fault: Option<Fault>)

  function Ok(s: State): Outcome { Outcome(s, None) }

  function Min(x: int, y: int): int { if x < y then x else y }

  /** `row_vals[i]` with Python's indexing: negative positions count from the end. */
  function Index(i: int, n: nat): (r: Option<nat>)
    ensures r.Some? <==> -(n as int) <= i < n
    ensures r.Some? ==> r.value < n && (i >= 0 ==> r.value == i) && (i < 0 ==> r.value == n + i)
  {
    if 0 <= i < n then Some(i) else if -(n as int) <= i < 0 then Some(n + i) else None
  }

  /** What the `component` property yields: no row at -1, a row, or an IndexError. */
  datatype Selection = NoRow | Row(k: nat) | Broken

  function Select(s: State): (r: Selection)
    ensures r.NoRow? <==> s.current == -1
    ensures r.Row? <==> s.current != -1 && -|s.rows| <= s.current < |s.rows|
    ensures r.Broken? <==> s.current != -1 && !(-|s.rows| <= s.current < |s.rows|)
    ensures r.Row? ==> r.k < |s.rows| && r.k == if s.current >= 0 then s.current else |s.rows| + s.current
  {
    if s.current == -1 then NoRow
    else match Index(s.current, |s.rows|)
      case Some(k) => Row(k)
      case None => Broken
  }

  /** The rows rebuilt from the hierarchy, re-using the current components by name. */
  function Rebuild(s: State, env: Env): State
  {
    s.(rows := Flatten(s.roots, Pass(s.rows, s.filter.value, env.matches)))
  }

  /**
   * Whether the rebuild raises `re.error`: with a filter set, `re.findall`
   * is called on the first node the walk meets, and raises when the filter
   * does not compile.
   */
  predicate PatternRaises(s: State, env: Env)
  {
    s.filter.value != "" && !env.valid(s.filter.value) && s.roots != []
  }

  /** `_refresh_rows`. */
  function Refresh(s: State, env: Env): (o: Outcome)
    ensures o.s.current == s.current && o.s.pending == s.pending
  {
    if PatternRaises(s, env) then Outcome(s, Some(PatternError)) else Ok(Rebuild(s, env))
  }

  function Mutate(s: State, env: Env, call: Call): State
  {
    s.(roots := env.mutate(s.roots, call))
  }

  function Emit(s: State, e: Event): State
  {
    s.(events := s.events + [e])
  }

  /**
   * What `watch_current` emits after fixing the view: `TopicSelect` for the
   * selected row, nothing at -1, and None when reading the item raises.
   */
  function Announce(current: int, rows: seq<Component>): Option<seq<Event>>
  {
    if current == -1 then Some([])
    else match Index(current, |rows|)
      case Some(k) => Some([TopicSelect(rows[k].item)])
      case None => None
  }

  /**
   * One run of `watch_current(value)`: clamp from above to the last row
   * index and assign that (which schedules the watcher again when it changes
   * `current`), fix the view on the selection, then announce it.
   */
  function Watch(s: State, value: int): Outcome
  {
    Settle(Assign(s, Min(value, |s.rows| - 1)))
  }

  /** The rest of `watch_current` once the value is clamped: fix the view on the selection, then announce it. */
  function Settle(s: State): Outcome
  {
    var t := s.(win := Fix(s.win, s.current));
    match Announce(t.current, t.rows)
    case None => Outcome(t, Some(IndexError))
    case Some(es) => Ok(t.(events := t.events + es))
  }

  /**
   * `self.current = v`. The reactive attribute stores the value and, when
   * it changed, schedules `watch_current(v)`; the watcher is a coroutine,
   * so it runs only once the handler that assigned has returned.
   */
  function Assign(s: State, v: int): State
  {
    if v == s.current then s else s.(current := v, pending := s.pending + [v])
  }

  /**
   * What a handler leaves scheduled: nothing, or one watcher run for the
   * value `current` holds (`HandleKeySchedulesOnce`).
   */
  predicate Scheduled(s: State)
  {
    s.pending == [] || s.pending == [s.current]
  }

  /** How many watcher runs are left: none, one when the scheduled value is already clamped, else at most two. */
  function Backlog(s: State): nat
  {
    if s.pending == [] then 0
    else if s.pending == [s.current] && s.current <= |s.rows| - 1 then 1
    else 2
  }

  /**
   * The scheduled watcher runs, once the handler has returned. A run that
   * clamps `current` schedules one more, which finds the value clamped.
   */
  function RunWatchers(s: State): Outcome
    requires Scheduled(s)
    decreases Backlog(s)
  {
    if s.pending == [] then Ok(s)
    else
      var o := Watch(s.(pending := []), s.pending[0]);
      if o.fault.Some? then o else RunWatchers(o.s)
  }

  // ---------------------------------------------------------------- editing

  /** `_start_edit(field)`: status INSERT or DATE, focus the field's buffer, enter edit mode. */
  function StartEdit(s: State, field: string): (o: Outcome)
    ensures o.s.current == s.current && o.s.pending == s.pending
  {
    match Select(s)
    case Broken => Outcome(s, Some(IndexError))
    case NoRow => Ok(s)
    case Row(k) =>
      var t := Emit(s, ChangeStatus(if field == "about" then "INSERT" else "DATE"));
      var c := s.rows[k];
      if field in c.fields then
        Ok(t.(rows := s.rows[k := c.(fields := c.fields[field := c.fields[field].(focused := true)])], editing := field))
      else Outcome(t, Some(KeyError(field)))
  }

  /** `_stop_edit`: status NORMAL, blur the buffer, commit its text to the node, leave edit mode. */
  function StopEdit(s: State, env: Env): (o: Outcome)
    ensures o.s.current == s.current && o.s.pending == s.pending
  {
    match Select(s)
    case Broken => Outcome(s, Some(IndexError))
    case NoRow => Ok(s)
    case Row(k) =>
      var t := Emit(s, ChangeStatus("NORMAL"));
      var c := s.rows[k];
      if s.editing in c.fields then
        var b := c.fields[s.editing];
        var u := t.(rows := s.rows[k := c.(fields := c.fields[s.editing := b.(focused := false)])]);
        Ok(Mutate(u, env, Edit(c.item, s.editing, b.value)).(editing := "none"))
      else Outcome(t, Some(KeyError(s.editing)))
  }

  /** `_start_filtering`: focus the filter input and show it. */
  function StartFiltering(s: State): State
  {
    var t := s.(filter := s.filter.(focused := true));
    Emit(t, Notify(t.filter.value))
  }

  /**
   * `_stop_filtering`: clear the filter, rebuild the rows (which cannot
   * raise without a filter), show the empty filter, status NORMAL.
   */
  function StopFiltering(s: State, env: Env): State
  {
    var t := Rebuild(s.(filter := s.filter.(value := "")), env);
    Emit(Emit(t, Notify(t.filter.value)), ChangeStatus("NORMAL"))
  }

  // ------------------------------------------------------------- selection

  /** `move_up`: any selection other than 0 goes down by one, -1 included. */
  function MoveUp(s: State): State
  {
    if s.current != 0 then Assign(s, s.current - 1) else s
  }

  function MoveDown(s: State): State { Assign(s, s.current + 1) }

  function MoveToTop(s: State): State { Assign(s, 0) }

  /** `move_to_bottom` assigns one past the last row; the watcher pulls it back. */
  function MoveToBottom(s: State): State { Assign(s, |s.rows|) }

  /** `_move_to_item(item, edit)`: select the named node's row, then edit `edit` unless it is empty. */
  function MoveToItem(s: State, target: Option<string>, edit: string): Outcome
  {
    match target
    case None => Ok(s)
    case Some(y) =>
      match Lookup(s.rows, y)
      case None => Outcome(s, Some(KeyError(y)))
      case Some(c) =>
        var t := Assign(s, c.index);
        if edit != "" then StartEdit(t, edit) else Ok(t)
  }

  /** `to_next_sibling` (step 1) and `to_prev_sibling` (step -1). */
  function ToSibling(s: State, step: int, edit: string): Outcome
  {
    match Select(s)
    case Broken => Outcome(s, Some(IndexError))
    case NoRow => Ok(s)
    case Row(k) => MoveToItem(s, SiblingOf(s.roots, [], s.rows[k].item, step), edit)
  }

  // ------------------------------------------------------------- mutations

  /** `remove_item`: drop the node and rebuild; `current` is re-assigned its own value, which changes nothing. */
  function RemoveItem(s: State, env: Env): (o: Outcome)
    ensures s.pending == [] ==> Scheduled(o.s)
  {
    match Select(s)
    case Broken => Outcome(s, Some(IndexError))
    case NoRow => Ok(s)
    case Row(k) =>
      var o := Refresh(Mutate(s, env, Drop(s.rows[k].item)), env);
      if o.fault.Some? then o else Ok(Assign(o.s, o.s.current))
  }

  /**
   * `add_child`: expand the selected row and add a child under its node
   * (a top-level node when nothing is selected), then rebuild, move down and
   * edit the row `current` then indexes.
   */
  function AddChild(s: State, env: Env): (o: Outcome)
    ensures s.pending == [] ==> Scheduled(o.s)
  {
    if Select(s).Broken? then Outcome(s, Some(IndexError))
    else
      var o := Refresh(WithChild(s, env), env);
      if o.fault.Some? then o else StartEdit(MoveDown(o.s), "about")
  }

  /** The first two steps of `add_child`, through `NavBar._add_child`. */
  function WithChild(s: State, env: Env): State
    requires !Select(s).Broken?
  {
    match Select(s)
    case NoRow => Mutate(s, env, AddRootWorkspace)
    case Row(k) =>
      var t := s.(rows := s.rows[k := Expand(s.rows[k], true)]);
      Mutate(t, env, AddWorkspaceTo(s.rows[k].item))
  }

  /**
   * `add_sibling`. Without a selected item: add a top-level node, select
   * its row by name and edit it. With one: add a sibling after it (a
   * top-level node when `current` is negative), move to the next sibling
   * and edit it.
   */
  function AddSibling(s: State, env: Env): (o: Outcome)
    ensures s.pending == [] ==> Scheduled(o.s)
  {
    match Select(s)
    case Broken => Outcome(s, Some(IndexError))
    case Row(k) =>
      var call := if s.current >= 0 then AddSiblingOf(s.rows[k].item) else AddRootWorkspace;
      var o := Refresh(Mutate(s, env, call), env);
      if o.fault.Some? then o else ToSibling(o.s, 1, "about")
    case NoRow =>
      var name := env.created(s.roots, AddRootWorkspace);
      var o := Refresh(Mutate(s, env, AddRootWorkspace), env);
      if o.fault.Some? then o
      else match Lookup(o.s.rows, name)
        case None => Outcome(o.s, Some(KeyError(name)))
        case Some(c) => StartEdit(Assign(o.s, c.index), "about")
  }

  /** `shift_up`: move the node up among its siblings, rebuild, and move the selection up one row. */
  function ShiftUp(s: State, env: Env): (o: Outcome)
    ensures s.pending == [] ==> Scheduled(o.s)
  {
    match Select(s)
    case Broken => Outcome(s, Some(IndexError))
    case NoRow => Ok(s)
    case Row(k) =>
      var o := Refresh(Mutate(s, env, ShiftUpItem(s.rows[k].item)), env);
      if o.fault.Some? then o else Ok(MoveUp(o.s))
  }

  /** `shift_down`: move the node down among its siblings, rebuild, and move the selection down one row. */
  function ShiftDown(s: State, env: Env): (o: Outcome)
    ensures s.pending == [] ==> Scheduled(o.s)
  {
    match Select(s)
    case Broken => Outcome(s, Some(IndexError))
    case NoRow => Ok(s)
    case Row(k) =>
      var o := Refresh(Mutate(s, env, ShiftDownItem(s.rows[k].item)), env);
      if o.fault.Some? then o else Ok(MoveDown(o.s))
  }

  /** `toggle_expand`: flip the selected row's flag and rebuild. */
  function ToggleExpand(s: State, env: Env): Outcome
  {
    match Select(s)
    case Broken => Outcome(s, Some(IndexError))
    case NoRow => Ok(s)
    case Row(k) => Refresh(s.(rows := s.rows[k := Rows.ToggleExpand(s.rows[k])]), env)
  }

  /** `toggle_expand_parent`: select the parent's row (top-level nodes have none), then toggle. */
  function ToggleExpandParent(s: State, env: Env): (o: Outcome)
    ensures s.pending == [] ==> Scheduled(o.s)
  {
    match Select(s)
    case Broken => Outcome(s, Some(IndexError))
    case NoRow => Ok(s)
    case Row(k) =>
      match ParentName(s.roots, s.rows[k].item)
      case None => ToggleExpand(s, env)
      case Some(p) =>
        match Lookup(s.rows, p)
        case None => Outcome(s, Some(KeyError(p)))
        case Some(c) => ToggleExpand(Assign(s, c.index), env)
  }

  /** `sort(attr)`: sort the node's sibling group, rebuild, and re-select the node by name. */
  function Sort(s: State, env: Env, attr: string): (o: Outcome)
    ensures s.pending == [] ==> Scheduled(o.s)
  {
    match Select(s)
    case Broken => Outcome(s, Some(IndexError))
    case NoRow => Ok(s)
    case Row(k) =>
      var x := s.rows[k].item;
      var o := Refresh(Mutate(s, env, SortSiblings(x, attr)), env);
      if o.fault.Some? then o
      else match Lookup(o.s.rows, x)
        case None => Outcome(o.s, Some(KeyError(x)))
        case Some(c) => Ok(Assign(o.s, c.index))
  }

  function ShowSortMenu(s: State): State { s.(sortMenu := true) }

  // ------------------------------------------------------------ key handling

  /**
   * `NavBar.handle_tab`: nothing at -1. With a filter, announce the selected
   * item, stop filtering and clear the selection. Then switch tabs.
   */
  function HandleTab(s: State, env: Env): (o: Outcome)
    ensures s.pending == [] ==> Scheduled(o.s)
  {
    if s.current == -1 then Ok(s)
    else
      var o := if s.filter.value == "" then Ok(s) else LeaveFilter(s, env);
      if o.fault.Some? then o else Ok(Emit(o.s, SwitchTab))
  }

  /** The part of `handle_tab` that runs while a filter is set. */
  function LeaveFilter(s: State, env: Env): Outcome
  {
    match Select(s)
    case Broken => Outcome(s, Some(IndexError))
    case NoRow => Ok(Assign(StopFiltering(s, env), -1))
    case Row(k) => Ok(Assign(StopFiltering(Emit(s, TopicSelect(s.rows[k].item)), env), -1))
  }

  /** The sort menu has the keys while it is shown. */
  function MenuKey(s: State, env: Env, key: string): Outcome
  {
    match env.menu(key)
    case Browse => Ok(s)
    case Dismiss => Ok(s.(sortMenu := false))
    case Pick(attr) =>
      var o := Sort(s, env, attr);
      if o.fault.Some? then o else Ok(o.s.(sortMenu := false))
  }

  /** The keys of the normal-mode table. */
  const Keybinds: set<string> := {
    "escape", "ctrl+i", "k", "up", "K", "shift+up", "j", "down", "J", "shift+down",
    "i", "z", "Z", "A", "a", "x", "g", "home", "G", "s", "/"}

  /** The normal-mode key table; any other key does nothing. */
  function BoundKey(s: State, env: Env, key: string): Outcome
  {
    if key == "escape" then Ok(StopFiltering(s, env))
    else if key == "ctrl+i" then HandleTab(s, env)
    else if key == "k" || key == "up" then Ok(MoveUp(s))
    else if key == "K" || key == "shift+up" then ShiftUp(s, env)
    else if key == "j" || key == "down" then Ok(MoveDown(s))
    else if key == "J" || key == "shift+down" then ShiftDown(s, env)
    else if key == "i" then StartEdit(s, "about")
    else if key == "z" then ToggleExpand(s, env)
    else if key == "Z" then ToggleExpandParent(s, env)
    else if key == "A" then AddChild(s, env)
    else if key == "a" then AddSibling(s, env)
    else if key == "x" then RemoveItem(s, env)
    else if key == "g" || key == "home" then Ok(MoveToTop(s))
    else if key == "G" then Ok(MoveToBottom(s))
    else if key == "s" then Ok(ShowSortMenu(s))
    else if key == "/" then Ok(StartFiltering(s))
    else Ok(s)
  }

  /** Typing into the filter: update it, show it, rebuild the rows, select the first row. */
  function FilterKey(s: State, env: Env, key: string): Outcome
  {
    var t := s.(filter := env.typing(s.filter, key));
    var o := Refresh(Emit(t, Notify(t.filter.value)), env);
    if o.fault.Some? then o else Ok(Assign(o.s, 0))
  }

  /** Typing into the edited field's buffer of the row at position k. */
  function TypeInto(s: State, env: Env, k: nat, key: string): State
    requires k < |s.rows| && s.editing in s.rows[k].fields
  {
    var c := s.rows[k];
    s.(rows := s.rows[k := c.(fields := c.fields[s.editing := env.typing(c.fields[s.editing], key)])])
  }

  /**
   * `handle_key`, by priority: edit mode (escape commits, any other key goes
   * to the edited buffer), then the sort menu, then the focused filter, then
   * the key table.
   */
  function HandleKey(s: State, env: Env, key: string): Outcome
  {
    if s.editing != "none" then
      match Index(s.current, |s.rows|)
      case None => Outcome(s, Some(IndexError))
      case Some(k) =>
        if s.editing !in s.rows[k].fields then Outcome(s, Some(KeyError(s.editing)))
        else if key == "escape" then StopEdit(s, env)
        else Ok(TypeInto(s, env, k, key))
    else if s.sortMenu then MenuKey(s, env, key)
    else if s.filter.focused then FilterKey(s, env, key)
    else BoundKey(s, env, key)
  }

  /**
   * Each handler assigns `current` at most once, so it leaves at most one
   * watcher run scheduled, for the value `current` then holds.
   */
  lemma {:induction false} HandleKeySchedulesOnce(s: State, env: Env, key: string)
    requires s.pending == []
    ensures Scheduled(HandleKey(s, env, key).s)
  {
    if s.editing != "none" {
    } else if s.sortMenu {
    } else if s.filter.focused {
    } else {
      BoundKeySchedulesOnce(s, env, key);
    }
  }

  lemma {:induction false} BoundKeySchedulesOnce(s: State, env: Env, key: string)
    requires s.pending == []
    ensures Scheduled(BoundKey(s, env, key).s)
  {
  }

  /**
   * A key press as the application sees it: `handle_key`, then the watcher
   * runs the handler scheduled, before the next key is read.
   */
  function Step(s: State, env: Env, key: string): Outcome
    requires s.pending == []
  {
    var o := HandleKey(s, env, key);
    if o.fault.Some? then o
    else
      HandleKeySchedulesOnce(s, env, key);
      RunWatchers(o.s)
  }

  // ------------------------------------------------------------ the screen

  /** `__init__` then `on_mount`: nothing selected, no filter, a window of the usable height, rows built once. */
  function Mount(roots: seq<Node>, height: int, env: Env): State
  {
    Rebuild(State(roots, [], -1, "none", Buffer("", false), false, Window(0, height - 3), [], []), env)
  }

  /** `on_resize`: `_set_view` with the new usable height. */
  function Resized(s: State, height: int): State
  {
    s.(win := Viewport.SetView(s.win, s.current, height - 3))
  }
}
