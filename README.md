# dooit navigation bar: a Dafny model

dooit is a terminal todo manager. Its left pane, the navigation bar, shows
the tree of workspaces as an indented list: a workspace's children are shown
only while its row is expanded, a filter narrows the list to the workspaces
whose description matches a pattern, and a selection cursor (`current`)
moves over the rows while a vertical window (`VerticalView`) keeps the
selected row on screen. Keys move the cursor, add, remove, move and sort
workspaces, start and stop editing a workspace's description, and switch to
the todo pane.

This project models the generic tree list (`TreeList`, its row components
and its vertical window) and the navigation bar's overrides of it:

- `viewport.dfy` (module `Viewport`): the window as a value `Window(a, b)`
  with the pure functions `Shifted`, `Fix`, `Resize` and `SetView`, and the
  mutable class `VerticalView` whose methods are proved to move the window
  exactly as those functions say.
- `hierarchy.dfy` (module `Hierarchy`): the workspace tree the list reads, its
  pre-order walk with each node's path of ancestor names, and the parent and
  sibling queries the bar asks of a workspace.
- `rows.dfy` (module `Rows`): the row component (`Component`) with its
  per-field input buffers, and the rows `_refresh_rows` builds, both as it
  builds them in place (`AddNode`, `AddForest`) and as the walk those
  appends amount to (`VisitNode`, `VisitForest`, `Flatten`).
- `flatten_spec.dfy` (module `FlattenSpec`): an independent description of
  the rebuilt rows (the pre-order walk filtered by a `Keep` predicate, each
  kept node given its old component or a fresh one) and the proofs that the
  rebuild meets it, is idempotent, and lists parents and siblings.
- `navigation.dfy` (module `Navigation`): the list's whole state as a value
  and every handler as a function from the state to an `Outcome` (the new
  state and the Python exception raised, if any); the reactive `current`
  attribute and its watcher; the key dispatcher.
- `navigation_props.dfy` (module `NavigationProps`): what the handlers
  guarantee.
- `navbar_widget.dfy` (module `NavBarWidget`): the widget as a mutable class
  `NavBar` owning a `VerticalView`; every handler is a method proved to
  leave the widget in the state the matching `Navigation` function gives.
- `style.dfy` (module `Style`): the choice of the description's style
  template and the substitution of the description into it.

Conventions of the model:

- A workspace is identified by its name (the `_rows` table is keyed by it).
- Python's negative indexing of `row_vals[current]` is modelled, so -2
  selects the second row from the end. An `IndexError`, a `KeyError`, or the
  `re.error` raised by `re.findall` on a filter that does not compile, is
  the `fault` of an `Outcome`; the steps after it do not run.
- `current` is reactive, and its watcher `watch_current` is a coroutine. An
  assignment that changes the value stores it and schedules the watcher
  with it (`Navigation.Assign`); the handler carries on with the new value,
  and the watcher runs once the handler has returned
  (`Navigation.RunWatchers`). So `add_child` edits the row below the old
  selection before the watcher can pull the selection back
  (`NavigationProps.AddChildEditsNext`). The watcher clamps the value from
  above to the last row index. When it clamps, its own assignment schedules
  it once more, so the window is fixed twice and the selected workspace is
  announced twice. Every handler schedules at most one run
  (`Navigation.HandleKeySchedulesOnce`). A key press is `handle_key`
  followed by the runs it scheduled (`Navigation.Step`,
  `NavBarWidget.NavBar.KeyPress`).
- Outside collaborators are parameters gathered in `Navigation.Env`:
  - `matches(pattern, about)` stands for `re.findall(pattern, about)` being
    non-empty, and `valid(pattern)` for the pattern compiling;
  - `typing(buffer, key)` is what a text input does with a key;
  - `mutate(roots, call)` is the hierarchy after a call on a workspace (add,
    drop, shift, sort, edit);
  - `created(roots, call)` is the name of the workspace an add call creates;
  - `menu(key)` is what the sort menu does with a key.
- Messages posted to the application (`ChangeStatus`, `Notify`,
  `TopicSelect`, `SwitchTab`) are appended to an event log in order.

## Model

| member | source | states |
|---|---|---|
| Rows.NewComponent | dooit/ui/widgets/tree.py:20-37 | a new component is about the given node, collapsed, at the given depth and index, with one unfocused buffer per field of the node holding that field's value |
| Rows.RefreshItem | dooit/ui/widgets/tree.py:39-45 | the named field's buffer is re-seeded with the node's current value of that field; the other buffers, the flag, depth and index are unchanged |
| Rows.ToggleExpand | dooit/ui/widgets/tree.py:50-51 | the expansion flag is negated and nothing else changes |
| Rows.Expand | dooit/ui/widgets/tree.py:53-54 | the expansion flag becomes the argument and nothing else changes |
| Rows.ToggleExpandTwice | dooit/ui/widgets/tree.py:50-51 | toggling twice gives back the component |
| Rows.ToggleIsExpandNegated | dooit/ui/widgets/tree.py:50-54 | toggling is expanding to the negated flag |
| Viewport.Shifted | dooit/ui/widgets/tree.py:72-80 | shifting both bounds keeps the height and moves the top by the delta |
| Viewport.Fix | dooit/ui/widgets/tree.py:62-70 | the fixed window keeps its height, contains the selection when it has a non-negative height, starts at or below row 0 for a non-negative selection, and is left alone when it already satisfies all of that |
| Viewport.Resize | dooit/ui/widgets/tree.py:150-161 | the re-anchored window has the new height; a growing window keeps its bottom; a shrinking one ends at the row below the selection or at its old top plus the new height, whichever is further down (the larger) |
| Viewport.SetView | dooit/ui/widgets/tree.py:150-163 | after a resize the window has the new height and contains the selection |
| Viewport.FixIdempotent | dooit/ui/widgets/tree.py:62-70 | fixing the view twice on one selection is fixing it once |
| Viewport.FixStepDown | dooit/ui/widgets/tree.py:62-70 | moving the selection one row down from a visible row leaves the window or slides it down by exactly one row |
| Viewport.FixStepUp | dooit/ui/widgets/tree.py:62-70 | moving the selection one row up from a visible row leaves the window or slides it up by exactly one row |
| Viewport.VerticalView.constructor | dooit/ui/widgets/tree.py:58-60 | the window holds the two given bounds |
| Viewport.VerticalView.Range | dooit/ui/widgets/tree.py:85-86 | the range is the two bounds |
| Viewport.VerticalView.ShiftUpper | dooit/ui/widgets/tree.py:72-73 | only the top moves, by the delta |
| Viewport.VerticalView.ShiftLower | dooit/ui/widgets/tree.py:75-76 | only the bottom moves, by the delta |
| Viewport.VerticalView.Shift | dooit/ui/widgets/tree.py:78-80 | the window becomes `Shifted` of the old one |
| Viewport.VerticalView.FixView | dooit/ui/widgets/tree.py:62-70 | the window becomes `Fix` of the old one on the selection |
| Hierarchy.FindEntry | dooit/ui/widgets/tree.py:351 | a found entry is in the walk and about the name; none is returned only when no entry is about it |
| Hierarchy.ParentName | dooit/ui/widgets/tree.py:351-352 | a parent name is the last ancestor on the path of a node of that name; there is none for a name no node has; under unique names there is none exactly for a top-level node, and otherwise it is the last name on the node's path |
| Hierarchy.IndexOf | dooit/ui/widgets/navbar.py:113-119 | a found position holds the named node; none is returned only when no sibling has the name |
| Hierarchy.SiblingOf | dooit/ui/widgets/navbar.py:113-119 | a next or previous sibling shares the node's parent (its path in the walk) |
| Hierarchy.SiblingOfStep | dooit/ui/widgets/navbar.py:113-119 | under distinct names, for a node at position i of its sibling list (the top level or a node's children), the sibling is the one at position i + step of that list, and none when that falls outside it |
| Hierarchy.SiblingAbsent | dooit/ui/widgets/navbar.py:113-119 | a name no node has has no sibling |
| Rows.Lookup | dooit/ui/widgets/tree.py:180-181 | a found row is a row of the list about the name; none is returned only when no row is |
| Rows.AddNodeAppends | dooit/ui/widgets/tree.py:175-197 | building one node's rows in place only appends: the result is the old rows followed by the node's walk started at their length |
| Rows.AddForestAppends | dooit/ui/widgets/tree.py:191-200 | the same for the loop over a list of siblings |
| Rows.Reuse | dooit/ui/widgets/tree.py:179-186 | the pushed component is the previous pass's component for the name, with only its index replaced by the given one, when there is one; otherwise a new collapsed component for the node at the given depth and index |
| Rows.LookupOther | dooit/ui/widgets/tree.py:180-181 | replacing a row by one for the same workspace leaves the lookup of every other name unchanged |
| FlattenSpec.VisitNodeIsBuild | dooit/ui/widgets/tree.py:175-197 | the recursive walk of one node lists exactly the entries of its pre-order walk the pass keeps, each with its reused component |
| FlattenSpec.VisitForestIsBuild | dooit/ui/widgets/tree.py:191-200 | the same for a loop over a list of siblings |
| FlattenSpec.FlattenIsPreOrder | dooit/ui/widgets/tree.py:171-202 | the rebuilt rows are the pre-order walk restricted to the kept nodes: with a filter the matching ones, without one those whose ancestors are all expanded |
| FlattenSpec.FlattenIndexed | dooit/ui/widgets/tree.py:186 | every row's index is its position in the row list |
| FlattenSpec.FlattenKeepsComponents | dooit/ui/widgets/tree.py:180-186 | the row at each position is about the node the walk kept there; a node listed again keeps its component apart from the index; a newly listed node gets a collapsed component whose depth is its nesting level (the length of its ancestor path) |
| FlattenSpec.FlattenNames | dooit/ui/widgets/tree.py:171-202 | the listed names are the kept nodes' names, position by position |
| FlattenSpec.ListedIffKept | dooit/ui/widgets/tree.py:188-197 | a name is listed if and only if a node of that name is kept |
| FlattenSpec.FilterListsMatches | dooit/ui/widgets/tree.py:188-192 | with a filter, a node is listed if and only if its description matches, at any depth, whatever is expanded |
| FlattenSpec.HiddenBelowCollapsed | dooit/ui/widgets/tree.py:193-197 | without a filter nothing below a collapsed node is listed |
| FlattenSpec.UnfilteredListsRoots | dooit/ui/widgets/tree.py:193-200 | without a filter every top-level workspace is listed |
| FlattenSpec.UnfilteredChildrenIffExpanded | dooit/ui/widgets/tree.py:193-197 | without a filter the children of a listed node are listed if and only if its row is expanded |
| FlattenSpec.UnfilteredParentListed | dooit/ui/widgets/tree.py:347-354 | without a filter the parent of a listed node is listed, so its row lookup succeeds |
| FlattenSpec.UnfilteredSiblingListed | dooit/ui/widgets/tree.py:303-307 | without a filter a sibling of a listed node is listed, so its row lookup succeeds |
| FlattenSpec.KeptDistinct | dooit/ui/widgets/tree.py:180-186 | dropping entries of a walk keeps its names distinct |
| FlattenSpec.FlattenDistinct | dooit/ui/widgets/tree.py:180-186 | over a hierarchy with unique names no two rows are about the same node |
| FlattenSpec.LookupDistinct | dooit/ui/widgets/tree.py:180-181 | in rows with distinct names, looking up a row's name finds that row |
| FlattenSpec.ExpandedCarried | dooit/ui/widgets/tree.py:179-186 | a listed workspace's row carries the expansion flag of its previous row, or is collapsed when it had none |
| FlattenSpec.VisitNodeStable | dooit/ui/widgets/tree.py:175-197 | a walk gives the same rows from any previous rows holding each of its rows under its name |
| FlattenSpec.VisitForestStable | dooit/ui/widgets/tree.py:191-200 | the same for a list of siblings |
| FlattenSpec.RefreshIdempotent | dooit/ui/widgets/tree.py:171-202 | a second rebuild with no change in between gives the same rows, components included |
| FlattenSpec.FilterForgetsHiddenExpansion | dooit/ui/widgets/tree.py:172-190 | after a filtered rebuild a node whose description does not match has no component, so it counts as collapsed |
| Navigation.Index | dooit/ui/widgets/tree.py:132-134 | Python indexing succeeds exactly for positions from minus the length up to the length, and counts negative positions from the end |
| Navigation.Select | dooit/ui/widgets/tree.py:132-139 | there is no row exactly at -1; otherwise there is a row exactly when the selection is a valid Python index, at the position it counts to (from the end for a negative one), and the read raises an IndexError when it is not |
| Navigation.Refresh | dooit/ui/widgets/tree.py:171-203 | a rebuild, raising or not, does not touch the selection and schedules no watcher |
| Navigation.StartEdit | dooit/ui/widgets/tree.py:205-215 | starting an edit does not touch the selection and schedules no watcher |
| Navigation.StopEdit | dooit/ui/widgets/tree.py:217-227 | stopping an edit does not touch the selection and schedules no watcher |
| Navigation.RemoveItem | dooit/ui/widgets/tree.py:260-266 | started with nothing scheduled, `remove_item` leaves at most one watcher run scheduled, for the value `current` then holds |
| Navigation.AddChild | dooit/ui/widgets/tree.py:268-276 | the same for `add_child` |
| Navigation.AddSibling | dooit/ui/widgets/tree.py:278-289 | the same for `add_sibling` |
| Navigation.ShiftUp | dooit/ui/widgets/tree.py:311-317 | the same for `shift_up` |
| Navigation.ShiftDown | dooit/ui/widgets/tree.py:319-325 | the same for `shift_down` |
| Navigation.ToggleExpandParent | dooit/ui/widgets/tree.py:347-356 | the same for `toggle_expand_parent` |
| Navigation.Sort | dooit/ui/widgets/tree.py:358-363 | the same for `sort` |
| Navigation.HandleTab | dooit/ui/widgets/navbar.py:39-56 | the same for `handle_tab` |
| Navigation.HandleKeySchedulesOnce | dooit/ui/widgets/tree.py:374-427 | whatever the key, `handle_key` started with nothing scheduled leaves nothing or one watcher run for the value `current` holds |
| Navigation.BoundKeySchedulesOnce | dooit/ui/widgets/tree.py:397-424 | the same for each entry of the key table |
| NavigationProps.WatchClamps | dooit/ui/widgets/navbar.py:58-67 | one watcher run sets the selection to the value clamped from above to the last row index and schedules one more run when that changed it; it changes nothing but the selection, window, messages and schedule, fixes the window on the selection, and raises exactly when the clamped selection is neither -1 nor a valid index, announcing the selected workspace otherwise |
| NavigationProps.RunWatchersSettles | dooit/ui/widgets/navbar.py:58-67 | the runs scheduled for the selection end with it clamped from above to the last row index, nothing left scheduled and the window fixed on it; they raise exactly when the clamped selection is neither -1 nor a valid index, and otherwise announce the selected workspace once, or twice when the clamp scheduled a second run |
| NavigationProps.AnnounceSelected | dooit/ui/widgets/navbar.py:64-65 | nothing is announced at -1; otherwise the selected row's workspace is, and the read raises for an invalid index |
| NavigationProps.AssignClamps | dooit/ui/widgets/navbar.py:58-61 | once its watcher has run, an assignment that changes the selection leaves it at the value clamped from above to the last row index (-1 for an empty list), and changes nothing else but the window and the messages |
| NavigationProps.MoveToBottomSelectsLast | dooit/ui/widgets/tree.py:337-338 | moving to the bottom assigns one past the last row; with rows listed and the selection elsewhere, the watcher then selects the last row without raising; when the selection already sits one past the end (the stale value `remove_item` leaves), nothing changes, no watcher runs and the selection stays broken |
| NavigationProps.MoveUpAtTop | dooit/ui/widgets/tree.py:327-329 | moving up from the first row changes nothing and schedules nothing |
| NavigationProps.MoveUpFromNothing | dooit/ui/widgets/tree.py:327-329 | moving up with nothing selected selects -2, which the watcher keeps; reading it raises unless two rows are listed, and then it is the second row from the end |
| NavigationProps.EditModeTypes | dooit/ui/widgets/tree.py:378-384 | in edit mode every key but escape goes to the edited field's buffer and nothing else changes |
| NavigationProps.EditModeEscapeCommits | dooit/ui/widgets/tree.py:217-227 | escape in edit mode commits the buffer's text to the workspace, blurs the buffer, reports NORMAL and leaves edit mode |
| NavigationProps.SortMenuTakesKeys | dooit/ui/widgets/tree.py:388-389 | while the sort menu is shown it has every key: unless it picks an attribute, at most its visibility changes |
| NavigationProps.FilterKeyRebuilds | dooit/ui/widgets/tree.py:391-395 | a key in the focused filter updates it and shows it; the rebuild raises `re.error` exactly when the text does not compile and there are workspaces; otherwise the rows are rebuilt with the new text and, once the watcher has run, the first row is selected, or -1 when nothing matches unless the selection already was 0 |
| NavigationProps.StartFilteringFocuses | dooit/ui/widgets/tree.py:229-231 | `/` focuses and shows the filter, and from then on the filter has the keys |
| NavigationProps.UnboundKeyIgnored | dooit/ui/widgets/tree.py:397-424 | in normal mode a key outside the key table changes nothing |
| NavigationProps.HandleTabPlain | dooit/ui/widgets/navbar.py:39-56 | tab with nothing selected does nothing; tab without a filter only switches tabs |
| NavigationProps.HandleTabWithFilter | dooit/ui/widgets/navbar.py:39-56 | tab with a filter announces the selected workspace, clears the filter and rebuilds the rows, clears the selection, then switches tabs; the watcher run this schedules only fixes the window |
| NavigationProps.LookupIndexed | dooit/ui/widgets/tree.py:180-186 | a row found by name in rebuilt rows sits at the position its index names |
| NavigationProps.AssignRow | dooit/ui/widgets/tree.py:307 | assigning a valid row position never raises: once the watcher has run that row is selected, and announced when it was not selected before |
| NavigationProps.UnselectedNoops | dooit/ui/widgets/tree.py:260-363 | with nothing selected, removing, shifting, toggling, toggling the parent, sorting, editing and moving to a sibling change nothing |
| NavigationProps.SortReselects | dooit/ui/widgets/tree.py:358-363 | sorting raises `re.error` exactly when the rebuild does; otherwise it raises nothing exactly when the sorted workspace is still listed, and then its row is selected, before and after the watcher runs |
| NavigationProps.ListedFound | dooit/ui/widgets/tree.py:180-181 | a listed name is found by the lookup |
| NavigationProps.ToggleKeepsVisible | dooit/ui/widgets/tree.py:193-197 | flipping a listed workspace's row leaves all its ancestors expanded |
| NavigationProps.ToggledRows | dooit/ui/widgets/tree.py:340-345 | without a filter, after a listed workspace's row is flipped and the rows rebuilt, the workspace is listed with the flag negated, and its children are listed exactly when it was collapsed before |
| NavigationProps.ToggleExpandFlips | dooit/ui/widgets/tree.py:340-345 | without a filter, `toggle_expand` keeps the selection and rebuilds the rows with the selected row flipped: the workspace stays listed with the flag negated, and its children are listed exactly when it was collapsed |
| NavigationProps.ToggleExpandParentToggles | dooit/ui/widgets/tree.py:347-356 | without a filter, `toggle_expand_parent` never raises: it selects the row of the workspace's parent (a top-level workspace keeps its row) and flips that row as `toggle_expand` does |
| NavigationProps.ToSiblingSelects | dooit/ui/widgets/tree.py:291-309 | without a filter, moving to a sibling selects the row of the sibling `SiblingOf` names and then starts the edit asked for, raising no KeyError; without a sibling nothing changes |
| NavigationProps.SiblingKeepsHierarchy | dooit/ui/widgets/tree.py:291-309 | moving to a sibling leaves the workspaces alone |
| NavigationProps.StartEditOnlyFocuses | dooit/ui/widgets/tree.py:205-215 | starting an edit changes rows only through the focus of their buffers, and nothing but the rows, the mode and the messages |
| NavigationProps.ShiftMoves | dooit/ui/widgets/tree.py:311-325 | shifting a selected workspace up or down makes that move in the hierarchy; the rebuild raises `re.error` exactly when the filter does not compile; otherwise the rows are rebuilt and the selection moves one row up (not above 0) or down, which is the moved workspace's row only when the rows between did not change |
| NavigationProps.AddSiblingWithRow | dooit/ui/widgets/tree.py:278-289 | with a row selected, `add_sibling` adds a sibling after the workspace when the selection is not negative and a top-level workspace when it is (navbar.py:97-101), then rebuilds and moves to the next sibling of the row then selected, to edit it |
| NavigationProps.AddSiblingWithoutRow | dooit/ui/widgets/tree.py:278-285 | with nothing selected, `add_sibling` adds a top-level workspace and rebuilds; it raises a KeyError exactly when the new workspace is not listed, and otherwise selects its row, reports INSERT and edits it |
| NavigationProps.AddChildRowsExpanded | dooit/ui/widgets/tree.py:268-274 | after expanding the selected row, adding the child and rebuilding, every row of that workspace is expanded |
| NavigationProps.AddChildExpands | dooit/ui/widgets/tree.py:268-276 | whichever step `add_child` stops at, the row it was called on stays expanded, so the new child is shown |
| NavigationProps.AddChildEditsNext | dooit/ui/widgets/tree.py:268-276 | `add_child` edits the row one below the old selection (row 0 from nothing) in the rebuilt rows before the watcher runs; it raises an IndexError exactly when that position is past the rows, and otherwise reports INSERT and edits that row |
| NavigationProps.RefreshTwice | dooit/ui/widgets/tree.py:171-203 | refreshing twice with nothing changed in between ends as refreshing once, raising or not |
| NavigationProps.FilterRoundTripCollapses | dooit/ui/widgets/tree.py:229-237 | setting a filter then clearing it brings back collapsed every workspace the filter did not match |
| NavigationProps.RemoveKeepsSelection | dooit/ui/widgets/tree.py:260-266 | removing drops the workspace and rebuilds, raising `re.error` exactly when the filter does not compile; the selection value stays and no watcher is scheduled, so the next read raises when the list became too short |
| NavigationProps.FreshForest | dooit/ui/widgets/tree.py:175-200 | a first pass with no earlier rows and no filter makes one new collapsed row per top-level workspace |
| NavigationProps.MountListsTopLevel | dooit/ui/widgets/tree.py:117-121 | on mount exactly the top-level workspaces are listed, in order, collapsed, with nothing selected and nothing scheduled |
| NavBarWidget.NavBar.constructor | dooit/ui/widgets/tree.py:94-121 | the widget starts in the mounted state: edit mode off, filter empty, menu hidden, nothing selected, rows rebuilt, and a new window of the screen's usable height |
| NavBarWidget.NavBar.FixView | dooit/ui/widgets/tree.py:143-144 | the owned window is fixed on the selection |
| NavBarWidget.NavBar.SetView | dooit/ui/widgets/tree.py:150-163 | the widget moves to the resized state |
| NavBarWidget.NavBar.PushItem | dooit/ui/widgets/tree.py:179-186 | one reused component is appended, indexed by its position, and nothing but the rows changes |
| NavBarWidget.NavBar.AddRows | dooit/ui/widgets/tree.py:175-197 | the rows become those of the in-place walk of one node from the old rows (`Rows.AddNode`), and nothing else changes |
| NavBarWidget.NavBar.AddChildren | dooit/ui/widgets/tree.py:191-197 | the loop over a node's children builds on the old rows as `Rows.AddForest` says, and nothing else changes |
| NavBarWidget.NavBar.RefreshRows | dooit/ui/widgets/tree.py:171-203 | `_refresh_rows` raises `re.error` on a filter that does not compile when there are workspaces; otherwise the rows become the rebuilt rows of `Rows.Flatten`; nothing else changes |
| NavBarWidget.NavBar.RebuildRows | dooit/ui/widgets/tree.py:172-202 | the rows become the rebuilt rows of `Rows.Flatten`, and nothing else changes |
| NavBarWidget.NavBar.Assign | dooit/ui/widgets/tree.py:91 | an assignment to the reactive selection stores a changed value and schedules the watcher for it; an unchanged one does nothing |
| NavBarWidget.NavBar.WatchCurrent | dooit/ui/widgets/navbar.py:58-67 | one watcher run: clamp, assign, fix the view, announce |
| NavBarWidget.NavBar.RunWatchers | dooit/ui/widgets/navbar.py:58-67 | the scheduled watcher runs, oldest first, until none is left or one raises |
| NavBarWidget.NavBar.Settle | dooit/ui/widgets/navbar.py:63-65 | the tail of the watcher: the window is fixed on the selection, then the selected workspace is announced, or the read of the item raises |
| NavBarWidget.NavBar.MoveUp | dooit/ui/widgets/tree.py:327-329 | the widget takes the `move_up` transition |
| NavBarWidget.NavBar.MoveDown | dooit/ui/widgets/tree.py:331-332 | the widget takes the `move_down` transition |
| NavBarWidget.NavBar.MoveToTop | dooit/ui/widgets/tree.py:334-335 | the widget takes the `move_to_top` transition |
| NavBarWidget.NavBar.MoveToBottom | dooit/ui/widgets/tree.py:337-338 | the widget takes the `move_to_bottom` transition |
| NavBarWidget.NavBar.MoveToItem | dooit/ui/widgets/tree.py:303-309 | the widget takes the `_move_to_item` transition |
| NavBarWidget.NavBar.ToNextSibling | dooit/ui/widgets/tree.py:291-295 | the widget takes the `to_next_sibling` transition |
| NavBarWidget.NavBar.ToPrevSibling | dooit/ui/widgets/tree.py:297-301 | the widget takes the `to_prev_sibling` transition |
| NavBarWidget.NavBar.StartEdit | dooit/ui/widgets/tree.py:205-215 | the widget takes the `_start_edit` transition |
| NavBarWidget.NavBar.StopEdit | dooit/ui/widgets/tree.py:217-227 | the widget takes the `_stop_edit` transition |
| NavBarWidget.NavBar.StartFiltering | dooit/ui/widgets/tree.py:229-231 | the widget takes the `_start_filtering` transition |
| NavBarWidget.NavBar.StopFiltering | dooit/ui/widgets/tree.py:233-237 | the widget takes the `_stop_filtering` transition |
| NavBarWidget.NavBar.RemoveItem | dooit/ui/widgets/tree.py:260-266 | the widget takes the `remove_item` transition |
| NavBarWidget.NavBar.AddChild | dooit/ui/widgets/tree.py:268-276 | the widget takes the `add_child` transition |
| NavBarWidget.NavBar.AddSibling | dooit/ui/widgets/tree.py:278-289 | the widget takes the `add_sibling` transition |
| NavBarWidget.NavBar.ShiftUp | dooit/ui/widgets/tree.py:311-317 | the widget takes the `shift_up` transition |
| NavBarWidget.NavBar.ShiftDown | dooit/ui/widgets/tree.py:319-325 | the widget takes the `shift_down` transition |
| NavBarWidget.NavBar.ToggleExpand | dooit/ui/widgets/tree.py:340-345 | the widget takes the `toggle_expand` transition |
| NavBarWidget.NavBar.ToggleExpandParent | dooit/ui/widgets/tree.py:347-356 | the widget takes the `toggle_expand_parent` transition |
| NavBarWidget.NavBar.Sort | dooit/ui/widgets/tree.py:358-363 | the widget takes the `sort` transition |
| NavBarWidget.NavBar.ShowSortMenu | dooit/ui/widgets/tree.py:365-366 | the sort menu becomes visible |
| NavBarWidget.NavBar.HandleTab | dooit/ui/widgets/navbar.py:39-56 | the widget takes the `handle_tab` transition |
| NavBarWidget.NavBar.LeaveFilter | dooit/ui/widgets/navbar.py:43-54 | the filtered branch of `handle_tab`: announce the selected workspace, stop filtering, clear the selection |
| NavBarWidget.NavBar.MenuKey | dooit/ui/widgets/tree.py:388-389 | the widget takes the sort menu's transition |
| NavBarWidget.NavBar.BoundKey | dooit/ui/widgets/tree.py:397-424 | the widget takes the transition of the key's table entry |
| NavBarWidget.NavBar.HandleKey | dooit/ui/widgets/tree.py:374-427 | the widget takes the `handle_key` transition |
| NavBarWidget.NavBar.KeyPress | dooit/ui/widgets/tree.py:374-427 | a key press: `handle_key`, then the watcher runs it scheduled |
| Style.FormatKey | dooit/ui/widgets/navbar.py:80-89 | the highlight template is used exactly for a highlighted row outside edit mode, the edit template exactly for a highlighted row in edit mode, the dim one exactly for other rows |
| Style.FillWithoutPlaceholder | dooit/ui/widgets/navbar.py:91 | a template that does not mention the description field comes out unchanged |
| Style.FillAround | dooit/ui/widgets/navbar.py:91 | the description field in a template is replaced by the description and the text around it is kept |
| Style.StylizeShows | dooit/ui/widgets/navbar.py:80-91 | the chosen template shows the description in place of its field, or is shown as it is when it has none |

Every `NavBarWidget.NavBar` handler also ensures that it leaves the owned
window object the same object; the transitions it is proved to take are the
`Navigation` functions of the same name, and the rows above state what
those guarantee.

## Left out

- Rendering is not modelled: `render`, `make_table`, `push_row`, `add_row`,
  `_setup_table`, `EMPTY`, `set_styles`, `toggle_highlight`, `refresh` and
  the markup parsing of `Text.from_markup`.
- Style.FillDesc models `str.format` only for templates whose one field is
  `{desc}`; brace escapes (`{{`, `}}`) and other fields (which raise in
  Python) are not modelled.
- The regular expression search is the `matches` parameter; the pattern
  language is not modelled.
- The text input is a `Buffer` (text and focus); its key handling is the
  `typing` parameter, and the filter's rendering is its text.
- The sort menu is the `menu` parameter: a key browses, dismisses or picks
  an attribute.
- The workspace model's own operations (`add_sibling`, `add_workspace`,
  `add_child_workspace`, `drop`, `shift_up`, `shift_down`, `sort`, `edit`)
  are the `mutate` and `created` parameters. `next_sibling`,
  `prev_sibling` and `parent` are computed from the tree by
  `Hierarchy.SiblingOf` and `Hierarchy.ParentName`.
- Message posting is a log of events, and the screen size is a parameter of
  the constructor and of `SetView`. Other tasks of the event loop running
  while a handler awaits are not modelled: a handler and the watcher runs it
  scheduled run one after the other, before the next key.
- Navigation.Assign: the reactive attribute also runs its watcher on the
  first assignment it ever receives, even one of the value it already holds;
  the model schedules the watcher only for assignments that change the value.
- Navigation.Refresh: when `re.findall` raises, `_refresh_rows` has already
  emptied the `_rows` table while `row_vals` keeps the old rows. The model
  keeps one row list, unchanged, so after such an error it re-uses the old
  components where the source's next rebuild would start them afresh,
  collapsed.
- Components are values held in the row list, not shared objects; the
  `_rows` dictionary and `row_vals` are one list, which agrees with the
  dictionary whenever workspace names are unique (`FlattenSpec.FlattenDistinct`).
- `check_extra_keys` (empty in the bar) and the base class's empty
  `handle_tab` are not modelled separately.
- The truthiness of a workspace is taken to be true; an absent item is -1.
