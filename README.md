# bountui, modelled in Dafny

bountui is a terminal front end for the HashiCorp Boundary command-line
client. It shows the scopes, targets and sessions the user may see, and it
connects to targets. It also keeps track of the local connections it
started, so that it can stop them. This project models the sequential core
of the program and proves properties of it: what each page does with a key
press, the table and filter state machines, the input dialog's focus, the
router and navigation history, the permission checks, the classification
of the `boundary` command's output, the remembered-port store, and the two
connection managers.

The repository holds two generations of the user interface, and they do
not compile together. Each is modelled on its own terms:

- the earlier one, under `src/` (`bountui.rs`, `router.rs`,
  `connection_manager.rs`, `components/…`), is in the `Legacy*` modules,
  `AlertStack` and `Routing`;
- the current one, under `src/bountui/`, is in the `Bountui*` modules,
  `SessionManager`, `NavigationInput`, `ConnectionResult`, `UserInputs` and
  `Messages`.

Code that the two generations share, or that is identical in both, is
defined once:

- `Routing` models both `router.rs` files, which are the same router; the
  second one is written with `RefCell`/`Cell`.
- `InputDialog` models both `input_dialog.rs` files.
- `Cli` models both command-line clients (`boundary/client/cli.rs` and
  `boundary/client/cli/mod.rs`). Where the earlier client differs, it has
  its own member (`Cli.LegacyScopesArgs`, `Cli.LegacyConnectReply`,
  `Cli.OutputClassification`).
- `Models`, `ItemRules`, `TableFilter`, `TargetConnect` and `Text` hold the
  resources, the permission checks, what each table matches and sorts on,
  and the text helpers that both generations use.

### How the model is built

- Pure code becomes functions with contracts, plus lemmas about them.
- Every object whose methods update fields in place is a class with those
  fields. Each of its methods is proved against a function of the old
  state: `Model() == Step(old(Model()), …)`. The properties are then proved
  about that function.
- A message sent on a channel is appended to an `outbox` sequence.
- What comes from outside the program is a parameter of the operation that
  receives it:
  - a client reply, a clipboard result or a file's contents;
  - the time;
  - how a connection's supervision task ends.
- Rust's `usize`/`u16` limits are written out where they matter
  (`BountuiTable.UsizeSub`, `Text.ParseU16`).
- The current generation's `BountuiApp` holds its pages as values, in which
  each page's state is the state its class keeps.

Some source files do not fit together, because the tree mixes two
generations. Where they disagree, the model follows the file it models:

- `bountui/components/table/sessions.rs`, `connection_result_dialog.rs` and
  `bountui/components/table/scope.rs` call a later table. Its `handle_event`
  is awaited and answers whether it used the event. Its constructor takes a
  message sender, and it keeps a `loading` flag. The later table is not part
  of this model.
  - `scope.rs` uses neither the answer nor `loading`, so the scopes page
    steps with the table modelled here.
  - Its answer is a parameter (`tableHandled`).
  - `loading` is a field of the sessions page.
- `bountui/mod.rs` builds its sessions page over plain `Session`s, with
  constructor arguments that `sessions.rs` does not have. So the page's
  logic is generic over the row type (`BountuiSessions.Step` takes
  `sessionOf`). The application's page is `Loaded(NewPage(), …)` of the
  sessions the application filtered.
- `bountui/mod.rs:103` calls `set_sessions` on its sessions page, which
  the current `sessions.rs` does not define. The model gives it the
  meaning of the earlier page's `set_sessions`
  (`src/components/table/sessions.rs:130-133`): the table's items are
  replaced by the reply, as `update_items` does.
- Some code reads fields that `boundary/models.rs` does not declare:
  `Session.user_id`, a credential's source, and a connect response's
  expiration. The model gives the records those fields.
## Model

| member | source | states |
|---|---|---|
| Events.IsEnter | src/event_ext.rs:11-16 | a key event is Enter exactly when its code is Enter; no other kind of event is |
| Events.IsEnterIgnoresModifiers | src/event_ext.rs:13 | the modifiers held make no difference, only the key code does |
| Events.WasHandled | src/bountui/app.rs:7-12 | true for `Handled` with any payload, false for `NotHandled`: exactly one of the two is handled |
| Events.EditText | src/bountui/components/table/mod.rs:100-103 | a typed character (Control not held) is appended to the text, Backspace drops the last character, and a non-key event leaves the text unchanged |
| Events.TypeAllAppends | src/bountui/components/table/mod.rs:100-103 | typing a string one key at a time appends exactly that string to the text |
| Text.Contains | src/bountui/components/table/mod.rs:27-29 | the substring search holds exactly when the needle occurs at some position of the text |
| Text.MatchStr | src/bountui/components/table/mod.rs:27-29 | `match_str` holds exactly when the lower-cased search text occurs in the lower-cased value |
| Text.MatchStrEmpty | src/components/table/mod.rs:30-32 | an empty search text matches every value |
| Text.MatchStrIgnoresCase | src/components/table/mod.rs:30-32 | lower-casing the search text first does not change whether it matches |
| Text.NatToString | src/boundary/error.rs:9-10 | the status code's decimal rendering is a non-empty string of digits whose value is the number |
| Text.IntToString | src/boundary/error.rs:7-8 | a negative exit code is rendered as '-' followed by the digits of its magnitude, other codes as their digits |
| Text.ParseU16 | src/bountui/components/table/target.rs:111 | empty text, a lone "+", and text whose first character is neither a digit nor "+" or that has a non-digit after it do not parse; text of digits, optionally after one leading "+", parses exactly when its value fits in 16 bits, and then to that value |
| Text.ParseRendersPort | src/components/table/target/mod.rs:153-175 | rendering a port number and parsing it back yields the same port |
| Text.StrLeTotal | src/bountui/components/table/scope.rs:92-96 | any two names are ordered one way or the other by String comparison |
| Text.StrLeReflexive | src/bountui/components/table/scope.rs:92-96 | every name compares less than or equal to itself |
| Text.StrLeTransitive | src/bountui/components/table/scope.rs:92-96 | String comparison is transitive |
| Text.StrLeFirstDifference | src/bountui/components/table/scope.rs:92-96 | two names sharing a prefix are ordered by the first character in which they differ |
| Models.CanListChildScopes | src/boundary/models.rs:18-23 | true exactly when "list" is among the actions of the scope's "scopes" collection; false when that collection is missing |
| Models.CanListTargets | src/boundary/models.rs:25-30 | true exactly when "list" is among the actions of the scope's "targets" collection; false when that collection is missing |
| Models.CanConnect | src/boundary/models.rs:54-57 | true exactly when one of the target's actions is "authorize-session" |
| Models.CanCancel | src/boundary/models.rs:90-92 | true exactly when one of the session's actions is "cancel:self" |
| Models.TargetLeTotal | src/boundary/models.rs:47-51 | targets are totally ordered by their names, and targets with equal names compare equal |
| Models.Describe | src/boundary/error.rs:3-13 | each error is displayed as its own text: an I/O error as "An error occurred while executing the command: " and its message, a CLI error as "boundary cli returned an error code: " and its code, an API error as its status code, ": " and its message, a JSON error as "An error occurred while parsing JSON: " and its message |
| TableFilter.IsInput | src/bountui/components/table/filter.rs:10-12 | true exactly for an open search box, and an open box is an active filter |
| TableFilter.IsActive | src/bountui/components/table/filter.rs:14-16 | false exactly for the disabled filter |
| TableFilter.DefaultFilter | src/bountui/components/table/filter.rs:19-23 | the default filter is neither active nor open |
| TableFilter.Filtered | src/bountui/components/table/mod.rs:104-109 | each item appears in the result as often as in the input if it matches, else not at all, and the result keeps the input's order |
| TableFilter.FilteredMembers | src/components/table/mod.rs:171-176 | an item is shown exactly when it is one of the items and matches the search |
| TableFilter.FilteredKeepsAll | src/components/table/mod.rs:171-176 | when every item matches, filtering keeps the whole list unchanged |
| TableUtil.FormatTitleWithParent | src/bountui/components/table/util.rs:1-6 | without a parent the title is unchanged; with one it is the title, '(', the parent's name and ')' |
| ItemRules.TargetMatches | src/bountui/components/table/target.rs:193-199 | a target matches exactly when its name, description or id matches the search; an empty search matches every target |
| ItemRules.ScopeMatches | src/bountui/components/table/scope.rs:98-104 | a scope matches exactly when its name, description or id matches the search; an empty search matches every scope |
| ItemRules.SessionMatches | src/components/table/sessions.rs:176-184 | a session matches exactly when its id, target id, type, status or creation time matches; an empty search matches every session |
| ItemRules.SessionWithTargetMatches | src/bountui/components/table/sessions.rs:166-175 | a session matches exactly when its id, its target's id or name, its type, status or creation time matches; an empty search matches all |
| ItemRules.CredentialMatches | src/bountui/components/connection_result_dialog.rs:159-164 | a credential matches exactly when its username or its source's name matches; an empty search matches all |
| ItemRules.NameOrdersArePreorders | src/components/table/scope/mod.rs:163-167 | ordering targets, scopes and credentials by a name with String comparison is total and transitive |
| ItemRules.TimeOrdersArePreorders | src/components/table/sessions.rs:186-190 | ordering sessions by creation time is total and transitive |
| Sorting.Insert | src/components/table/mod.rs:86-90 | inserting into a sorted list gives a sorted list holding the same elements plus the new one |
| Sorting.SortBy | src/components/table/mod.rs:86-90 | `sort_by` returns a list sorted by the comparison that is a permutation of its input |
| Sorting.SortBySorted | src/components/table/mod.rs:86-90 | sorting an already sorted list leaves it unchanged |
| Messages.ShowError | src/bountui/mod.rs:48-53 | an alert titled "Error" whose text is the context, then ": ", then the error text |
| TargetConnect.IsEnabled | src/components/table/target/mod.rs:38-45 | showing sessions is always offered; connecting is offered exactly when the target grants "authorize-session" |
| TargetConnect.NewConnectDialog | src/bountui/components/table/target.rs:88-99 | the connect dialog has exactly one field, the empty "Listen Port" field, which has the focus, above a Cancel button and then an Ok button |
| TargetConnect.DialogPort | src/bountui/components/table/target.rs:111 | with no port field there is no port; with one, the port is exactly the u16 parse of its text, so a text that does not parse gives none |
| BountuiTable.FirstRow | src/bountui/components/table/mod.rs:70 | the first row is selected exactly when there are rows |
| BountuiTable.NewTable | src/bountui/components/table/mod.rs:67-80 | a new table shows every item, has no filter, and selects the first row when there is one |
| BountuiTable.WithItems | src/bountui/components/table/mod.rs:82-86 | `set_items` makes the new items all visible and selects the first row when there is one, keeping the filter |
| BountuiTable.SelectedItem | src/bountui/components/table/mod.rs:88-92 | there is a selected item exactly when the selection names a visible row, and it is that row |
| BountuiTable.SelectedItemIsAnItem | src/bountui/components/table/mod.rs:88-92 | in a valid table the selected item is a visible row and one of the items |
| BountuiTable.Reset | src/bountui/components/table/mod.rs:94-98 | `reset_filter` disables the filter, shows every item and selects the first row |
| BountuiTable.Updated | src/bountui/components/table/mod.rs:100-112 | only with an open search box: the event edits the text, the visible rows become the items matching the new text, and the first row is selected |
| BountuiTable.SelectNextUnderflow | src/bountui/components/table/mod.rs:114-120 | as written, Down on an empty list with the first row selected moves the selection to 1, and then to 2 |
| BountuiTable.NextSelection | src/bountui/components/table/mod.rs:114-120 | the selection moves one row down when there is a next row and stays otherwise, so a selection on a row stays on a row |
| BountuiTable.NextSelectionAgreesOnNonEmpty | src/bountui/components/table/mod.rs:114-120 | with at least one visible row the guarded step and the code as written agree |
| BountuiTable.PreviousSelection | src/bountui/components/table/mod.rs:122-128 | the selection moves one row up, stopping at the first row; no selection stays none |
| BountuiTable.Next | src/bountui/components/table/mod.rs:114-120 | only the selection changes, to the next row when there is one (the guarded step of the first finding) |
| BountuiTable.Previous | src/bountui/components/table/mod.rs:122-128 | only the selection changes, to the previous row |
| BountuiTable.Shown | src/bountui/components/table/mod.rs:130-132 | `show_filter` opens an empty search box and changes nothing else |
| BountuiTable.Hidden | src/bountui/components/table/mod.rs:134-138 | `hide_filter` turns an open search box into an applied search with its text; otherwise nothing changes |
| BountuiTable.AfterEvent | src/bountui/components/table/mod.rs:214-243 | no event changes the items |
| BountuiTable.AfterEventKeepsValid | src/bountui/components/table/mod.rs:214-243 | every event keeps the visible rows a subsequence of the items and the selection on the first row or on a row |
| BountuiTable.DownStaysOnARow | src/bountui/components/table/mod.rs:234-236 | outside the search box, Down keeps a selection that is on a row on a row |
| BountuiTable.UpDownMove | src/bountui/components/table/mod.rs:214-236 | outside the search box Up and Down are exactly `Previous` and `Next`; in the box the event goes to the search first and then moves the selection the same way |
| BountuiTable.SlashOpensSearch | src/bountui/components/table/mod.rs:237-239 | outside the search box, '/' opens an empty search box and changes nothing else |
| BountuiTable.TypingFilters | src/bountui/components/table/mod.rs:215-222 | a character other than '/' typed into the search box is appended to the search text, narrows the rows to the items matching it, and selects the first row |
| BountuiTable.EnterKeepsSearch | src/bountui/components/table/mod.rs:215-222 | Enter in the search box closes it, keeps its text as the applied search, and changes nothing else |
| BountuiTable.EscClearsFilter | src/bountui/components/table/mod.rs:226-230 | Esc with an open or applied filter shows every item again, selects the first row and disables the filter |
| BountuiTable.EscWithoutFilter | src/bountui/components/table/mod.rs:226-230 | Esc with no filter changes nothing |
| BountuiTable.SlashWhileSearching | src/bountui/components/table/mod.rs:214-239 | '/' typed into the search box is first added to the search, then the box reopens empty while the rows stay filtered by the text with the '/' |
| BountuiTable.TablePage.constructor | src/bountui/components/table/mod.rs:67-80 | the page's title and state are those of a new table, and that state is valid |
| BountuiTable.TablePage.SetItems | src/bountui/components/table/mod.rs:82-86 | the page's state becomes `WithItems` of the old state, and stays valid |
| BountuiTable.TablePage.ResetFilter | src/bountui/components/table/mod.rs:94-98 | the page's state becomes `Reset` of the old state |
| BountuiTable.TablePage.UpdateFilter | src/bountui/components/table/mod.rs:100-112 | the page's state becomes `Updated` of the old state |
| BountuiTable.TablePage.SelectNext | src/bountui/components/table/mod.rs:114-120 | the page's state becomes `Next` of the old state, with the guard as corrected |
| BountuiTable.TablePage.SelectPrevious | src/bountui/components/table/mod.rs:122-128 | the page's state becomes `Previous` of the old state |
| BountuiTable.TablePage.ShowFilter | src/bountui/components/table/mod.rs:130-132 | the page's state becomes `Shown` of the old state |
| BountuiTable.TablePage.HideFilter | src/bountui/components/table/mod.rs:134-138 | the page's state becomes `Hidden` of the old state |
| BountuiTable.TablePage.HandleEvent | src/bountui/components/table/mod.rs:214-243 | the page's state becomes `AfterEvent` of the old state, the title unchanged |
| BountuiTable.TablePage.IsFilterInputActive | src/bountui/components/table/mod.rs:267-269 | true exactly when the search box is open |
| LegacyTable.SelectedCoerced | src/ext/table_state.rs:10-12 | no selection reads as row 0; a selection reads as its own index |
| LegacyTable.NewTable | src/components/table/mod.rs:67-84 | a new table shows every item, has no filter and nothing selected |
| LegacyTable.WithItems | src/components/table/mod.rs:86-94 | `update_items` stores the items sorted and as a permutation of the given ones, shows them all and selects row 0, keeping the filter |
| LegacyTable.Loaded | src/components/table/scope/mod.rs:106-118 | a successful load replaces the items as `update_items` does; a failed load leaves the table as it was |
| LegacyTable.SelectedItem | src/components/table/mod.rs:162-165 | the selected item is the visible row at the coerced selection, when that row exists; with no selection it is the first row |
| LegacyTable.Narrowed | src/components/table/mod.rs:167-178 | the shown items are the items that match the text, each as many times as it occurs among the items, in the items' order, and row 0 is selected |
| LegacyTable.Reset | src/components/table/mod.rs:180-184 | `reset_filter` disables the filter, shows every item and selects row 0 |
| LegacyTable.SearchInput | src/components/table/mod.rs:186-210 | the event is consumed exactly when the search box is open; with the box closed, or for a non-key event, nothing changes |
| LegacyTable.ShowInput | src/components/table/mod.rs:212-219 | the search box opens holding the applied search, or empty when there is none |
| LegacyTable.MovedUp | src/components/table/mod.rs:237-245 | Up changes only the selection: to the row above when the selected row is not the first, and not at all on the first row |
| LegacyTable.MovedDown | src/components/table/mod.rs:246-256 | Down changes only the selection: to the row below when there is one, and not at all on the last row or with no visible rows |
| LegacyTable.AfterEvent | src/components/table/mod.rs:221-265 | no event changes the items, and an event that is not consumed changes nothing |
| LegacyTable.AfterEventKeepsValid | src/components/table/mod.rs:221-265 | every event keeps the visible rows a subsequence of the items and the selection on row 0 or on a row |
| LegacyTable.SearchInputConsumesAll | src/components/table/mod.rs:186-210 | with the search box open every event is consumed; Enter keeps the search, Esc drops the filter, and other keys refilter and select row 0 |
| LegacyTable.ReopenShowsConfirmedSearch | src/components/table/mod.rs:193-195 | confirming a search with Enter and pressing '/' reopens the box with the same text, giving back the state as it was before Enter |
| LegacyTable.EscConsumedIffFilterActive | src/components/table/mod.rs:231-236 | Esc is consumed exactly when a filter is active, and otherwise changes nothing |
| LegacyTable.MovesStayOnARow | src/components/table/mod.rs:237-256 | Up and Down are consumed, keep the rows, and keep a selection that is on a row on a row |
| LegacyTable.DownOnEmptyList | src/components/table/mod.rs:246-256 | Down on an empty list is consumed and changes nothing |
| LegacyTable.TablePage.constructor | src/components/table/mod.rs:67-84 | the page's state is a new table, and that state is valid |
| LegacyTable.TablePage.UpdateItems | src/components/table/mod.rs:86-94 | the page's state becomes `WithItems` of the old state, and stays valid |
| LegacyTable.TablePage.ApplyFilter | src/components/table/mod.rs:167-178 | the page's state becomes `Narrowed` of the old state |
| LegacyTable.TablePage.ResetFilter | src/components/table/mod.rs:180-184 | the page's state becomes `Reset` of the old state |
| LegacyTable.TablePage.HandleSearchInput | src/components/table/mod.rs:186-210 | the new state and the answer are `SearchInput` of the old state |
| LegacyTable.TablePage.ShowFilterInput | src/components/table/mod.rs:212-219 | the page's state becomes `ShowInput` of the old state |
| LegacyTable.TablePage.HandleEvent | src/components/table/mod.rs:221-265 | the new state and the answer are `AfterEvent` of the old state |
| InputDialog.NewDialog | src/bountui/components/input_dialog.rs:82-97 | a new dialog keeps the given fields and buttons and focuses the first field, which makes it valid when there is a field and a button |
| InputDialog.EditField | src/bountui/components/input_dialog.rs:118-122 | the event edits the value of the focused field only, and only if that field exists; every other field is unchanged |
| InputDialog.WhileFieldFocused | src/bountui/components/input_dialog.rs:103-125 | keys on a field never change the buttons or the number of fields |
| InputDialog.WhileButtonFocused | src/bountui/components/input_dialog.rs:127-170 | keys on a button never change the fields or the buttons |
| InputDialog.Step | src/bountui/components/input_dialog.rs:254-264 | `handle_event` keeps the dialog valid, its buttons and its number of fields |
| InputDialog.GetValue | src/bountui/components/input_dialog.rs:266-268 | there is no value exactly when no field has the id; otherwise the value is that of the first field with the id |
| InputDialog.OnlyEnterOnButtonAnswers | src/bountui/components/input_dialog.rs:150-153 | the dialog answers exactly when a button is focused and the key is Enter; the answer is that button's id and the dialog is unchanged |
| InputDialog.NonKeyChangesNothing | src/bountui/components/input_dialog.rs:103-125 | an event that is not a key press changes nothing and answers nothing |
| InputDialog.EditsOnlyFocusedField | src/bountui/components/input_dialog.rs:118-122 | a character typed on a field is appended to that field's value, the focus stays, and the other fields are unchanged |
| InputDialog.ButtonsDoNotEdit | src/bountui/components/input_dialog.rs:127-170 | no key on a button changes any field |
| InputDialog.UpMoves | src/bountui/components/input_dialog.rs:106-110 | Up on the first field stays there; Up from any button goes to the last field |
| InputDialog.DownMoves | src/bountui/components/input_dialog.rs:111-117 | Down on a field acts as Tab: to the next field, or from the last field to the first button, with the fields unchanged and no answer |
| InputDialog.LeftRightSaturate | src/bountui/components/input_dialog.rs:138-149 | Left and Right move one button along and stop at the first and the last button |
| InputDialog.Tabs | src/bountui/components/input_dialog.rs:111-117 | any number of Tabs keeps the dialog valid and its fields and buttons unchanged |
| InputDialog.TabAdvances | src/bountui/components/input_dialog.rs:154-160 | one Tab moves one position on through the fields and then the buttons, wrapping from the last button to the first field |
| InputDialog.TabsAdvance | src/bountui/components/input_dialog.rs:154-160 | k Tabs that do not pass the last button move the focus k positions on |
| InputDialog.TabCycle | src/bountui/components/input_dialog.rs:111-160 | Tabbing once past every field and button brings the focus back to the first field |
| InputDialog.InputDialog.constructor | src/bountui/components/input_dialog.rs:82-97 | the dialog holds the title and the state of `NewDialog` |
| InputDialog.InputDialog.HandleEventWhileInputSelected | src/bountui/components/input_dialog.rs:103-125 | the dialog's state becomes `WhileFieldFocused` of the old state |
| InputDialog.InputDialog.HandleEventWhileButtonSelected | src/bountui/components/input_dialog.rs:127-170 | the new state and the answer are `WhileButtonFocused` of the old state |
| InputDialog.InputDialog.HandleEvent | src/bountui/components/input_dialog.rs:254-264 | the new state and the answer are `Step` of the old state, and the dialog stays valid |
| Routing.History.Push | src/router.rs:16-18 | the root stays, the history grows by one, and the pushed page is on top |
| Routing.History.Len | src/router.rs:20-22 | the length counts the root, so it is at least one, and it is one exactly when nothing was pushed |
| Routing.History.Last | src/router.rs:24-26 | the top page is the last one pushed, or the root when nothing was pushed |
| Routing.History.Pop | src/router.rs:28-30 | the root stays; with nothing pushed nothing changes; otherwise the top entry is dropped, the rest is kept in order, and pushing the old top restores the history |
| Routing.PushThenPop | src/router.rs:16-30 | popping right after a push gives back the history as it was |
| Routing.AfterPush | src/bountui/router.rs:53-58 | without a page nothing changes; with one, it is pushed, it is on top, and it is the pending change |
| Routing.Router.constructor | src/router.rs:45-50 | a new router has only the initial page and no pending change |
| Routing.Router.Push | src/router.rs:52-56 | the page goes on top of the history and becomes the pending change |
| Routing.Router.Pop | src/router.rs:58-63 | above the root the top page is dropped and the new top becomes the pending change; at the root nothing changes |
| Routing.Router.PollChange | src/router.rs:65-67 | the pending change is returned once and cleared, the history unchanged |
| Routing.Router.CanGoBack | src/router.rs:69-71 | true exactly when a page was pushed above the root |
| Routing.PushPollPopScenario | src/bountui/router.rs:46-74 | from a new router a pushed page is polled once; popping it then reports the root, with nowhere further back to go |
| Routing.PopAtRootScenario | src/bountui/router.rs:60-66 | popping at the root reports no change and keeps the root on top |
| AlertStack.AfterEvent | src/components/alerts.rs:19-30 | with no alerts nothing is handled; with alerts every event is handled, and Enter removes the last alert pushed |
| AlertStack.FailureAlerts | src/components/table/scope.rs:80-92 | a failed request raises exactly one "Error" alert with the page's message; a successful one raises none |
| AlertStack.Shown | src/components/alerts.rs:32-36 | the alert drawn is the first one pushed, and none is drawn exactly when there are no alerts |
| AlertStack.EnterKeepsShownAlert | src/components/alerts.rs:19-36 | with two or more alerts, Enter removes one alert, but the one on screen stays |
| AlertStack.PushThenEnter | src/components/alerts.rs:13-30 | pushing an alert and then pressing Enter leaves the stack as it was, and the event is handled |
| AlertStack.Alerts.constructor | src/components/alerts.rs:7-10 | a new stack is empty |
| AlertStack.Alerts.Alert | src/components/alerts.rs:13-17 | `alert` appends exactly one alert with the given title and message |
| AlertStack.Alerts.HandleEvent | src/components/alerts.rs:19-30 | the new stack and the answer are `AfterEvent` of the old stack |
| LegacyScopes.IsEnabled | src/components/table/scope/mod.rs:50-55 | listing child scopes is enabled exactly when the scope's "scopes" collection grants "list", listing targets exactly when its "targets" collection does |
| LegacyScopes.CommandRoute | src/components/table/scope/mod.rs:120-136 | a command pushes a page exactly when the scope grants it: its child scopes for 's', its targets for 't' |
| LegacyScopes.KeyCommand | src/components/table/scope/mod.rs:35-48 | 's' is exactly the list-scopes key and 't' exactly the list-targets key |
| LegacyScopes.Step | src/components/table/scope/mod.rs:138-156 | the table has the event first; a command key it passes on is consumed, and pushes the selected scope's child scopes or targets exactly when the scope grants that command; with the search box open nothing is pushed |
| LegacyScopes.UngrantedScopeGoesNowhere | src/components/table/scope/mod.rs:138-156 | for a scope that grants neither command, both command keys are consumed and change nothing |
| LegacyScopes.ScopesPage.constructor | src/components/table/scope/mod.rs:62-104 | the new page's table is loaded from the reply, sorted by name; a failed reply leaves it empty and raises one "Failed to load scopes" alert |
| LegacyScopes.ScopesPage.Load | src/components/table/scope/mod.rs:106-118 | the table becomes `Loaded` of the old table; a failure appends one "Error" alert saying "Failed to load scopes" |
| LegacyScopes.ScopesPage.ListScopes | src/components/table/scope/mod.rs:120-127 | the router gets the child scopes page exactly when the scope may list them |
| LegacyScopes.ScopesPage.ListTargets | src/components/table/scope/mod.rs:129-136 | the router gets the targets page exactly when the scope may list its targets |
| LegacyScopes.ScopesPage.HandleEvent | src/components/table/scope/mod.rs:138-156 | the table, the answer and the router change as `Step` says |
| LegacyScopeTree.IsActionEnabled | src/components/table/scope.rs:176-181 | the Enter page offers each action exactly when the scope/mod.rs page enables the same command |
| LegacyScopeTree.ChildrenRoute | src/components/table/scope.rs:112-121 | Enter opens the child scopes when the scope may list them, else its targets when it may list those, else nothing |
| LegacyScopeTree.Step | src/components/table/scope.rs:123-137 | an event the table consumes pushes nothing; otherwise Enter is consumed and pushes what `ChildrenRoute` gives for the selection; other events are not consumed |
| LegacyScopeTree.ScopesPage.constructor | src/components/table/scope.rs:36-78 | the new page's table is loaded from the reply, sorted by name; a failure raises one "Failed to load scopes" alert |
| LegacyScopeTree.ScopesPage.Load | src/components/table/scope.rs:80-92 | the table becomes `Loaded` of the old table; a failure appends one "Error" alert saying "Failed to load scopes" |
| LegacyScopeTree.ScopesPage.ShowChildren | src/components/table/scope.rs:112-121 | the router gets exactly the page `ChildrenRoute` gives for the selected scope |
| LegacyScopeTree.ScopesPage.HandleEvent | src/components/table/scope.rs:123-137 | the table, the answer and the router change as `Step` says |
| LegacyScopeTree.NamesInOrder | src/components/table/scope.rs:195-212 | "scope-name-1" sorts before "scope-name-2" |
| LegacyScopeTree.ScopesLoadInOrder | src/components/table/scope.rs:195-212 | sorting the two test scopes by name keeps their order |
| LegacyScopeTree.LoadedShape | src/components/table/scope.rs:214-231 | after loading the two test scopes the table shows both, in order, with row 0 selected |
| LegacyScopeTree.EnterOpensChildren | src/components/table/scope.rs:214-264 | Enter on the first test scope opens its child scopes, on the second its targets |
| LegacyScopeTree.ShowChildScopesScenario | src/components/table/scope.rs:214-238 | Enter on a freshly loaded page routes to the child scopes of "scope-id-1" |
| LegacyScopeTree.ShowTargetsScenario | src/components/table/scope.rs:240-265 | with row 1 selected, Enter routes to the targets of "scope-id-2" |
| LegacyTargets.ConnectRequest | src/components/table/target/mod.rs:153-168 | with no dialog or no selected target the page is unchanged and nothing is connected; otherwise the dialog closes and exactly the selected target and the typed port go to the connection manager |
| LegacyTargets.ConnectAnswer | src/components/table/target/mod.rs:169-173 | a successful connection shows its response and raises no alert; a failure keeps the previous response and raises one "Error" alert reading "Failed to connect:\n " followed by the error's description |
| LegacyTargets.Step | src/components/table/target/mod.rs:177-224 | Enter closes a shown response and does nothing else; an open dialog takes every event and leaves table and response alone; a connection starts exactly when the dialog answers Ok with a target selected, closing the dialog; a route is pushed only for 'C' with a selection, to that target's sessions; a dialog appears only through 'c', and it is a fresh one; an event nobody uses leaves everything unchanged and is reported unused |
| LegacyTargets.DialogAnswers | src/components/table/target/mod.rs:190-198 | Enter on Cancel closes the dialog and is used; Enter on Ok with no selected target leaves the page unchanged and is used |
| LegacyTargets.TargetsPage.constructor | src/components/table/target/mod.rs:72-136 | the page starts with no dialog and no response, a table titled "Targets" holding the loaded targets sorted by name, and one "Failed to load targets" alert exactly when loading fails |
| LegacyTargets.TargetsPage.Load | src/components/table/target/mod.rs:121-136 | a successful load replaces the table's items by the targets sorted by name; a failed one leaves the table and raises one "Failed to load targets" alert |
| LegacyTargets.TargetsPage.ShowConnectDialog | src/components/table/target/mod.rs:138-151 | a fresh connect dialog is open afterwards and the shown response is untouched |
| LegacyTargets.TargetsPage.Connect | src/components/table/target/mod.rs:153-175 | the new state is ConnectRequest's, with ConnectAnswer's response and alerts when a connection starts; the manager creates one token then, records it for the session on success, keeps its invariant, and is untouched otherwise |
| LegacyTargets.TargetsPage.HandleEvent | src/components/table/target/mod.rs:177-224 | the method's answer, route, state, alerts and connection match Step for the event, with ConnectAnswer applied when a connection starts |
| LegacyTargets.TestDialogPort | src/components/table/target/mod.rs:266-279 | the test dialog, whose port field holds "8080", yields port 8080 |
| LegacyTargets.ConnectScenario | src/components/table/target/mod.rs:304-382 | with two targets loaded and the test dialog open, connect always closes the dialog; a failure raises exactly one alert and shows no response; a success raises none and shows the response |
| LegacySessions.StopEnabled | src/components/table/sessions.rs:42-46 | Stop is enabled exactly when the session grants "cancel:self" |
| LegacySessions.FilterSessions | src/components/table/sessions.rs:106-111 | the result keeps the sessions' order and holds each session on this target that belongs to this user as many times as it occurs, and no other session |
| LegacySessions.LoadOutcome | src/components/table/sessions.rs:113-133 | on failure the table is kept and one alert reads "Failed to load sessions: " and the error; on success no alert, the items are the user's sessions on the target, each as many times as the reply holds it, sorted by creation time, all shown, the first selected, the filter kept |
| LegacySessions.StopTarget | src/components/table/sessions.rs:135-142 | a session is to be stopped exactly when one is selected and the user may cancel it, and it is that selected session |
| LegacySessions.Step | src/components/table/sessions.rs:153-169 | an event the table uses gives the table's new state and no stop; otherwise Ctrl+D with Control alone is used and asks to stop StopTarget's session with the table unchanged; any other event is unused and changes nothing |
| LegacySessions.ShiftCtrlDIsNotStop | src/components/table/sessions.rs:160-163 | with the search box closed, Ctrl+Shift+D is neither a stop nor used |
| LegacySessions.SessionsPage.constructor | src/components/table/sessions.rs:50-104 | the page keeps its user, scope and target, has a table titled "Sessions", and holds LoadOutcome's table and alerts for the first reply |
| LegacySessions.SessionsPage.LoadSessions | src/components/table/sessions.rs:113-128 | the table and the alerts become LoadOutcome's for the reply; the title is kept |
| LegacySessions.SessionsPage.SetSessions | src/components/table/sessions.rs:130-133 | the table's items are replaced by the sessions sorted by creation time |
| LegacySessions.SessionsPage.StopSession | src/components/table/sessions.rs:135-151 | with nothing to stop nothing changes; a failed cancel keeps the table and the manager's tokens and raises one alert describing the error; a successful one drops the session's token and reloads as LoadOutcome says |
| LegacySessions.SessionsPage.HandleEvent | src/components/table/sessions.rs:153-169 | the answer is Step's; without a stop the table is Step's and nothing else changes; with one, the manager and the alerts change as in StopSession |
| LegacySessionManager.DescribeConnectionError | src/connection_manager.rs:7-17 | each connection error renders as its display text: the failed connection with target, port and cause, the missing connection's id, the state-update failure, and "Boundary error: " with the client's error |
| LegacySessionManager.ConnectionManager.constructor | src/connection_manager.rs:25-30 | a new manager has no tokens registered, none created and none cancelled, and keeps its invariant |
| LegacySessionManager.ConnectionManager.Connect | src/connection_manager.rs:32-55 | one fresh token is created per connect; the client's answer is passed through; on success the token is registered under the new session id, on failure nothing is registered; nothing is cancelled; the invariant (registered tokens distinct, live and uncancelled, none cancelled twice) is kept |
| LegacySessionManager.ConnectionManager.Stop | src/connection_manager.rs:57-71 | a failed remote cancel is returned as a boundary error and changes nothing; otherwise the stop succeeds, the id is forgotten, and the token registered under it, if any, is cancelled exactly once; the invariant is kept |
| LegacySessionManager.StopTwiceCancelsOnce | src/connection_manager.rs:57-71 | stopping a connection twice succeeds both times, cancels its token exactly once and leaves nothing registered |
| LegacySessionManager.FailedCancelKeepsToken | src/connection_manager.rs:61 | when the remote cancel fails the stop reports the boundary error and the token stays registered and uncancelled |
| LegacyApp.RouteOf | src/bountui.rs:103-114 | each page corresponds to the route it was built for: a scopes page to its parent, a targets page to its scope (a targets page without a scope was not built by a route), a sessions page to its scope and target |
| LegacyApp.App.constructor | src/bountui.rs:39-56 | the application starts unfinished on the root scopes page, which is the page for the router's only route, with no change pending |
| LegacyApp.App.PollRouterChange | src/bountui.rs:72-114 | with no pending route the page and the alerts are untouched; with one, a new page is built for exactly that route; afterwards nothing is pending and the page on screen matches the top of the history |
| LegacyApp.App.PageHandleEvent | src/bountui.rs:123-127 | the page on screen gets the event; it pushes at most one route, which is then pending and on top of the history; an event it does not use leaves nothing pending |
| LegacyApp.App.HandleEvent | src/bountui.rs:58-136 | any Ctrl+C finishes and changes nothing else; otherwise a shown alert takes the event and nothing else changes; otherwise the history stays, is popped by an unused Esc, or grows by one; the page on screen always matches the top of the history |
| SessionManager.Deadline | src/bountui/connection_manager.rs:58-70 | the expiry timer is armed exactly when the expiration is not in the past, and then fires at the expiration instant |
| SessionManager.ConnectStep | src/bountui/connection_manager.rs:37-102 | the client's reply is the result; a failure changes nothing; a success registers one new running task under the session id in both maps, with no handle stops yet, the deadline Deadline gives, and the earlier tasks untouched |
| SessionManager.Finish | src/bountui/connection_manager.rs:75-93 | the ending task records its cause and stops the handle once unless the connection ended by itself; its session leaves both maps; every other task is untouched |
| SessionManager.StopStep | src/bountui/connection_manager.rs:104-124 | with no join handle the stop fails with the missing-handle error and changes nothing; otherwise the handle is always taken out; a failed remote cancel is returned as a boundary error, and without an interleaved task end only the handle is gone; the missing-token error happens exactly when the task ended while the cancel was awaited; success happens exactly otherwise, and then the task ended by cancellation with one handle stop and the session left both maps |
| SessionManager.ConnectKeepsValid | src/bountui/connection_manager.rs:37-102 | connect keeps the registry invariant: each handle has its token beside it for the same task, each token belongs to a running task of its session, and each task has stopped its handle once if cancelled or expired and never otherwise |
| SessionManager.FinishKeepsValid | src/bountui/connection_manager.rs:75-93 | a running task's end keeps the registry invariant |
| SessionManager.StopKeepsValid | src/bountui/connection_manager.rs:104-124 | stop keeps the registry invariant, whatever the remote cancel answers and whether the task ends meanwhile |
| SessionManager.TaskEndKeepsValid | src/bountui/connection_manager.rs:75-93 | a task end the environment may choose (the connection ending, or expiry once the deadline is reached) keeps the registry invariant |
| SessionManager.HandleStoppedAtMostOnce | src/bountui/connection_manager.rs:75-88 | in every state satisfying the invariant a task has stopped its connection handle at most once, and a running one never |
| SessionManager.StopTwice | src/bountui/connection_manager.rs:108-113 | after a successful stop a second stop of the same id fails with the missing-handle error and changes nothing |
| SessionManager.StoppedTaskCannotEnd | src/bountui/connection_manager.rs:115-122 | once stopped, the task can no longer end by any cause at any later time, so its handle is not stopped again |
| SessionManager.FailedCancelOrphansToken | src/bountui/connection_manager.rs:108-114 | a failed remote cancel leaves the token registered and the task running but the handle gone, so a later stop of that id fails with the missing-handle error |
| SessionManager.PastExpirationNeverFires | src/bountui/connection_manager.rs:62-69 | a session whose expiration is already past never expires |
| SessionManager.ExpiryScenario | src/bountui/connection_manager.rs:176-201 | a ten-second session has not stopped its handle after five seconds and cannot expire then; after eleven it may expire, which stops the handle exactly once and unregisters the session |
| SessionManager.ManualStopScenario | src/bountui/connection_manager.rs:203-220 | an eight-hour session stopped after five seconds stops successfully, stops its handle exactly once and leaves both maps empty |
| SessionManager.ConnectionManager.constructor | src/bountui/connection_manager.rs:29-35 | a new manager has both maps empty and no tasks |
| SessionManager.ConnectionManager.Connect | src/bountui/connection_manager.rs:37-102 | the new registry and the result are ConnectStep's, and the invariant is kept |
| SessionManager.ConnectionManager.FinishTask | src/bountui/connection_manager.rs:89-93 | the new registry is Finish's for the task and cause |
| SessionManager.ConnectionManager.TaskEnds | src/bountui/connection_manager.rs:75-93 | a task end the environment may choose leaves Finish's registry and keeps the invariant |
| SessionManager.ConnectionManager.Stop | src/bountui/connection_manager.rs:104-124 | the new registry and the result are StopStep's, and the invariant is kept |
| Cli.ParseErrorResponse | src/boundary/client/cli/mod.rs:45-51 | stderr that decodes as the API's error body becomes an API error with its status code and message; otherwise the JSON error is returned |
| Cli.GetResultFromOutput | src/boundary/client/cli/mod.rs:53-70 | success only on exit status 0 with stdout decoding, and then it is the decoded value; status 0 with bad JSON is a JSON error; status 1 is an API error when stderr decodes and a JSON error otherwise; any other status, or none, is a CLI error carrying the status and stderr |
| Cli.OutputClassification | src/boundary/client/cli.rs:44-62 | the earlier client's classification agrees: success exactly on status 0 with decodable stdout, every CLI error keeps the status and stderr, and API errors only come from status 1 |
| Cli.ListCall | src/boundary/client/cli/mod.rs:73-109 | a command that cannot run is an I/O error; success needs status 0; then the listed items are the result, and absent items read as none; any other status is the classified error |
| Cli.ScopesArgs | src/boundary/client/cli/mod.rs:73-82 | the arguments are "scopes list -format json", then "-scope-id" and the parent when there is one, and "-recursive" last when asked, and nothing else |
| Cli.LegacyScopesArgs | src/boundary/client/cli.rs:64-69 | the earlier client's arguments are "scopes list -format json", then "-scope-id" and the parent exactly when there is one |
| Cli.TargetsArgs | src/boundary/client/cli/mod.rs:89-95 | the arguments are "targets list -format json", then "-scope-id" and the scope exactly when there is one |
| Cli.SessionsArgs | src/boundary/client/cli/mod.rs:102-103 | exactly "sessions list -scope-id", the scope id, "-format json" |
| Cli.CancelArgs | src/boundary/client/cli/mod.rs:188-189 | exactly "sessions cancel -id", the session id, "-format json" |
| Cli.ConnectArgs | src/boundary/client/cli/mod.rs:145-153 | the seven arguments "connect", "-target-id", the target, "-listen-port", a decimal text that parses back to the port, "-format", "json" |
| Cli.ConnectReply | src/boundary/client/cli/mod.rs:133-166 | a port that cannot be bound is an I/O error before anything else; then a failed spawn, and then a failed read, is an I/O error with that text; no first line is the CLI error "No response from boundary" with no code; a first line that does not decode is a JSON error; success holds exactly when bind, spawn and read succeed and the first line decodes, and is that decoding |
| Cli.LegacyConnectReply | src/boundary/client/cli.rs:93-124 | a failed spawn, and then a failed read, is an I/O error with that text; no first line is the CLI error "No response from boundary" with no code; a first line that does not decode is a JSON error; success holds exactly when spawn and read succeed and the first line decodes, and is that decoding |
| Cli.UserSessionsFirstError | src/boundary/client/cli/mod.rs:122-129 | collecting the per-scope replies fails exactly when one of them failed, and then with the first failure in scope order |
| Cli.UserSessionsBelongToUser | src/boundary/client/cli/mod.rs:125 | every collected session belongs to the user |
| Cli.UserSessionsCollectsAll | src/boundary/client/cli/mod.rs:125 | every session of the user in a successful reply is collected, so with UserSessionsBelongToUser the collection holds exactly the user's sessions |
| Cli.UserSessionsErrorSticks | src/boundary/client/cli/mod.rs:127 | once a prefix of the replies has failed, the whole collection fails with that error: the loop may return early |
| Cli.CollectUserSessions | src/boundary/client/cli/mod.rs:121-130 | the loop's result is the collection function's: the user's sessions from each reply concatenated in order, or the first failure |
| Cli.GetUserSessions | src/boundary/client/cli/mod.rs:111-131 | a failed scope listing is the result; otherwise one session list is taken for each scope that grants "list" on "sessions", in order, and collected as above |
| Client.FindTarget | src/boundary/client/mod.rs:51 | no target is found exactly when none has the id; a found target has the id and comes before every other target with it |
| Client.SessionsOf | src/boundary/client/mod.rs:49-54 | the sessions of the pairs, one for one and in order |
| Client.CombineSessionsWithTarget | src/boundary/client/mod.rs:49-54 | the pairs' sessions keep the sessions' order; a session appears as often as in the input when its target is listed and not at all otherwise; each is paired with the first target of its id |
| Client.GetSessionsWithTarget | src/boundary/client/mod.rs:56-70 | a failed target fetch is the result, then a failed session fetch; the result is a join exactly when both succeed, and then it is the join of the fetched sessions with the fetched targets |
| UserInputs.ReadUserInputs | src/bountui/remember_user_input.rs:20-36 | a missing file and an empty file read as no ports; a document reads as its ports; reading fails exactly for a file that cannot be read or does not parse |
| UserInputs.LocalPort | src/bountui/remember_user_input.rs:73-79 | fails exactly when reading fails; otherwise a port is known for the target exactly when the file stores one, and it is the stored port |
| UserInputs.Stored | src/bountui/remember_user_input.rs:66-71 | a file that cannot be read is not written and the store fails; a failed write is the result; a successful store leaves a document with the target's port set and every other port kept |
| UserInputs.StoreThenGet | src/bountui/remember_user_input.rs:66-79 | a stored port reads back, replacing an earlier one, and every other target's answer is unchanged |
| UserInputs.UnknownTargetHasNoPort | src/bountui/remember_user_input.rs:118-131 | a missing file, an empty file and a document without the target all answer no port |
| UserInputs.UserInputsPath.constructor | src/bountui/remember_user_input.rs:53-60 | the store refers to the given file |
| UserInputs.UserInputsPath.StoreLocalPort | src/bountui/remember_user_input.rs:66-71 | the file afterwards and the result are Stored's |
| UserInputs.UserInputsPath.GetLocalPort | src/bountui/remember_user_input.rs:73-79 | the answer is LocalPort's for the file |
| UserInputs.StoreOptional | src/bountui/remember_user_input.rs:86-92 | without a store, storing succeeds and does nothing; with one, it is that store's |
| UserInputs.GetOptional | src/bountui/remember_user_input.rs:94-100 | without a store no target has a port; with one, the answer is that store's |
| UserInputs.StoreTwoPortsScenario | src/bountui/remember_user_input.rs:141-151 | two ports stored one after the other into an empty file both read back |
| NavigationInput.FirstWithPrefix | src/bountui/components/navigation_input.rs:36-38 | nothing is found exactly when no option starts with the text; a found option starts with it and no earlier option does |
| NavigationInput.ComputeMatchingOption | src/bountui/components/navigation_input.rs:32-39 | empty text matches nothing; a match is one of the two options and starts with the text; non-empty text matches the first option it begins |
| NavigationInput.OptionsMatchThemselves | src/bountui/components/navigation_input.rs:64-68 | each option matches itself, so accepting a completion keeps it as the match |
| NavigationInput.Confirmation | src/bountui/components/navigation_input.rs:45-55 | "scope-tree" asks for the scope tree and "my-sessions" for the user's sessions, each exactly for that text; any other text sends nothing |
| NavigationInput.GhostSuffix | src/bountui/components/navigation_input.rs:83-88 | the grey completion is shown only for a match longer than the typed text, and it is the rest of the match after the typed length |
| NavigationInput.GhostSuffixCompletes | src/bountui/components/navigation_input.rs:81-88 | while the match differs from the typed text, the typed text followed by the grey completion spells the match |
| NavigationInput.NavigationInput.constructor | src/bountui/components/navigation_input.rs:24-30 | empty text, no match, nothing sent, and the cached match current |
| NavigationInput.NavigationInput.RecomputeMatchingOption | src/bountui/components/navigation_input.rs:41-43 | the cached match becomes the current text's; the text and the messages are kept |
| NavigationInput.NavigationInput.HandleConfirm | src/bountui/components/navigation_input.rs:45-55 | the text and the match are kept and exactly Confirmation's messages are sent |
| NavigationInput.NavigationInput.HandleEvent | src/bountui/components/navigation_input.rs:57-76 | Enter sends Confirmation's messages and edits nothing; Tab sends nothing and replaces the text by the cached match when there is one; any other event edits the text; the cached match stays current |
| NavigationInput.SCOMatchesScopeTree | src/bountui/components/navigation_input.rs:147 | "sco" matches "scope-tree" |
| NavigationInput.ScopeTreeScenario | src/bountui/components/navigation_input.rs:146-148 | typing "sco" and pressing Tab gives "scope-tree" |
| NavigationInput.MyMatchesMySessions | src/bountui/components/navigation_input.rs:148 | "my-" matches "my-sessions" and not "scope-tree" |
| NavigationInput.MySessionsScenario | src/bountui/components/navigation_input.rs:146-149 | typing "my-" and pressing Tab gives "my-sessions" |
| BountuiTargets.NewPage | src/bountui/components/table/target.rs:41-72 | the targets in a new table, with no dialog and no result shown |
| BountuiTargets.WithResult | src/bountui/components/table/target.rs:105-107 | the result is shown; the table and the dialog are untouched |
| BountuiTargets.ConnectRequest | src/bountui/components/table/target.rs:109-120 | without a selected target the page is unchanged and nothing is sent; with one, the dialog closes and one Connect message carries the target's id and the typed port |
| BountuiTargets.DialogStep | src/bountui/components/table/target.rs:133-144 | the table and the result are untouched; without a dialog nothing happens; a message is sent exactly when the dialog answers Ok with a target selected, and then the dialog closes and it is the Connect message; otherwise the dialog takes the event and closes on Cancel |
| BountuiTargets.ShortcutStep | src/bountui/components/table/target.rs:157-167 | the table and the result are untouched; 'c' opens a fresh dialog; any other key leaves the page; a message is sent exactly for 'C' with a selected target, asking for that target's sessions in its scope |
| BountuiTargets.Step | src/bountui/components/table/target.rs:131-169 | the table always sees the event; Enter closes a shown result; 'c' always ends with a fresh dialog, even when the dialog was open; with no dialog and no 'c' none is open; a Connect message with the typed port is sent and the dialog closed exactly on Ok with a selection; otherwise the dialog takes the event and closes on Cancel; 'C' with a selection asks for its sessions; nothing else is sent |
| BountuiTargets.TypingCResetsDialog | src/bountui/components/table/target.rs:133-168 | 'c' typed into the open dialog's port field ends with a fresh, empty dialog and nothing sent, while the table sees the 'c' as well |
| BountuiTargets.CancelClosesDialog | src/bountui/components/table/target.rs:133-155 | Enter on Cancel closes the dialog, sends nothing, and also closes a shown result |
| BountuiTargets.TargetsPage.constructor | src/bountui/components/table/target.rs:41-72 | a table titled "Targets" holding the targets, no dialog, no result, nothing sent |
| BountuiTargets.TargetsPage.OpenConnectDialog | src/bountui/components/table/target.rs:88-99 | a fresh connect dialog is open; the result and the messages are untouched |
| BountuiTargets.TargetsPage.ConnectToTarget | src/bountui/components/table/target.rs:109-120 | the new state and the messages sent are ConnectRequest's |
| BountuiTargets.TargetsPage.ShowSessions | src/bountui/components/table/target.rs:122-129 | the page is unchanged; with a selected target one message asks for its sessions in its scope, and otherwise none |
| BountuiTargets.TargetsPage.HandleEvent | src/bountui/components/table/target.rs:131-169 | the new state and the messages sent are Step's; the title is kept |
| BountuiTargets.TargetsPage.HandleMessage | src/bountui/components/table/target.rs:171-177 | the connection result is shown, as WithResult says, and nothing is sent |
| BountuiScopes.IsActionEnabled | src/bountui/components/table/scope.rs:124-129 | listing child scopes is enabled exactly when the scope grants "list" on "scopes", listing targets exactly when it grants "list" on "targets" |
| BountuiScopes.ChildrenMessages | src/bountui/components/table/scope.rs:74-84 | with no selection nothing is sent; a scope that lists child scopes asks for them; otherwise one that lists targets asks for those; nothing is sent exactly when neither is allowed; never more than one message |
| BountuiScopes.EnterMatchesEnabledActions | src/bountui/components/table/scope.rs:74-84 | Enter on a scope sends a message exactly when one of its two actions is enabled, and asks for child scopes whenever that action is enabled |
| BountuiScopes.Step | src/bountui/components/table/scope.rs:66-87 | the table always has the event; while its search box was open, or for any key but Enter, nothing is sent; otherwise Enter leaves the table and sends what the selected scope allows |
| BountuiScopes.SecondEnterNavigates | src/bountui/components/table/scope.rs:66-87 | Enter in the open search box only keeps the text as the filter and sends nothing; the next Enter sends what the then selected scope allows |
| BountuiScopes.ScopesPage.constructor | src/bountui/components/table/scope.rs:26-60 | a table titled "Scopes" holding the scopes, nothing sent |
| BountuiScopes.ScopesPage.HandleEvent | src/bountui/components/table/scope.rs:66-87 | the new table and the messages sent are Step's; the title is kept |
| BountuiSessions.IsActionEnabled | src/bountui/components/table/sessions.rs:67-85 | Quit and Back are always offered; Stop Session exactly when a session is selected that grants "cancel:self" |
| BountuiSessions.Title | src/bountui/components/table/sessions.rs:87-88 | "Sessions" without a parent name, "Sessions(" + name + ")" with one |
| BountuiSessions.NewPage | src/bountui/components/table/sessions.rs:87-94 | an empty table that is loading |
| BountuiSessions.StopRequest | src/bountui/components/table/sessions.rs:127-137 | nothing is sent exactly without a selection; with one, a single stop request for the selected session's id |
| BountuiSessions.Step | src/bountui/components/table/sessions.rs:143-154 | the table has the event; when it used it, or for anything but Ctrl+D with Control alone, nothing is sent; otherwise StopRequest's message for the row then selected; at most one message |
| BountuiSessions.CtrlShiftDIsNotStop | src/bountui/components/table/sessions.rs:148-149 | Ctrl+Shift+D sends nothing |
| BountuiSessions.Loaded | src/bountui/components/table/sessions.rs:156-163 | the loaded sessions replace the items and loading is over |
| BountuiSessions.FetchTargetSessions | src/bountui/components/table/sessions.rs:250-260 | a failed fetch passes through; otherwise the result keeps the reply's order and holds each of its sessions on the target as many times as it occurs there, and no other session |
| BountuiSessions.FetchOrShowError | src/bountui/components/table/sessions.rs:196-211 | a successful fetch yields its sessions and sends nothing; a failed one yields none and sends one "Error loading sessions" alert describing the error |
| BountuiSessions.UpdateSessions | src/bountui/components/table/sessions.rs:213-222 | exactly one message per fetch: the loaded sessions exactly when the fetch succeeded, otherwise an "Error" alert |
| BountuiSessions.UpdateThenDeliver | src/bountui/components/table/sessions.rs:156-222 | a successful fetch delivered to the page makes its items exactly the fetched sessions |
| BountuiSessions.SessionsPage.constructor | src/bountui/components/table/sessions.rs:29-125 | an empty loading table titled by Title, nothing sent |
| BountuiSessions.SessionsPage.StopSelected | src/bountui/components/table/sessions.rs:127-137 | the messages sent are StopRequest's; loading is kept |
| BountuiSessions.SessionsPage.HandleEvent | src/bountui/components/table/sessions.rs:143-154 | the new page state and the messages sent are Step's; the title is kept |
| BountuiSessions.SessionsPage.HandleMessage | src/bountui/components/table/sessions.rs:156-163 | the state becomes Loaded's and nothing is sent |
| ConnectionResult.IsActionEnabled | src/bountui/components/connection_result_dialog.rs:42-58 | Close is always offered; the copy actions exactly when a credential is selected |
| ConnectionResult.CopyKey | src/bountui/components/connection_result_dialog.rs:102-113 | 'u' copies the username and 'p' the password, each exactly when pressed with no modifier; nothing else copies |
| ConnectionResult.CopyFailed | src/bountui/components/connection_result_dialog.rs:123-129 | a "Clipboard Error" alert reading "Failed to copy username: " or "Failed to copy password: " followed by the error |
| ConnectionResult.Copy | src/bountui/components/connection_result_dialog.rs:118-150 | without a selection nothing is written or sent; with one, the selected credential's field is written, and exactly when the clipboard fails one CopyFailed alert is sent |
| ConnectionResult.Step | src/bountui/components/connection_result_dialog.rs:101-116 | the table always has the event; something is written exactly for a copy key with a credential selected before the event, and it is that credential's field; an alert is sent exactly when such a write fails, and it is the matching CopyFailed |
| ConnectionResult.ConnectionResultDialog.constructor | src/bountui/components/connection_result_dialog.rs:22-73 | a table titled "Credentials" holding the response's credentials; nothing written or sent |
| ConnectionResult.ConnectionResultDialog.CopySelected | src/bountui/components/connection_result_dialog.rs:118-150 | the clipboard writes and the messages grow by exactly Copy's |
| ConnectionResult.ConnectionResultDialog.HandleEvent | src/bountui/components/connection_result_dialog.rs:101-116 | the new table, the clipboard writes and the messages are Step's; the title is kept |
| BountuiApp.AfterNavigate | src/bountui/mod.rs:113-115 | the new page is shown, the old one is last in the history, and the alert is kept |
| BountuiApp.AfterGoBack | src/bountui/mod.rs:154-158 | with an empty history nothing changes; otherwise the last page of the history is shown and leaves it, and the alert is kept |
| BountuiApp.NavigateThenGoBack | src/bountui/mod.rs:113-158 | going back right after navigating restores the previous state exactly |
| BountuiApp.NavigationKeepsValid | src/bountui/mod.rs:113-158 | navigating and going back keep every page, shown or in the history, well formed |
| BountuiApp.PageStep | src/bountui/mod.rs:212-218 | the shown page has the event: a scopes page steps as its Step says, a targets page as its Step, a sessions page as its Step over plain sessions; the page stays well formed |
| BountuiApp.EventStep | src/bountui/mod.rs:199-219 | Esc goes back, sends nothing, and the page never sees it; any other event keeps the history, clears a shown alert on Enter, and is the page's step |
| BountuiApp.EscGoesBackEvenWhileSearching | src/bountui/mod.rs:201-206 | Esc on a scopes page whose search box is open still shows the previous page and sends nothing |
| BountuiApp.ShowScope | src/bountui/mod.rs:124-136 | the loaded scopes are shown on a new page, navigated to; a failure only sets the alert "Failed to load scopes" with the error's debug text |
| BountuiApp.ShowTargetsAsWritten | src/bountui/mod.rs:138-152 | the loaded targets are shown on a new page; a failure changes nothing and sends nothing, since the send is never awaited |
| BountuiApp.ShowTargets | src/bountui/mod.rs:138-152 | the loaded targets are shown on a new page; a failure changes nothing and sends one "Failed to load targets" error alert |
| BountuiApp.TargetsFailureUnreported | src/bountui/mod.rs:146-150 | for a failed targets load the code as written sends nothing, while the intended version sends the error alert |
| BountuiApp.ConnectMessagesAsWritten | src/bountui/mod.rs:160-176 | a connection's response goes to the targets page; a failure sends nothing, since the send is never awaited |
| BountuiApp.ConnectMessages | src/bountui/mod.rs:160-176 | exactly one message: the response for the targets page, or one "Connection Error" error alert |
| BountuiApp.ConnectFailureUnreported | src/bountui/mod.rs:170-174 | for a failed connection the code as written sends nothing, while the intended version sends the alert |
| BountuiApp.SessionsOfTarget | src/bountui/mod.rs:240-243 | the result keeps the order and holds each session on the target as many times as it occurs, and no other session |
| BountuiApp.ShowSessionsPage | src/bountui/mod.rs:231-250 | a new sessions page for the scope and target is navigated to, holding exactly the scope's sessions on the target, loaded |
| BountuiApp.ReloadAsWritten | src/bountui/mod.rs:95-111 | on a sessions page a successful reload puts every session of the scope on it; on any other page, or on failure, nothing changes |
| BountuiApp.Reload | src/bountui/mod.rs:95-111 | on a sessions page a successful reload puts the scope's sessions on the page's target on it; on any other page, or on failure, nothing changes |
| BountuiApp.ReloadKeepsTarget | src/bountui/mod.rs:95-111 | after the intended reload the page holds exactly the reply's sessions on its target |
| BountuiApp.ReloadShowsOtherTargets | src/bountui/mod.rs:102-104 | a session of another target in the scope appears on the page after the reload as written, and not after the intended one |
| BountuiApp.DeliverToTargets | src/bountui/mod.rs:260-264 | a targets page shows the connection result; any other page drops the message |
| BountuiApp.MessageStep | src/bountui/mod.rs:221-266 | each message does what the application declares: scopes and sessions pages are navigated to, a targets load as ShowTargets, going back, a connect through the manager with ConnectMessages, a stop through the manager followed by a reload only when it succeeded, alerts set and cleared, results for the targets page; only connect and stop touch the manager and only connect and targets send; the registry invariant and the pages' well-formedness are kept |
| BountuiApp.MessageStepAsWritten | src/bountui/mod.rs:221-266 | the step of `handle_message` as the code has it: a targets load as ShowTargetsAsWritten, a connect with ConnectMessagesAsWritten, a stop followed by ReloadAsWritten only when it succeeded, every other message as MessageStep; the registry invariant and the pages' well-formedness are kept |
| BountuiApp.AsWrittenAgreesWithoutFailures | src/bountui/mod.rs:221-266 | when the targets load and the connection succeed and a reload returns only sessions of the page's target, the code as written and as corrected take the same step |
| BountuiApp.AsWrittenDropsErrors | src/bountui/mod.rs:138-176 | a failed targets load or connection sends nothing as written and one message as corrected |
| BountuiApp.FailedStopIsSilent | src/bountui/mod.rs:117-122 | a stop whose remote cancel fails changes nothing on screen and sends nothing, though the handle has been taken out |
| BountuiApp.App.constructor | src/bountui/mod.rs:75-93 | the scopes page of the root scopes is shown, with no history, no alert and nothing sent |
| BountuiApp.App.NavigateTo | src/bountui/mod.rs:113-115 | the state becomes AfterNavigate's |
| BountuiApp.App.GoBack | src/bountui/mod.rs:154-158 | the state becomes AfterGoBack's |
| BountuiApp.App.HandleEvent | src/bountui/mod.rs:199-219 | the state and the messages sent are EventStep's, and the invariant is kept |
| BountuiApp.App.UpdateSessions | src/bountui/mod.rs:95-111 | the state becomes the intended Reload's and nothing is sent |
| BountuiApp.App.HandleMessage | src/bountui/mod.rs:221-266 | the state, the manager's registry and the messages sent are MessageStep's, and the invariant is kept |

## Left out

- Concurrency is not modelled.
  - Each `connect` and `stop` is one atomic step.
  - How a supervision task ends (cancelled, connection ended, or expired)
    is an event the environment chooses, given to `TaskEnds` or `Finish`.
  - Between the spawn and the insertion of the join handle, the task could
    finish first. That window is assumed away.
  - Lock poisoning and the `unwrap`s on mutex locks are not modelled.
- The `Drop` of the managers that cancels every token is not modelled.
- The oneshot `respond_to` reply of the connect message is not modelled.
  In `connect_to_target` its receiver is dropped at once.
- The sessions page's five-second refresh loop and `RunFuture` are not
  modelled. The model keeps the single reload it performs: `UpdateSessions`,
  `FetchOrShowError` and `FetchTargetSessions`.
- Channel sends are appends to an `outbox`. The application's `.await.unwrap()`
  on its own channel is taken to succeed.
- All process, terminal and file I/O is outside the model:
  - spawning `boundary`, which is a reply parameter;
  - the `TcpListener` port probe, which is a `Result<(), string>` bind outcome;
  - reading the first output line, which is a reply parameter;
  - reading and writing the user-inputs file, which is a `FileState`:
    missing, empty, a document of ports, malformed or unreadable.
- A failed write of the user-inputs file leaves the file as it was. A real
  truncated write could leave it partial.
- JSON decoding (serde_json) is a decoder function passed as a parameter.
  The user-inputs file is a document of target/port pairs.
- The clipboard (arboard) is outside the model, including `Clipboard::new`
  failing. Only the writes made and their result, a parameter, are modelled.
- Rendering is not modelled: every `view`/`render`, the widgets, and the
  layout arithmetic of the dialogs. The few rendering rules with logic are
  kept as functions: `AlertStack.Shown` and `NavigationInput.GhostSuffix`.
- Lower-casing for the case-insensitive search is ASCII only. Unicode
  `to_lowercase` is not modelled.
- The `Debug` text of an error is approximated by its display text
  (`BountuiApp.ShowScope`).
- tui_input editing is reduced to two keys: a character without Control is
  appended, and Backspace deletes the last character (`Events.EditText`).
  Cursor movement inside a field is not modelled.
- chrono dates are integer seconds.
- An expiration whose `to_std` conversion fails makes the timer wait
  forever. The model gives such a task no deadline
  (`SessionManager.Deadline`).
- The `unwrap`s and `expect`s that panic on reachable inputs are
  preconditions:
  - the earlier targets page's port parse (`LegacyTargets.ConnectRequest`);
  - the earlier scopes page's 's'/'t' on no selection (`LegacyScopes.Step`);
  - the port of the current targets page's connect (`BountuiTargets.ConnectRequest`);
  - the current application's unwrap of the sessions reply in the
    `Message::ShowSessions` arm of `handle_message` (`bountui/mod.rs`),
    a successful reply in `BountuiApp.ShowSessionsPage`;
  - the root scopes load at start-up, a successful reply in
    `BountuiApp.App.constructor`.
- The alert that `stop_session` returns in `bountui/mod.rs` is discarded by
  the source. The model discards it too.
- The session item returned by a successful `cancel_session` is ignored.
- Sorting.SortBy: stability is not stated. The contract says only that the
  result is sorted and a permutation of the input, so items equal under the
  comparison may come out in any order.
- `SortItems` is not applied by the current generation's table, and the
  model follows that: `BountuiTable` keeps the order it is given.
- `src/components/table/filter.rs` is not part of this model. The earlier
  table's filter is modelled from the way `components/table/mod.rs` uses it.
- `src/main.rs`, `cross_term.rs`, `appframework/`, `util/`,
  `command_runner.rs` and `mock.rs` are not modelled. Declaration-only
  files are used as datatypes only.
- BountuiApp.MessageStep: applies the corrections of the second, third and
  fourth findings (ShowTargets, ConnectMessages, Reload). The code as written
  is `BountuiApp.MessageStepAsWritten`; `AsWrittenAgreesWithoutFailures`
  says where the two agree.
- BountuiApp.App.HandleMessage: follows `MessageStep`, so it applies the same
  three corrections; the step as written is `MessageStepAsWritten`.
- BountuiApp.App.UpdateSessions: follows the corrected `Reload` of the fourth
  finding; the code as written is `ReloadAsWritten`.
- BountuiTable.Next: uses the guarded step of the first finding
  (`NextSelection`). As written, Down on an empty visible list with
  selection 0 underflows (`SelectNextUnderflow`). `AfterEventKeepsValid`
  holds for the corrected table.
- BountuiTable.TablePage.SelectNext: follows `Next`, so it uses the same
  guarded step.
- BountuiTable.AfterEvent: its own contract only says that no event changes
  the items. What each key does is stated by the lemmas beside it
  (`SlashOpensSearch`, `TypingFilters`, `EnterKeepsSearch`,
  `EscClearsFilter`, `EscWithoutFilter`, `SlashWhileSearching`, `UpDownMove`,
  `AfterEventKeepsValid`).
- LegacyApp.App.HandleEvent: the contract states the Ctrl+C and alert
  priority, and that the history stays, is popped or grows by one. It does
  not name the new page for each key. That follows from the page steps it
  calls, whose contracts are separate.

## Findings

| source | as written | input that shows it | evidently intended | confidence | as-written member | corrected member |
|---|---|---|---|---|---|---|
| src/bountui/components/table/mod.rs:114-120 | `select_next` tests `selected < len() - 1` on `usize`, and `reset_filter`/`update_filter` set the selection to `Some(0)` even when no row is visible | a search matching no item leaves an empty visible list with selection 0; Down then evaluates `0 - 1`, which panics in a debug build and wraps in a release build, moving the selection to 1, then 2 | Down moves only when there is a next row, as the earlier table's guard does | not executed | BountuiTable.SelectNextUnderflow | BountuiTable.NextSelection |
| src/bountui/mod.rs:146-150 | a failed targets load calls `self.send_message.send(...)` without `.await`, so the future is dropped and no alert is sent | `Message::ShowTargets` with a failing `get_targets` | the "Failed to load targets" alert is sent | not executed | BountuiApp.TargetsFailureUnreported | BountuiApp.ShowTargets |
| src/bountui/mod.rs:170-174 | a failed connect calls `self.send_message.send(...)` without `.await`, so the "Connection Error" alert is never sent | `Message::Connect` whose `connect` fails | the error alert is sent | not executed | BountuiApp.ConnectFailureUnreported | BountuiApp.ConnectMessages |
| src/bountui/mod.rs:95-111 | `update_sessions` reloads a target's sessions page with every session of the scope, although the `Message::ShowSessions` arm of `handle_message` (240-243) filled it with that target's sessions only; `set_sessions` (103), which the current `sessions.rs` does not define, is read with the earlier page's meaning, a plain `update_items` of the table (`src/components/table/sessions.rs:130-133`) | a sessions page for target A, and a stop that succeeds while the scope also holds a session of target B; that session then appears on A's page | the reload keeps the page to its own target | not executed | BountuiApp.ReloadShowsOtherTargets | BountuiApp.ReloadKeepsTarget |
