# flit-ui core logic in Dafny

This project models the sequential logic inside the flit-ui custom-element
toolkit and proves properties of it. The DOM, CSS and the reactive framework
are abstracted away. What is left is state held in classes and updated by
methods, plus pure functions over sequences, maps, strings and reals:

- the flex-like column-width solver of the grid, column drag-resizing, flex
  parsing and header ordering (`column_widths.dfy`, `grid.dfy`,
  `ordering.dfy`);
- the table's ordering state machine, its header icons and the
  rendered-range test (`table.dfy`);
- the router's prefix handling and its popup-path navigation state, with the
  `history` calls recorded as a log (`router.dfy`);
- the shared popup registry, the three-level option fallback and the
  show/hide life cycle of a popup binding, with timers as explicit steps
  (`popup.dfy`);
- the notification list and the unique notifier (`notification.dfy`);
- the menu's stack of opened submenus, selection and hover (`menu.dfy`);
- the message modal's button handling, list escaping and per-type defaults
  (`message.dfy`);
- the translations table (`translations.dfy`);
- the two sliders and the switch (`ranges.dfy`, `slider.dfy`,
  `lib_slider.dfy`, `switch.dfy`).

Numbers are `real`. Widths and slider values are never floats here, and a
division that would give `NaN` or an infinity is either a precondition or a
`None` result. Strings are `seq<char>`. `Option` lives in `wrappers.dfy`.

The column solver follows the code, not its doc comment. When an exclusion
happens, the code takes `minColumnWidth` off `totalBaseWidth` and the
column's flex off `totalExtendFlex`, even in a shrink pass. So with columns
of base widths 200, 50 and 50, flexes 1, client width 180 and minimum 40,
it returns 160, 40, 40 (sum 240), although the doc comment of
`columnWidthCalculator` (src/lib/grid.ts:471-476) says the total column
widths always equal the available client width; the corrected accounting
gives 100, 40, 40.
The solver is a specification function `ColumnWidths.Solve` with an `Accounting`
switch. `AsWritten` is the code and is what `ColumnWidths.ColumnWidthCalculator`
and the grid use. `Corrected` takes off the excluded column's base and the
flex it used. When every column can have its minimum, its widths are
proved to add up to the client width whenever it produces a result. It is
proved to produce one when, after the zero-total defaulting, every column
has a positive flex of each kind. With mixed zero and non-zero flexes it
can be left with columns in play and no flex to share among them, and then
produces none (`ColumnWidths.MixedShrinkStalls`).

## Model

| member | source | states |
|---|---|---|
| ColumnWidths.DefaultedFlexes | src/lib/grid.ts:496-504 | a flex kind totalling 0 becomes 1 in every column and then totals the column count; a kind with a non-zero total and every base width are left alone |
| ColumnWidths.PassFrom | src/lib/grid.ts:511-530 | one pass keeps one width slot per column |
| ColumnWidths.PassFromExcludes | src/lib/grid.ts:511-530 | one pass only adds exclusions, each of a column whose flex width fell below the minimum, and the flag says whether it added any |
| ColumnWidths.PassFromKeepsMinimum | src/lib/grid.ts:525-528 | slots at or above the minimum stay there through a pass, since only widths not below it are written |
| ColumnWidths.RemainingShrinks | src/lib/grid.ts:506-535 | a pass that excludes a new column strictly shrinks the set of columns still in play |
| ColumnWidths.Iterate | src/lib/grid.ts:506-535 | the outer loop, when it yields widths, yields one per column |
| ColumnWidths.IterateRespectsMinimum | src/lib/grid.ts:506-535 | the outer loop yields widths each at least the minimum when the slots started there |
| ColumnWidths.IterateUnfolds | src/lib/grid.ts:532-534 | one turn of the outer loop: a pass that excludes a column leads to another turn from the new totals, a quiet pass ends the loop with its widths |
| ColumnWidths.IterateIgnoresFlag | src/lib/grid.ts:507-510 | the loop resets `moreColumnExcluded` before each pass, so the flag it starts with does not matter |
| ColumnWidths.SolveKeepsColumnCount | src/lib/grid.ts:479-486 | the solver returns exactly one width per input column |
| ColumnWidths.TooNarrowSplitsEvenly | src/lib/grid.ts:479-481 | when the client width cannot give every column its minimum, every width is `clientWidth / n` |
| ColumnWidths.SolveRespectsMinimum | src/lib/grid.ts:486-529 | otherwise every returned width is at least `minColumnWidth` |
| ColumnWidths.PassCount | src/lib/grid.ts:506-535 | the number of passes is at most the number of columns in play plus one |
| ColumnWidths.AtMostOnePassPerColumn | src/lib/grid.ts:506-535 | the `while (true)` loop ends after at most n + 1 passes |
| ColumnWidths.ExclusionKeepsBalanced | src/lib/grid.ts:520-524 | with corrected accounting, one exclusion keeps the running totals equal to the sums over the columns in play |
| ColumnWidths.CorrectedPassStaysBalanced | src/lib/grid.ts:511-530 | a corrected pass keeps the running totals balanced |
| ColumnWidths.QuietPassWidths | src/lib/grid.ts:525-528 | a pass that excludes nothing gives each column in play its flex width and changes nothing else |
| ColumnWidths.CandidatesFillClientWidth | src/lib/grid.ts:507-518 | in a balanced state the flex widths of the columns in play add up to the current client width |
| ColumnWidths.SomeColumnSurvives | src/lib/grid.ts:520-526 | when every column can have its minimum, a pass never excludes all remaining columns |
| ColumnWidths.CorrectedIterateSums | src/lib/grid.ts:506-535 | a corrected run from a balanced state with a column in play, when it yields widths, yields widths adding up to the original client width; with a positive flex of each kind in every column it always yields widths |
| ColumnWidths.QuietPassSums | src/lib/grid.ts:511-530 | a pass that excludes nothing, from a balanced state, gives widths adding up to the original client width |
| ColumnWidths.QuietIterate | src/lib/grid.ts:532-534 | a pass that excludes nothing ends the outer loop with that pass's widths |
| ColumnWidths.WidthKeepsBalanced | src/lib/grid.ts:526-527 | writing the width of a column in play leaves the running totals balanced |
| ColumnWidths.InitialPassBalanced | src/lib/grid.ts:483-504 | the state before the first pass is balanced |
| ColumnWidths.InitialFlexPositive | src/lib/grid.ts:496-508 | with at least one column and no negative flex, the first pass divides by a positive flex total |
| ColumnWidths.CorrectedSumsToClientWidth | src/lib/grid.ts:471-476 | with corrected accounting, when every column can have its minimum, the widths add up to the client width whenever a result is produced, as the doc comment promises; a result is produced when every defaulted column has a positive flex of each kind |
| ColumnWidths.MixedShrinkFirstPass | src/lib/grid.ts:496-530 | on bases 100, 100, extend flexes 0, 0, shrink flexes 0, 1, client width 150 and minimum 60, the first pass keeps 100 for the first column and excludes the second under either accounting; the corrected totals leave no shrink flex |
| ColumnWidths.MixedShrinkStalls | src/lib/grid.ts:506-535 | on that input the corrected run yields no widths, and the code's accounting gives 100, 60 (sum 160 against 150) |
| ColumnWidths.QuietFirstPassSums | src/lib/grid.ts:506-530 | with the code's own accounting, when the first pass excludes nothing, the widths add up to the client width |
| ColumnWidths.OvershootAsWrittenRun | src/lib/grid.ts:506-535 | the code's passes on bases 200, 50, 50, flexes 1, client width 180 and minimum 40 end at 160, 40, 40 |
| ColumnWidths.OvershootCorrectedRun | src/lib/grid.ts:506-535 | with corrected accounting the same input ends at 100, 40, 40 |
| ColumnWidths.AsWrittenOvershoots | src/lib/grid.ts:520-524 | for bases 200, 50, 50, flexes 1, client width 180 and minimum 40 the code gives 160, 40, 40 (sum 240); the corrected accounting gives 100, 40, 40 (sum 180) |
| ColumnWidths.SumColumns | src/lib/grid.ts:488-492 | the loop returns the totals of base widths, extend flexes and shrink flexes |
| ColumnWidths.SetExtendFlexesToOne | src/lib/grid.ts:496-499 | every entry's extend flex is set to 1 in place, nothing else changes |
| ColumnWidths.SetShrinkFlexesToOne | src/lib/grid.ts:501-504 | every entry's shrink flex is set to 1 in place, nothing else changes |
| ColumnWidths.RunPass | src/lib/grid.ts:511-530 | the array loop of one pass computes exactly the pass `PassFrom` describes |
| ColumnWidths.AnyInPlay | src/lib/grid.ts:512-514 | the scan reports a column as in play exactly when some index is not in the excluded set |
| ColumnWidths.Turn | src/lib/grid.ts:506-535 | one turn of the loop over arrays either ends with the result `Iterate` gives from the current totals, or excludes more columns and keeps that result unchanged |
| ColumnWidths.DistributeWidths | src/lib/grid.ts:506-537 | the outer loop over arrays returns what `Iterate` yields from the initial totals |
| ColumnWidths.DefaultFlexes | src/lib/grid.ts:496-504 | the caller's entries are rewritten to their defaulted flexes and the totals become the column count where they were 0 |
| ColumnWidths.ColumnWidthCalculator | src/lib/grid.ts:477-538 | the result is the solver's; the input entries are defaulted in place unless the client width is too narrow |
| Ordering.FirstDirection | src/lib/grid.ts:339-341 | a newly clicked column starts 'desc' with `descFirst` and 'asc' otherwise, never '' |
| Ordering.NextDirection | src/lib/grid.ts:331-338 | re-clicking the ordered column moves '' → asc → desc → '' (or '' → desc → asc → '' with `descFirst`) |
| Ordering.ThreeClicksRestore | src/lib/grid.ts:331-338 | three clicks on the ordered column restore its direction |
| Ordering.CycleVisitsEveryDirection | src/lib/grid.ts:331-338 | the three states of the cycle are pairwise different |
| Ordering.OrderIcon | src/lib/grid.ts:273-284 | 'order-asc' or 'order-desc' exactly for the ordered column with that direction, 'order-default' otherwise |
| Grid.FlexEntry | src/lib/grid.ts:365-383 | a parsed column has non-negative flexes and a base of its width, at least the minimum, or its resized width |
| Grid.FlexEntries | src/lib/grid.ts:365-383 | one entry per column, in column order |
| Grid.FlexEntriesNonNegative | src/lib/grid.ts:365-383 | no parsed flex is negative |
| Grid.ShiftFrom | src/lib/grid.ts:440-451 | the shrink loop keeps one width per column |
| Grid.ShiftKeepsSum | src/lib/grid.ts:440-451 | the loop moves width between columns: the sum is unchanged |
| Grid.ShiftIsLocal | src/lib/grid.ts:440-451 | only the columns ahead of the loop and the expanding column change |
| Grid.ShiftRespectsMinimum | src/lib/grid.ts:440-451 | shrunk columns that started at or above the minimum stay there, and the expanding column gains between 0 and the amount asked for |
| Grid.ResizeMovesWidth | src/lib/grid.ts:428-455 | a resize keeps the sum of widths, changes only the shrink side and the expanding column, keeps shrunk columns at or above the minimum, and moves at most `abs(movementX)` |
| Grid.ZeroMovementKeepsWidths | src/lib/grid.ts:428-455 | a movement of 0 changes no width |
| Grid.ShiftInPlace | src/lib/grid.ts:440-451 | the loop on the copied array leaves exactly the widths `ShiftFrom` gives |
| Grid.Grid.constructor | src/lib/grid.ts:175-182 | minimum column width 64, no ordered column, direction '', no resizing |
| Grid.Grid.GetOrderIcon | src/lib/grid.ts:273-284 | the header icon of column `index`, non-default only for the ordered column |
| Grid.Grid.DoOrdering | src/lib/grid.ts:318-358 | a click on a resizer or on a column without `orderBy` changes nothing; otherwise the ordered column and its direction follow the cycle and the store order is updated |
| Grid.Grid.UpdateColumnWidths | src/lib/grid.ts:362-388 | the stored widths are the solver's result on the parsed columns |
| Grid.Grid.ResizeColumnByMovementX | src/lib/grid.ts:428-455 | the in-place array loop leaves the resizing widths equal to what `ShiftFrom` gives |
| Grid.Grid.EndResize | src/lib/grid.ts:408-418 | mouseup commits the resizing widths, resizes once more by 0 and marks the columns as resized |
| Table.FindColumn | src/components/table.ts:534 | the index of the first column with that name, or none when no column has it |
| Table.Applied | src/components/table.ts:557-567 | the store orders by the column's key only when it has one and the direction is not ''; it is synced and `orderChange` emitted once |
| Table.FoundCount | src/components/table.ts:538-543 | the number of waiting orders whose column now exists |
| Table.Replayed | src/components/table.ts:538-543 | each waiting `setOrder` callback runs once when the columns change and applies its order only if its column is now there |
| Table.OrderDirectionIcon | src/components/table.ts:451-462 | 'order-asc'/'order-desc' only for the ordered column with that direction, 'order-default' otherwise |
| Table.RenderedItem | src/components/table.ts:673-686 | null exactly when the index is outside `[startIndex, endIndex)`, else the item at that index |
| Table.Table.constructor | src/components/table.ts:276-280 | no ordered column and direction '' |
| Table.Table.GetOrderDirectionIcon | src/components/table.ts:451-462 | the icon for the column named `name` under the current order |
| Table.Table.ApplyOrder | src/components/table.ts:557-567 | the store receives the column's order or null, then a sync and an `orderChange` event |
| Table.Table.SetOrder | src/components/table.ts:530-546 | the order name and direction are set; the order is applied now if a column has that name, else deferred until the columns change |
| Table.Table.SetColumns | src/components/table.ts:538-543 | the deferred callbacks run once each against the new columns |
| Table.Table.ClearOrder | src/components/table.ts:549-554 | no ordered column, direction '', store order null and synced |
| Table.Table.DoOrdering | src/components/table.ts:465-497 | a click on a resizer or a column without `orderBy` changes nothing; a new column starts asc/desc by `descFirst`; the ordered column follows the cycle |
| Table.ClickOrdersByClickedColumn | src/components/table.ts:465-497 | a click on an orderable column tells the store that column's key with the new direction, or no order when the direction went back to '' |
| Router.UnPrefixed | src/components/router.ts:87-97 | the prefix is stripped only when the path starts with it, and an empty result becomes '/' |
| Router.UriFromPath | src/components/router.ts:250-260 | '' becomes '/', then the prefix goes in front |
| Router.PathRoundTrip | src/components/router.ts:87-97 | unprefixing the URI of a non-empty path gives the path back, and '/' for '' |
| Router.UriRoundTrip | src/components/router.ts:250-260 | a URI under the prefix with something after it is rebuilt from its router path |
| Router.PopStack | src/components/router.ts:240-247 | a positive stack count gives one `history.go(-count)`, otherwise no call |
| Router.Router.constructor | src/components/router.ts:58-74 | path '', no popup path, count 0, nothing in the history log |
| Router.Router.ClearPopupStack | src/components/router.ts:240-247 | pops the stacked popup states, forgets the popup path and resets the count to 0 |
| Router.Router.Goto | src/components/router.ts:183-206 | to the current path nothing changes; otherwise path and state become the target, a popup path bumps the count and keeps the normal path, a normal path clears the popup stack, a push and the two events are logged, and the state is consistent afterwards (a consistent state stays so either way) |
| Router.Router.RedirectTo | src/components/router.ts:212-234 | like `Goto` but replacing the history state, and a popup path does not bump the count |
| Router.Router.OnWindowStateChange | src/components/router.ts:103-111 | without a state nothing changes; on a popped state, leaving a popup state decrements the count, then the router redirects with that count: to the current path only the count changes, otherwise path, state, events, popup and normal paths, count and the logged replace (after a go-back over the remaining stack for a normal path) are those of a redirect; consistency is kept |
| Popup.GetOption | src/bindings/popup.ts:213-226 | the binding's option, else the popup's `defaultPopupOptions`, else `DefaultPopupOptions` |
| Popup.EveryOptionButKeyHasValue | src/bindings/popup.ts:86-100 | every option except the key has a default value |
| Popup.MappedTrigger | src/bindings/popup.ts:277-286 | 'hover' becomes 'click' exactly when the device has no mouse-like input; other triggers are unchanged |
| Popup.LastUnlocked | src/bindings/popup.ts:110-133 | a found entry's popup is not locked |
| Popup.LastUnlockedIsLast | src/bindings/popup.ts:110-133 | nothing is found exactly when every popup is locked; otherwise the entry found is followed only by locked popups |
| Popup.Without | src/bindings/popup.ts:147-153 | filtering never adds entries |
| Popup.WithoutFilters | src/bindings/popup.ts:147-153 | an entry survives filtering exactly when it belongs to another popup |
| Popup.WithoutKeepsOrder | src/bindings/popup.ts:147-153 | filtering distributes over concatenation |
| Popup.WithoutAbsent | src/bindings/popup.ts:147-153 | with no entry of that popup, filtering changes nothing |
| Popup.SharedPopups.constructor | src/bindings/popup.ts:104-107 | the shared popup cache and the in-use map start empty |
| Popup.SharedPopups.Reusable | src/bindings/popup.ts:110-133 | the reusable entry of a key, none for an unknown key |
| Popup.SharedPopups.GetSharedPopupCache | src/bindings/popup.ts:110-133 | the backward scan returns the last unlocked entry of the key, or null |
| Popup.SharedPopups.AddSharedPopupCache | src/bindings/popup.ts:136-144 | the entry is appended to the key's list, which is created if absent; other keys are untouched |
| Popup.SharedPopups.DeleteSharedPopupCache | src/bindings/popup.ts:147-153 | exactly that popup's entries leave the key's list, the rest keep their order |
| Popup.SharedPopups.IsSharedPopupKeyInUse | src/bindings/popup.ts:156-159 | true iff a reusable entry exists and its popup is in the in-use map |
| Popup.DeletedPopupIsNotReused | src/bindings/popup.ts:147-153 | after deleting a popup, the key's reusable entry is never that popup |
| Popup.LastAddedIsReused | src/bindings/popup.ts:110-144 | the entry added last is the one reused when its popup is not locked |
| Popup.ShowDelayFor | src/bindings/popup.ts:345-356 | the delay is 0 for click and focus triggers or when the key is in use, else the configured delay |
| Popup.PopupBinding.constructor | src/bindings/popup.ts:175-210 | not about to open, not opened, no timers, no popup |
| Popup.PopupBinding.ShowPopup | src/bindings/popup.ts:416-419 | sets `willOpen` and queues an update |
| Popup.PopupBinding.ShowPopupLater | src/bindings/popup.ts:339-374 | a no-op when already about to open; otherwise sets `willOpen` and shows at once or starts the show timer with the computed delay |
| Popup.PopupBinding.ShowTimeoutFires | src/bindings/popup.ts:360-366 | the timer clears itself and shows only if the opening was not cancelled |
| Popup.PopupBinding.CancelShowingPopup | src/bindings/popup.ts:409-413 | gives up opening and cancels the show timer |
| Popup.PopupBinding.Clean | src/bindings/popup.ts:552-567 | only when opened: not about to open, closed, popup forgotten |
| Popup.PopupBinding.HidePopupLater | src/bindings/popup.ts:695-711 | a no-op when not opened; otherwise starts the hide timer and gives up opening |
| Popup.PopupBinding.HidePopup | src/bindings/popup.ts:714-731 | `Released`: with a non-empty key, the popup leaves the shared cache and the in-use map, which are untouched otherwise; then the binding is cleaned |
| Popup.PopupBinding.HideTimeoutFires | src/bindings/popup.ts:701-707 | the timer clears itself; if still opened, the popup is hidden exactly as `hidePopup` does (released from the shared registry under a non-empty key, `false` appended to the opened changes); the options, the show timer and the queued update stay |
| Popup.PopupBinding.TogglePopupOpened | src/bindings/popup.ts:327-336 | an opened popup is hidden as `hidePopup` does (registry release, `false` appended to the opened changes); a closed one is marked to open with its update queued and the registry untouched; the options and both timers stay |
| Notifications.FindItem | src/components/notification.ts:218 | the index of the first item with that id, or none when no item has it |
| Notifications.FindAfterUpdate | src/components/notification.ts:218-222 | replacing the first item with an id by an item with the same id keeps it the first |
| Notifications.Merged | src/components/notification.ts:220-221 | the given options replace the item's fields, an absent hide delay is dropped, id, hover and timer are kept |
| Notifications.Created | src/components/notification.ts:227-231 | a new item numbered by the seed unless the options carry an id, not hovered, with no timer, carrying the options |
| Notifications.DelayFor | src/components/notification.ts:254 | the item's hide delay unless absent or 0, else the list's |
| Notifications.Rescheduled | src/components/notification.ts:243-255 | the item's timer restarts with that delay; nothing else changes |
| Notifications.RemovedAt | src/components/notification.ts:200-202 | the list without the item at that index, the others in order |
| Notifications.HiddenIdIsGone | src/components/notification.ts:257-266 | with unique ids, removing the found item leaves no item with that id |
| Notifications.NotificationTips.constructor | src/components/notification.ts:152-156 | hide delay 5000, seed 1, no items |
| Notifications.AfterShow | src/components/notification.ts:216-240 | the id returned is the options' id when given, else the seed; the seed moves on and the list grows by one exactly when no shown item has the options' non-zero id, and otherwise both stay |
| Notifications.AfterShowCarriesOptions | src/components/notification.ts:216-240 | the item a call reports is shown and carries the type, title and content the options give |
| Notifications.AfterShowKeepsOthers | src/components/notification.ts:216-240 | every shown item with another id is still shown, unchanged |
| Notifications.NotificationTips.ShowNotification | src/components/notification.ts:216-240 | the list, seed and returned id are those of `AfterShow`, the reported item is shown, and unique ids stay unique |
| Notifications.NotificationTips.Hide | src/components/notification.ts:257-266 | true and exactly that item removed iff the id is shown; false and nothing changed otherwise |
| Notifications.NotificationTips.HideAll | src/components/notification.ts:268-274 | no items are left |
| Notifications.NotificationTips.OnClickClose | src/components/notification.ts:200-202 | the closed item is removed, the others keep their order |
| Notifications.NotificationTips.OnMouseEnter | src/components/notification.ts:188-190 | the item is marked hovered, nothing else changes |
| Notifications.NotificationTips.OnMouseLeave | src/components/notification.ts:192-198 | the item is no longer hovered, and its timer restarts if none is pending |
| Notifications.NotificationTips.HideTimeoutFires | src/components/notification.ts:249-253 | the timer clears itself, and the item is hidden unless hovered |
| Notifications.NotificationTips.StaleHideTimeoutFires | src/components/notification.ts:249-253 | a timer whose item was closed or hidden still hides, unless that item was hovered, the first item now carrying its id |
| Notifications.StaleTimerHidesNewItem | src/components/notification.ts:200-266 | showing id 7, closing it and showing id 7 again leaves the new item exposed to the first timer, which hides it |
| Notifications.Notification.constructor | src/components/notification.ts:278-280 | a notifier over a given list |
| Notifications.Notification.Typed | src/components/notification.ts:294-313 | the options with the type and content set, all else as given |
| Notifications.Notification.ShowNotification | src/components/notification.ts:286-292 | the list, seed and id are those of `AfterShow` for the options, and the reported item is shown |
| Notifications.Notification.Info | src/components/notification.ts:294-299 | the list, seed and id are those of `AfterShow` for the options typed 'info' with that content, and the reported item has that type and content |
| Notifications.Notification.Alert | src/components/notification.ts:301-306 | the list, seed and id are those of `AfterShow` for the options typed 'alert' with that content, and the reported item has that type and content |
| Notifications.Notification.Success | src/components/notification.ts:308-313 | the list, seed and id are those of `AfterShow` for the options typed 'success' with that content, and the reported item has that type and content |
| Notifications.Notification.ShowTyped | src/components/notification.ts:294-313 | the list, seed and id are those of `AfterShow` for the typed options, and the reported item has the type and content |
| Notifications.UniqueNotification.constructor | src/components/notification.ts:319-324 | a unique notifier starts with no id |
| Notifications.UniqueNotification.Overwritten | src/components/notification.ts:326-330 | a stored non-zero id replaces the options' id; otherwise the options are unchanged |
| Notifications.UniqueNotification.ShowNotification | src/components/notification.ts:326-335 | the list, seed and id are those of `AfterShow` for the options with the stored non-zero id; the id returned is stored and is the stored one when there was one, so an item closed meanwhile comes back under that id |
| Notifications.UniqueNotification.Info | src/components/notification.ts:337-340 | the list, seed and id are those of `AfterShow` for the options with the stored id, typed 'info' with that content; the reported item has that type and content, and the stored id does not change |
| Notifications.UniqueNotification.Alert | src/components/notification.ts:342-345 | the list, seed and id are those of `AfterShow` for the options with the stored id, typed 'alert' with that content; the reported item has that type and content, and the stored id does not change |
| Notifications.UniqueNotification.Success | src/components/notification.ts:347-350 | the list, seed and id are those of `AfterShow` for the options with the stored id, typed 'success' with that content; the reported item has that type and content, and the stored id does not change |
| Notifications.UniqueNotification.InfoReusingId | src/components/notification.ts:332-340 | `info` whose list, seed and id are those of `AfterShow` for the typed options with the stored id, and which stores the returned id, so later calls update the same notification |
| Notifications.UniqueInfoTwiceShowsTwo | src/components/notification.ts:337-340 | two `info` calls of a fresh unique notifier show two notifications |
| Notifications.UniqueInfoTwiceReusing | src/components/notification.ts:332-340 | with the id stored, the second call updates the first notification, so one is shown |
| Menus.Chain | src/components/menu.ts:118-124 | the chain has one submenu per depth, starts at a top-level submenu, ends with `s`, and each entry is the parent of the next |
| Menus.ChainIsDistinct | src/components/menu.ts:118-124 | a chain never repeats a submenu |
| Menus.IndexOf | src/components/menu.ts:147 | the first index of the submenu in the list, or none when absent |
| Menus.HideLayer | src/components/menu.ts:146-155 | when listed at i, every entry from i on is hidden and the list keeps its first i entries; when absent, nothing changes |
| Menus.HideLayerKeepsValid | src/components/menu.ts:146-155 | hiding keeps the list free of repeats and made of opened submenus |
| Menus.HideSiblingsShrinks | src/components/menu.ts:106-112 | hiding siblings' layers only shortens the list to a prefix |
| Menus.HideSiblingLayers | src/components/menu.ts:106-112 | the loop over the items hides each sibling's opened submenu layer, keeping the list valid and a prefix of what it was |
| Menus.SiblingSubMenusHidden | src/components/menu.ts:106-112 | after the intended loop, no sibling's submenu is still listed |
| Menus.HoverCandidate | src/components/menu.ts:255-270 | none exactly for no items; an item with an opened submenu if there is one, else a selected one if there is one, else the first item |
| Menus.HoverCandidateIsFirst | src/components/menu.ts:255-266 | the candidate is the first child with an opened submenu, and when there is none, no selected child precedes it |
| Menus.FirstWhere | src/components/menu.ts:256-266 | an element satisfying the test, or none exactly when no element does |
| Menus.FirstWhereIsFirst | src/components/menu.ts:256-266 | the element found has no element satisfying the test before it |
| Menus.Menu.constructor | src/components/menu.ts:40-42 | nothing selected, hovered or opened |
| Menus.Menu.CreateSubMenu | src/components/menu.ts:495-514 | a submenu's depth is its parent's plus one, 1 in the top menu, and its parent is recorded; items, layers, selection, hover and select events stay |
| Menus.Menu.HideSubMenuLayer | src/components/menu.ts:146-155 | the list becomes `HideLayer` of it and validity is kept |
| Menus.Menu.HideAllSubMenuLayers | src/components/menu.ts:139-144 | every listed submenu is hidden and the list is empty |
| Menus.Menu.OnSubMenuOpened | src/components/menu.ts:116-137 | the list becomes the chain of `s`; previously listed submenus outside the chain are hidden, shared ones stay |
| Menus.Menu.KeptOpen | src/components/menu.ts:126-130 | the opened set loses exactly the listed submenus outside the chain |
| Menus.Menu.ChainOf | src/components/menu.ts:118-124 | the `while` loop builds the chain of `s` |
| Menus.Menu.SetHoverItemAsWritten | src/components/menu.ts:97-114 | the hover flag moves to the item and no submenu layer is hidden |
| Menus.Menu.SetHoverItem | src/components/menu.ts:97-114 | the hover flag moves to the item, at most one item is hovered, and the opened submenus of the item's siblings are hidden |
| Menus.Menu.SelectItem | src/components/menu.ts:77-89 | on a selectable menu the selection moves to the item, at most one is selected and a `select` event is logged; the item is hovered either way |
| Menus.Menu.HoverOneItem | src/components/menu.ts:255-270 | hovers the candidate item, nothing when the menu has no items; items, selection, submenu parents and depths, and select events stay |
| Menus.SiblingLayerStaysOpen | src/components/menu.ts:109 | as written, hovering item 0 leaves sibling item 1's submenu 5 listed as opened |
| Menus.SiblingLayerCloses | src/components/menu.ts:97-114 | with the intended test, the same hover hides submenu 5 |
| Messages.EscapeRemovesTags | src/components/message.ts:226 | the result has no '<'; a string without '<' is left alone |
| Messages.EscapeAppend | src/components/message.ts:226 | escaping distributes over concatenation |
| Messages.EscapeLength | src/components/message.ts:226 | escaping never shortens, and grows a string holding '<' by at least three |
| Messages.ItemHtml | src/components/message.ts:226 | each item is one `<div>` … `</div>` |
| Messages.ItemsHtmlAppend | src/components/message.ts:224-227 | the items' HTML distributes over concatenation of lists |
| Messages.ItemsHtmlOfOne | src/components/message.ts:224-227 | a one-item list is one div around the escaped item, which holds no '<' |
| Messages.ContentWithList | src/components/message.ts:223-228 | without a list the content is unchanged; with one the content (or '') stays a prefix, followed by the opening wrapper div of the list class, the items' HTML and a closing `</div>` |
| Messages.ItemsHtmlTags | src/components/message.ts:226 | the HTML of n items holds exactly 2n tags, whatever their text |
| Messages.ContentWithListTags | src/components/message.ts:223-228 | a list adds exactly two tags for its wrapper and two per item to the content's own |
| Messages.PromptValue | src/components/message.ts:203-206 | the value is the input exactly for 'ok' with a non-empty input, else '' |
| Messages.MessageModal.constructor | src/components/message.ts:115-118 | no message, empty stack, untouched, no error text, hidden |
| Messages.MessageModal.ShowMessage | src/components/message.ts:221-244 | the options are shown with their list appended, the error text is cleared |
| Messages.MessageModal.OnClickButton | src/components/message.ts:188-219 | a prompt 'ok' with an input and a failing validator sets the error text and stops; otherwise a prompt resolves `[btn, value]` and resets the touched flag, other messages resolve the button, and the next stacked message is shown with a cleared error text or the modal hides; the touched flag of a non-prompt and the error text outside validation stay |
| Messages.MessageModal.SetInputValue | src/components/message.ts:154-159 | typing into the prompt's input sets `options.inputValue` and nothing else |
| Messages.Assigned | src/components/message.ts:272-315 | each of type, title, content, buttons, list, wide and input value is the caller's when given and the default's otherwise; a caller's validator is kept |
| Messages.Defaults | src/components/message.ts:272-315 | info/success/alert get an 'ok' button, confirm/prompt 'cancel' then 'ok', a prompt also an empty input |
| Messages.PromptDefaults | src/components/message.ts:308-315 | a prompt the caller does not override has both buttons and an empty input |
| Messages.Message.constructor | src/components/message.ts:252-257 | labels OK, Cancel, Yes, No |
| Messages.Message.SetLabels | src/components/message.ts:267-269 | new labels replace old ones with the same key, the others stay |
| Messages.Message.Show | src/components/message.ts:272-315 | the modal shows the kind's defaults under the caller's options, with its stack, resolutions and touched flag unchanged and its error text cleared |
| Messages.Message.Info | src/components/message.ts:272-279 | shows an info message with an 'ok' button unless overridden; the modal is shown with its stack, resolutions and touched flag unchanged and its error text cleared |
| Messages.Message.Success | src/components/message.ts:281-288 | shows a success message with an 'ok' button unless overridden; the modal is shown with its stack, resolutions and touched flag unchanged and its error text cleared |
| Messages.Message.Alert | src/components/message.ts:290-297 | shows an alert message with an 'ok' button unless overridden; the modal is shown with its stack, resolutions and touched flag unchanged and its error text cleared |
| Messages.Message.Confirm | src/components/message.ts:299-306 | shows a confirm message with 'cancel' and 'ok' buttons unless overridden; the modal is shown with its stack, resolutions and touched flag unchanged and its error text cleared |
| Messages.Message.Prompt | src/components/message.ts:308-315 | shows a prompt with both buttons and an empty input unless overridden; the modal is shown with its stack, resolutions and touched flag unchanged and its error text cleared |
| Translations.SeparatorAt | src/translations/translations.ts:50 | the first index of "@@" at or after a position, or none |
| Translations.SplitKey | src/translations/translations.ts:50 | the text before the first "@@", and the id up to the next "@@"; no id without "@@" |
| Translations.SplitOfJoined | src/translations/translations.ts:50 | splitting `text@@id` gives back `text` and `id` |
| Translations.ClosingQuote | src/translations/translations.ts:72 | the first quote after at least one character with no line break before it |
| Translations.BoldOfPlain | src/translations/translations.ts:72 | a string without quotes is unchanged |
| Translations.BoldOfQuoted | src/translations/translations.ts:72 | `"text"` becomes `<b>text</b>` |
| Translations.BoldKeepsPlainPrefix | src/translations/translations.ts:72 | text before the first quote is kept as it is |
| Translations.Translations.constructor | src/translations/translations.ts:7-8 | language 'en-us' with an empty 'en-us' dictionary |
| Translations.Translations.SetLanguage | src/translations/translations.ts:16-19 | the language changes, the dictionaries do not |
| Translations.Translations.Add | src/translations/translations.ts:22-29 | pieces merge into the language's dictionary, created if missing, later keys winning |
| Translations.Translations.Current | src/translations/translations.ts:33-37 | the current language's dictionary, or 'en-us' when it has none |
| Translations.Translations.Get | src/translations/translations.ts:32-46 | the current dictionary's entry for the key, if any |
| Translations.Translations.Translate | src/translations/translations.ts:49-67 | '' without an id, the id's non-empty entry, else the default text |
| Translations.Translations.TranslateQuoteToBold | src/translations/translations.ts:70-73 | a translation without quotes is returned unchanged |
| Translations.TranslateJoined | src/translations/translations.ts:49-60 | `translate("text@@id")` is the id's non-empty entry, else `text` |
| Translations.Global | src/translations/translations.ts:78-87 | the global table answers ok, cancel, yes and no in 'en-us' |
| Translations.AddThenGet | src/translations/translations.ts:22-46 | after adding pieces for the current language, `get` finds each of them |
| Ranges.Constrain | src/components/slider.ts:200 | the value pulled into [lo, hi], unchanged when inside |
| Ranges.Percent | src/components/slider.ts:194-201 | within [0, 100], and 0 when the value is the minimum |
| Ranges.PercentOfRange | src/components/slider.ts:194-201 | over a proper range the share of the range as a percentage, 0 below it and 100 above it |
| Ranges.PercentMonotone | src/components/slider.ts:194-201 | a larger value never gives a smaller percentage |
| Ranges.RoundHalfUp | src/components/slider.ts:249 | `Math.round`: within half of its argument |
| Ranges.SnapWithinHalfStep | src/components/slider.ts:248-250 | snapping moves an offset by at most half a step and keeps a multiple of the step |
| Ranges.Rate | src/components/slider.ts:239-244 | the drag rate lies in [0, 1] |
| Ranges.RateAtEdges | src/components/slider.ts:239-244 | at or before the groove's start the rate is 0, at or past its end it is 1 |
| Ranges.DragWithoutStep | src/components/slider.ts:246-253 | without a step the value is `min + (max - min) * rate`, inside [min, max] |
| Ranges.DragWithStep | src/components/slider.ts:246-253 | with a step the value is within half a step of the range |
| Ranges.DragAtStart | src/components/slider.ts:246-253 | rate 0 gives the minimum |
| Sliders.ToDecimal4 | src/components/slider.ts:253 | rounding to four decimals moves a value by at most 0.00005 |
| Sliders.ToDecimal4Monotone | src/components/slider.ts:269-272 | rounding keeps order |
| Sliders.ToDecimal4Keeps | src/components/slider.ts:269-272 | a four-decimal number is left alone |
| Sliders.KeyTarget | src/components/slider.ts:290-309 | only the arrow keys of the slider's orientation ask for a value: up or right the smaller of value + step and max, down or left the larger of value - step and min |
| Sliders.KeyTargetInRange | src/components/slider.ts:290-309 | arrow keys move by at most a step and never out of [min, max] |
| Sliders.WheelTargetInRange | src/components/slider.ts:268-273 | with four-decimal bounds the wheel keeps the value in [min, max] |
| Sliders.Slider.constructor | src/components/slider.ts:120-133 | horizontal, range 0 to 100, step 1, value 0 |
| Sliders.Slider.GetPercent | src/components/slider.ts:194-201 | within [0, 100], and 0 at the minimum |
| Sliders.Slider.SetValue | src/components/slider.ts:316-318 | the value is set, and 'change' is emitted only when it differs |
| Sliders.Slider.OnKeyDown | src/components/slider.ts:287-319 | arrow keys set the clamped target and emit only on change, Escape drops the focus, the range is kept |
| Sliders.Slider.OnWheel | src/components/slider.ts:260-278 | ignored without a step or the focus; otherwise one rounded, clamped step, emitted only on change |
| Sliders.Slider.ChangeValueByEvent | src/components/slider.ts:236-258 | the value becomes the rounded drag value, emitted only on change |
| Sliders.Slider.OnFocus | src/components/slider.ts:280-285 | the slider has the focus, its value is unchanged |
| Sliders.Slider.OnBlur | src/components/slider.ts:321-324 | the slider loses the focus, its value is unchanged |
| LibSliders.KeyTarget | src/lib/slider.ts:195-219 | only the arrow keys of the orientation ask for a value, never below min: up or right the larger of value + step and min, down or left the larger of value - step and min |
| LibSliders.StepDownAgrees | src/lib/slider.ts:205-214 | stepping down is the same as in the component |
| LibSliders.WheelTargetInRange | src/lib/slider.ts:173-183 | the wheel keeps the value in [min, max] and moves it in the wheel's direction |
| LibSliders.Slider.constructor | src/lib/slider.ts:113-117 | horizontal, range 0 to 100, step 1, value 0 |
| LibSliders.Slider.GetPercent | src/lib/slider.ts:121-128 | within [0, 100], and 0 at the minimum |
| LibSliders.Slider.SetValue | src/lib/slider.ts:221-223 | the value is set, and 'change' is emitted only when it differs |
| LibSliders.Slider.OnKeyDown | src/lib/slider.ts:195-224 | arrow keys set the target as written and emit only on change; the value never drops below min |
| LibSliders.Slider.OnKeyDownCorrected | src/lib/slider.ts:195-224 | with the upper clamp, the value stays in [min, max] |
| LibSliders.Slider.OnWheel | src/lib/slider.ts:173-189 | ignored without a step; otherwise one clamped step, emitted only on change |
| LibSliders.Slider.ChangeValueByEvent | src/lib/slider.ts:149-171 | the value becomes the drag value, emitted only on change |
| LibSliders.ArrowUpPassesMax | src/lib/slider.ts:203 | ArrowUp at value 100 = max with step 1 gives 101 and emits it |
| LibSliders.ArrowUpStopsAtMax | src/lib/slider.ts:201-204 | with the clamp, the same key press stays at 100 and emits nothing |
| Switches.KeyOutcome | src/lib/switch.ts:91-108 | ArrowLeft always ends off, ArrowRight always on, Enter toggles, other keys change nothing |
| Switches.Switch.constructor | src/lib/switch.ts:67 | starts unchecked |
| Switches.Switch.OnClick | src/lib/switch.ts:82-85 | `checked` flips and the new value is emitted |
| Switches.Switch.OnKeyDown | src/lib/switch.ts:91-108 | a toggling key acts as a click, any other key changes nothing |
| Switches.TwoClicksRestore | src/lib/switch.ts:82-85 | two clicks restore the state and emit both values |

## Left out

- Rendering, CSS, templates and every DOM access (refs, `classList`, styles, `append`/`remove`, focus calls) are not modelled.
- Event wiring (`on`/`off`/`once`), `MouseLeave` locking, `watch`/`watchLayout`, alignment and transitions are not modelled. A popup's "locked" state is a set parameter, and whether the device has a mouse-like input is a boolean parameter.
- Timers are not modelled as time. Each timer firing is an explicit method (`ShowTimeoutFires`, `HideTimeoutFires`), and a timer is the delay it was started with.
- Popup.PopupBinding.ShowPopupLater: the binding keeps one pending show timer, so a timer replaced before it fires is dropped; in the code the replaced timer still fires, and its callback only shows when `willOpen` still holds.
- Popup.PopupBinding.HidePopupLater: likewise one pending hide timer is kept; a replaced one still fires in the code and hides only if the popup is still open.
- `history.pushState`/`replaceState`/`go` and the popstate event are recorded as a log of calls; the browser's history itself is not modelled.
- Route matching (`PathParser`, `route`, `isMatch`, `matchPath`, src/components/router.ts:117-181, 264-345) and `getPathFromUri` with `new URL` are not modelled; they rely on RegExp and URL parsing.
- JavaScript floating point, `NaN` and infinities are not modelled. A solver pass that would divide by a zero flex total returns `None`, and a zero-size groove is excluded by precondition.
- `format` and `encodeHTML` are not part of this model: `get`, `translate` and `translateQuoteToBold` are modelled without arguments.
- `toDecimal` is not part of this model; `Sliders.ToDecimal4` stands for it as rounding half up to four decimals.
- Live and virtual row repetition, store data, `getStartIndex`/`getEndIndex` (which become parameters of `Table.RenderedItem`) and table state caching are not modelled.
- `Table.Table.SetColumns` stands for the `watchOnce` on `columns`: every waiting callback runs at the next change of the columns.
- The popup binding's rendering path (`ensurePopup`, `__updateImmediately`, `updatePopup`, `alignPopup`, `bindTrigger`, document mouse-down handling) is not modelled; `ShowPopup` records the queued update as a flag.
- Notification buttons' callbacks (`onClickBtn`), `onTransitionEnd` and the lazy creation of the tips component are not modelled.
- Menu keyboard navigation (`onKeyDown`, `hoverPreviousItem`, `hoverNextItem`), `mayHideLayer`, focus handling and the `MenuItem`/`SubMenu` event handlers other than `SubMenu.onCreated` are not modelled. Menu items and submenus are abstract ids with a parent map.
- The message's returned promise is a log of resolutions. The input validator is a parameter of the click: its message for the current input. The lazy creation of the modal and the Enter key handler are not modelled. Nothing in the message file pushes to `stack`; the model still shifts it as the code does.
- Slider drag wiring (`onMouseDown`, `mousemove`/`mouseup`, `dragstart`/`dragend`) and the tooltip text are not modelled. Only `changeValueByEvent`, which they call, is.
- Switch focus and blur wiring is not modelled.
- Menus.Menu.SelectItem: hovers through the corrected `SetHoverItem`, so its contract also hides the opened submenus of the item's siblings, which the code as written never does (see Findings); with the code's `setHoverItem` the layers would stay as they were.
- Menus.Menu.HoverOneItem: likewise hovers through the corrected `SetHoverItem`; as written, hovering the candidate leaves every opened layer alone.
- The library slider's `onFocus` (src/lib/slider.ts:191-193) only registers the key handler and is not modelled.
- Grid.ShiftFrom: its own contract only keeps the length; the sum, locality and minimum are separate lemmas (`Grid.ShiftKeepsSum`, `Grid.ShiftIsLocal`, `Grid.ShiftRespectsMinimum`).
- Sliders.Slider.OnWheel: the range is proved kept only when min and max have at most four decimals, because rounding a bound with more decimals can step outside it.
- ColumnWidths.CorrectedSumsToClientWidth: the doc comment's "always" is proved only for runs that produce widths. The corrected accounting produces none when columns are still in play but the flex kind in use totals 0 over them. Bases 100, 100, shrink flexes 0, 1, client width 150, minimum 60 is such an input (`ColumnWidths.MixedShrinkStalls`). Where JavaScript would divide by zero there, the model returns `None`. A result is proved to exist when every defaulted column has a positive flex of each kind.
- ColumnWidths.CorrectedIterateSums: likewise its sum holds only for a run that yields widths, and a yield is proved only under positive flexes of each kind in every column.
- Ranges.DragWithStep: a drag with a step can end up to half a step beyond either end of the range when the range is not a multiple of the step; the code does not clamp after snapping.
- Translations.Translations.TranslateQuoteToBold: its own contract covers the quote-free case; the bolding of a quoted span is `Translations.BoldOfQuoted`.

## Findings

| source | as written | input that shows it | evidently intended | confidence | as-written member | corrected member |
|---|---|---|---|---|---|---|
| src/lib/grid.ts:520-524 | an exclusion takes `minColumnWidth` off `totalBaseWidth` and the flex off `totalExtendFlex`, even in a shrink pass | bases 200, 50, 50, all flexes 1, client width 180, minimum 40: widths 160, 40, 40, which add up to 240 | the widths add up to the client width (doc comment at lines 471-476): 100, 40, 40 | not executed; high | ColumnWidths.AsWrittenOvershoots | ColumnWidths.CorrectedSumsToClientWidth |
| src/components/menu.ts:109 | the arrow parameter `item` shadows the hovered item, so `item !== item` is always false and no sibling's submenu is hidden | items 0 and 1 in the top menu, item 1's submenu 5 open; hovering item 0 leaves submenu 5 open | hide the opened submenus of the other items of the same menu | not executed; high | Menus.SiblingLayerStaysOpen | Menus.SiblingLayerCloses |
| src/lib/slider.ts:203, 217 | ArrowUp and ArrowRight compute `Math.max(value + step, min)`, so nothing stops at `max` | vertical slider with value 100, max 100, step 1; ArrowUp gives 101 | `Math.min(value + step, max)`, as the wheel at line 179 and the component at src/components/slider.ts:293, 307 do | not executed; high | LibSliders.ArrowUpPassesMax | LibSliders.ArrowUpStopsAtMax |
| src/components/notification.ts:337-350 | `info`, `alert` and `success` of `UniqueNotification` pass a stored id but never store the returned one | a fresh unique notifier, `info` twice with no id: two notifications are shown | store the returned id as `showNotification` does (lines 332-335), so later calls update the same notification | not executed; medium | Notifications.UniqueInfoTwiceShowsTwo | Notifications.UniqueInfoTwiceReusing |

The grid keeps the code's accounting, so its widths are those of the code.
The menu's `SelectItem` and `HoverOneItem` use the corrected `SetHoverItem`. The component
slider already has the clamp that `LibSliders.Slider.OnKeyDownCorrected`
adds.
