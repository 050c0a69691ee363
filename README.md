# DroidKnights: bookmarks and session tabs, modelled in Dafny

This project models the three pieces of logic in the DroidKnights conference
app that are not just screen layout:

- **Bookmarked sessions** (`BookmarkedSessions.dfy`). `GetBookmarkedSessionsUseCase`
  combines the list of all sessions with the set of bookmarked session ids.
  For each pair it emits the bookmarked sessions ordered by start time,
  using Kotlin's stable `sortedBy`. The model has the filter, the stable sort
  and their composition as functions. It proves that the result is exactly
  the bookmarked sessions, counted with multiplicity, sorted by start time
  and stable. It also proves that the result is the only list with those
  properties, that ids matching no session change nothing, and that the
  transform is idempotent.
- **Bookmark list rows** (`BookmarkItem.dfy`). `BookmarkItemUiState` holds a
  row's index and session. Its derived fields are the 1-based `sequence`
  (`index + 1` in Kotlin's 32-bit `Int`) and the tag and speaker labels
  (`joinToString` with its default `", "` separator). The labels are proved
  to be the names in list order. They can be read back with `SplitLabel`
  when no name contains `", "`.
- **Session screen tabs** (`SessionScreen.dfy`). The session list has a header
  for each of three tracks, at items 0, 3 and 6. The first visible item
  selects a track tab (`<3 → 0`, `<6 → 1`, else `2`). Clicking a tab scrolls
  to a fixed item (`0 → 0`, `1 → 3`, else `6`). `attachToTop` is true
  exactly when item 0 is the first visible item. It decides whether the tab
  row or the app bar is shown. The two mappings are functions and are proved
  to agree with the list layout. The screen's mutable flags are fields of
  the class `SessionScreenState`, updated by methods.

`SessionModel.dfy` holds the shared records `Session`, `Tag` and `Speaker`.

## Model

| member | source | states |
|---|---|---|
| BookmarkedSessions.FilterBookmarked | core/domain/src/main/java/com/droidknights/app/core/domain/usecase/GetBookmarkedSessionsUseCase.kt:19 | every kept session has a bookmarked id, and the filter never lengthens the list |
| BookmarkedSessions.FilterBookmarkedCounts | core/domain/src/main/java/com/droidknights/app/core/domain/usecase/GetBookmarkedSessionsUseCase.kt:18-19 | a bookmarked session is kept exactly as many times as it occurs in the input; any other session occurs zero times |
| BookmarkedSessions.FilterBookmarkedSameDecisions | core/domain/src/main/java/com/droidknights/app/core/domain/usecase/GetBookmarkedSessionsUseCase.kt:19 | two id sets that agree on every session's id give the same filtered list |
| BookmarkedSessions.FilterBookmarkedKeepsAll | core/domain/src/main/java/com/droidknights/app/core/domain/usecase/GetBookmarkedSessionsUseCase.kt:19 | a list whose sessions are all bookmarked passes the filter unchanged |
| BookmarkedSessions.InsertByStartTime | core/domain/src/main/java/com/droidknights/app/core/domain/usecase/GetBookmarkedSessionsUseCase.kt:20 | one insertion step of the stable sort adds exactly the inserted session |
| BookmarkedSessions.InsertSorted | core/domain/src/main/java/com/droidknights/app/core/domain/usecase/GetBookmarkedSessionsUseCase.kt:20 | inserting into a list sorted by start time keeps it sorted |
| BookmarkedSessions.SortByStartTime | core/domain/src/main/java/com/droidknights/app/core/domain/usecase/GetBookmarkedSessionsUseCase.kt:20 | `sortedBy { it.startTime }` returns a permutation of its input in non-decreasing start-time order |
| BookmarkedSessions.SortStable | core/domain/src/main/java/com/droidknights/app/core/domain/usecase/GetBookmarkedSessionsUseCase.kt:20 | for every start time, the sessions with that start time keep their input order |
| BookmarkedSessions.SortSortedIdentity | core/domain/src/main/java/com/droidknights/app/core/domain/usecase/GetBookmarkedSessionsUseCase.kt:20 | sorting a list already in start-time order returns it unchanged |
| BookmarkedSessions.StableSortUnique | core/domain/src/main/java/com/droidknights/app/core/domain/usecase/GetBookmarkedSessionsUseCase.kt:20 | any list sorted by start time that keeps the input order within each start time equals the model's sort, so every stable sort gives this result |
| BookmarkedSessions.GetBookmarkedSessions | core/domain/src/main/java/com/droidknights/app/core/domain/usecase/GetBookmarkedSessionsUseCase.kt:17-21 | the emitted list has only bookmarked sessions, is sorted by start time and is no longer than the input |
| BookmarkedSessions.BookmarkedSessionsExact | core/domain/src/main/java/com/droidknights/app/core/domain/usecase/GetBookmarkedSessionsUseCase.kt:18-20 | the result holds each bookmarked session as often as the input does and nothing else; a session is in the result iff it is in the input with a bookmarked id |
| BookmarkedSessions.BookmarkedSessionsStable | core/domain/src/main/java/com/droidknights/app/core/domain/usecase/GetBookmarkedSessionsUseCase.kt:18-20 | the result's sessions at any one start time are exactly the bookmarked input sessions at that time, in input order |
| BookmarkedSessions.BookmarkedSessionsEmpty | core/domain/src/main/java/com/droidknights/app/core/domain/usecase/GetBookmarkedSessionsUseCase.kt:17-21 | no sessions, or no bookmarks, give an empty list |
| BookmarkedSessions.UnmatchedIdsIgnored | core/domain/src/main/java/com/droidknights/app/core/domain/usecase/GetBookmarkedSessionsUseCase.kt:19 | adding bookmarked ids that no session carries leaves the result unchanged |
| BookmarkedSessions.BookmarkedSessionsIdempotent | core/domain/src/main/java/com/droidknights/app/core/domain/usecase/GetBookmarkedSessionsUseCase.kt:18-20 | applying the transform to its own output with the same ids returns that output |
| BookmarkItem.AddInt32 | feature/bookmark/src/main/java/com/droidknights/app/feature/bookmark/model/BookmarkItemUiState.kt:15 | Kotlin `Int` addition: congruent to the exact sum modulo 2^32, and equal to it when the sum fits |
| BookmarkItem.BookmarkItemUiState.Sequence | feature/bookmark/src/main/java/com/droidknights/app/feature/bookmark/model/BookmarkItemUiState.kt:14-15 | `sequence` is `index + 1` and greater than `index` below `Int.MAX_VALUE`, and wraps to `Int.MIN_VALUE` at it |
| BookmarkItem.JoinToString | feature/bookmark/src/main/java/com/droidknights/app/feature/bookmark/model/BookmarkItemUiState.kt:17-21 | a joined label of n ≥ 1 names is as long as the names together plus n − 1 separators |
| BookmarkItem.JoinToStringAppend | feature/bookmark/src/main/java/com/droidknights/app/feature/bookmark/model/BookmarkItemUiState.kt:17-21 | the label is built left to right: each further name follows a `", "`, and a single name has no separator |
| BookmarkItem.SplitJoinRoundTrip | feature/bookmark/src/main/java/com/droidknights/app/feature/bookmark/model/BookmarkItemUiState.kt:17-21 | splitting the label at `", "` gives back the transformed items in list order, when there is at least one item and no transformed item contains `", "` |
| BookmarkItem.NamesWithSeparatorCollide | feature/bookmark/src/main/java/com/droidknights/app/feature/bookmark/model/BookmarkItemUiState.kt:17-18 | a name containing `", "` makes labels collide: `["a, b"]` and `["a", "b"]` give the same label |
| BookmarkItem.BookmarkItemUiState.TagLabel | feature/bookmark/src/main/java/com/droidknights/app/feature/bookmark/model/BookmarkItemUiState.kt:17-18 | no tags give `""`; one tag gives its name with no separator; two or more give the label of all tags but the last, then `", "`, then the last tag's name |
| BookmarkItem.BookmarkItemUiState.SpeakerLabel | feature/bookmark/src/main/java/com/droidknights/app/feature/bookmark/model/BookmarkItemUiState.kt:20-21 | the same three rules over the speaker names |
| BookmarkItem.TagLabelRoundTrip | feature/bookmark/src/main/java/com/droidknights/app/feature/bookmark/model/BookmarkItemUiState.kt:17-18 | splitting the tag label at `", "` gives back the tag names in list order, when there is a tag and no tag name contains `", "` |
| BookmarkItem.SpeakerLabelRoundTrip | feature/bookmark/src/main/java/com/droidknights/app/feature/bookmark/model/BookmarkItemUiState.kt:20-21 | splitting the speaker label at `", "` gives back the speaker names in list order, when there is a speaker and no speaker name contains `", "` |
| BookmarkItem.DerivedFieldsDependencies | feature/bookmark/src/main/java/com/droidknights/app/feature/bookmark/model/BookmarkItemUiState.kt:9-21 | the labels depend only on `session` and `sequence` depends only on `index` |
| SessionScreen.SessionListItems | feature/session/src/main/java/com/droidknights/app2023/feature/session/SessionScreen.kt:169-219 | the list has ten rows; rows 0, 3 and 6 are the track headers, titled like tabs 0, 1 and 2, and every other row is a session card |
| SessionScreen.TabForItemIndex | feature/session/src/main/java/com/droidknights/app2023/feature/session/SessionScreen.kt:75-79 | every first visible index maps to one of the three tabs |
| SessionScreen.ScrollTargetForTab | feature/session/src/main/java/com/droidknights/app2023/feature/session/SessionScreen.kt:53-57 | every tab index scrolls to an item of the list that is a track header |
| SessionScreen.TabIsTrackOfHeaderAbove | feature/session/src/main/java/com/droidknights/app2023/feature/session/SessionScreen.kt:169-219 | the tab for an item is the track of the last header at or above it in the list layout |
| SessionScreen.TabScrollRoundTrip | feature/session/src/main/java/com/droidknights/app2023/feature/session/SessionScreen.kt:53-57 | tab t scrolls to the header titled like tab t ("Track 0(t+1)"), and that item maps back to tab t |
| SessionScreen.ScrollTargetIsFirstItemOfTab | feature/session/src/main/java/com/droidknights/app2023/feature/session/SessionScreen.kt:53-79 | tab t's scroll target is at or above item i exactly when item i's tab is t or later |
| SessionScreen.TabForItemIndexMonotone | feature/session/src/main/java/com/droidknights/app2023/feature/session/SessionScreen.kt:75-79 | i ≤ j implies tab(i) ≤ tab(j) |
| SessionScreen.ShortLandingSelectsEarlierTab | feature/session/src/main/java/com/droidknights/app2023/feature/session/SessionScreen.kt:53-79 | a scroll that stops above tab t's header selects a tab before t; only landing on the header selects t |
| SessionScreen.OtherTabsScrollToLastTrack | feature/session/src/main/java/com/droidknights/app2023/feature/session/SessionScreen.kt:56 | any tab index other than 0 and 1 scrolls to the "Track 03" header |
| SessionScreen.VisibleBars | feature/session/src/main/java/com/droidknights/app2023/feature/session/SessionScreen.kt:100-146 | exactly one bar is shown: the tab row iff `!attachToTop`, the app bar iff `attachToTop` |
| SessionScreen.SelectedFlags | feature/session/src/main/java/com/droidknights/app2023/feature/session/SessionScreen.kt:109-126 | for a selected index in {0, 1, 2} exactly one tab is marked, the selected one; otherwise none is |
| SessionScreen.SessionScreenState.constructor | feature/session/src/main/java/com/droidknights/app2023/feature/session/SessionScreen.kt:41-95 | the remembered state starts at item 0 with tab 0 selected and `attachToTop` false |
| SessionScreen.SessionScreenState.CollectSelectedTab | feature/session/src/main/java/com/droidknights/app2023/feature/session/SessionScreen.kt:72-82 | the collector stores the tab mapped from the new index and changes nothing else |
| SessionScreen.SessionScreenState.CollectAttachToTop | feature/session/src/main/java/com/droidknights/app2023/feature/session/SessionScreen.kt:149-154 | the collector stores whether the new index is 0 and changes nothing else |
| SessionScreen.SessionScreenState.OnFirstVisibleItemIndex | feature/session/src/main/java/com/droidknights/app2023/feature/session/SessionScreen.kt:72-82 | after index i, `selectedTabIndex == tab(i)` and `attachToTop == (i == 0)`; delivering the same index again changes nothing |
| SessionScreen.SessionScreenState.SelectTab | feature/session/src/main/java/com/droidknights/app2023/feature/session/SessionScreen.kt:51-60 | a click on tab t that lands at or above t's scroll target leaves the state in sync with the landing item: tab t when it lands on the target, an earlier tab when it stops short; the app bar shows only when it lands on item 0 |

## Left out

- Reactive plumbing is not modelled: `Flow`, `combine`, `snapshotFlow`, coroutine launching and re-emission. Only the value computed for one emission, or the state after one delivery, is modelled.
- `distinctUntilChanged` on the `attachToTop` stream is left out. It only suppresses re-writing the value the flag already holds, so the state after each delivery is the same.
- SessionScreen.SessionScreenState.SelectTab: the item where `animateScrollToItem` stops is a parameter, because the platform does the scrolling. The model only assumes it is at or above the target. It stops short when the rows from the target down are shorter than the screen; the tab selected is then an earlier one.
- The tab row's and the app bar's visibility, and the tabs' selected marks, are the functions `VisibleBars` and `SelectedFlags` of the state's fields. `Valid()` keeps `selectedTabIndex` within the three tabs, so exactly one tab is marked.
- The constructor's state is not `Synced()` (`attachToTop` is false while item 0 is on top) until the first index is delivered. This is how the source initialises the flags, and the model keeps it.
- BookmarkedSessions.SortByStartTime: Kotlin sorts with the platform's stable sort, TimSort, and the model uses a stable insertion sort instead. `StableSortUnique` shows both give the same list.
- `startTime` is an integer standing for a `LocalDateTime`; only its total order is used.
- `Session` carries only `id`, `startTime`, `tags` and `speakers`. Its other fields (title, content, level, room, end time, bookmark flag) are not read by the modelled code.
- The id collection is a set; the `contains` check is all the source uses it for.
- BookmarkItem.SplitJoinRoundTrip: holds only for at least one item, because `[]` and `[""]` both give `""`. It also needs that no item contains `", "`, because such an item collides with two items (`NamesWithSeparatorCollide`).
- BookmarkItem.TagLabelRoundTrip: stated only for at least one tag and tag names without `", "`, for the same two collisions. `TagLabel`'s own contract states the label's shape for all names.
- BookmarkItem.SpeakerLabelRoundTrip: stated only for at least one speaker and speaker names without `", "`, for the same two collisions. `SpeakerLabel`'s own contract states the label's shape for all names.
- `BookmarkItemUiState.time` is not modelled. It is a conversion between date-time libraries whose code is not part of this model.
- Compose rendering is not modelled: layout, modifiers, sizes, fade animations, theming, string resources.
- `ContributorCard.kt` is not modelled. It is a presentation composable that opens a URI through the platform.
- `SessionUiState.kt` is not modelled. It declares two variants and has no behaviour.
- Dependency injection and the upstream use cases `GetSessionsUseCase` and `GetBookmarkedSessionIdsUseCase` are not part of this model. Their outputs are the transform's arbitrary inputs.
