/** The session screen's link between the scroll position of the session
    list and the selected track tab. */
module SessionScreen {

  /** One row of the session list. */
  datatype ListItem = TrackHeader(title: string) | SessionCard

  /** The titles of the three tabs of the tab row, in order. */
  const TabTitles: seq<string> := ["Track 01", "Track 02", "Track 03"]

  /** The rows `SessionContent` lays out, in order: ten rows, of which rows
      0, 3 and 6 are the track headers, titled like the three tabs, and all
      others are session cards. */
  function SessionListItems(): (items: seq<ListItem>)
    ensures |items| == 10
    ensures forall i :: 0 <= i < |items| ==> (items[i].TrackHeader? <==> i == 0 || i == 3 || i == 6)
    ensures forall t :: 0 <= t < |TabTitles| ==> items[3 * t] == TrackHeader(TabTitles[t])
  {
    [
      TrackHeader("Track 01"), SessionCard, SessionCard,
      TrackHeader("Track 02"), SessionCard, SessionCard,
      TrackHeader("Track 03"), SessionCard, SessionCard, SessionCard
    ]
  }

  /** The number of track headers among `items`. */
  function HeaderCount(items: seq<ListItem>): (n: nat)
    ensures n <= |items|
  {
    if items == [] then 0
    else (if items[0].TrackHeader? then 1 else 0) + HeaderCount(items[1..])
  }

  /** The tab for the first visible item of the list: `index < 3 -> 0`,
      `index < 6 -> 1`, otherwise 2. */
  function TabForItemIndex(index: int): (tab: int)
    ensures 0 <= tab < |TabTitles|
  {
    if index < 3 then 0
    else if index < 6 then 1
    else 2
  }

  /** The item the list scrolls to when a tab is clicked: `0 -> 0`,
      `1 -> 3`, anything else `-> 6`. */
  function ScrollTargetForTab(tab: int): (index: int)
    ensures 0 <= index < |SessionListItems()|
    ensures SessionListItems()[index].TrackHeader?
  {
    if tab == 0 then 0
    else if tab == 1 then 3
    else 6
  }

  /** The index-to-tab rule agrees with the list's layout: the tab of a
      first visible item is the track whose header is the last one at or
      above that item (past the end of the list, the last track). */
  lemma TabIsTrackOfHeaderAbove(index: nat)
    ensures TabForItemIndex(index) ==
            HeaderCount(SessionListItems()[..if index < |SessionListItems()| then index + 1 else |SessionListItems()|]) - 1
  {
    var items := SessionListItems();
    assert items[..1] == [TrackHeader("Track 01")];
    assert HeaderCount(items[..1]) == 1;
    var k := 1;
    while k < |items|
      invariant 1 <= k <= |items|
      invariant HeaderCount(items[..k]) == TabForItemIndex(k - 1) + 1
      invariant index < k ==> TabForItemIndex(index) == HeaderCount(items[..index + 1]) - 1
    {
      HeaderCountSnoc(items[..k], items[k]);
      assert items[..k + 1] == items[..k] + [items[k]];
      k := k + 1;
    }
    assert items[..|items|] == items;
  }

  lemma {:induction false} HeaderCountSnoc(items: seq<ListItem>, last: ListItem)
    ensures HeaderCount(items + [last]) == HeaderCount(items) + if last.TrackHeader? then 1 else 0
  {
    if items == [] {
      assert items + [last] == [last];
    } else {
      assert (items + [last])[1..] == items[1..] + [last];
      HeaderCountSnoc(items[1..], last);
    }
  }

  /** Clicking tab t scrolls to the header titled like that tab, and that
      item maps back to tab t. */
  lemma TabScrollRoundTrip(tab: int)
    requires 0 <= tab < |TabTitles|
    ensures SessionListItems()[ScrollTargetForTab(tab)] == TrackHeader(TabTitles[tab])
    ensures TabForItemIndex(ScrollTargetForTab(tab)) == tab
  {
  }

  /** The two rules form a Galois connection: tab t's header is at or above
      item i exactly when the tab of item i is t or a later one. So the
      header a tab scrolls to is the first item that maps to that tab. */
  lemma ScrollTargetIsFirstItemOfTab(tab: int, index: nat)
    requires 0 <= tab < |TabTitles|
    ensures ScrollTargetForTab(tab) <= index <==> tab <= TabForItemIndex(index)
  {
  }

  /** Scrolling further down never selects an earlier tab. */
  lemma TabForItemIndexMonotone(i: int, j: int)
    requires i <= j
    ensures TabForItemIndex(i) <= TabForItemIndex(j)
  {
  }

  /** A scroll towards tab t's header that stops short of it, because the
      list ran out of rows below, selects an earlier tab; only landing on
      the header itself selects tab t. */
  lemma ShortLandingSelectsEarlierTab(tab: int, landed: nat)
    requires 0 <= tab < |TabTitles|
    requires landed <= ScrollTargetForTab(tab)
    ensures TabForItemIndex(landed) <= tab
    ensures TabForItemIndex(landed) == tab <==> landed == ScrollTargetForTab(tab)
  {
    ScrollTargetIsFirstItemOfTab(tab, landed);
  }

  /** Every tab index other than 0 and 1 scrolls to the third track's
      header. */
  lemma OtherTabsScrollToLastTrack(tab: int)
    requires tab != 0 && tab != 1
    ensures SessionListItems()[ScrollTargetForTab(tab)] == TrackHeader("Track 03")
  {
  }

  /** The two bars stacked at the top of the screen. */
  datatype TopBar = TabRowBar | KnightsTopAppBar

  /** The bars shown: the tab row while `!attachToTop`, the app bar while
      `attachToTop`. Exactly one is shown. */
  function VisibleBars(attachToTop: bool): (shown: set<TopBar>)
    ensures |shown| == 1
    ensures TabRowBar in shown <==> !attachToTop
    ensures KnightsTopAppBar in shown <==> attachToTop
  {
    (if !attachToTop then {TabRowBar} else {}) + (if attachToTop then {KnightsTopAppBar} else {})
  }

  /** The `selected` flags of the three tabs: tab k is marked when
      `selectedTabIndex == k`. */
  function SelectedFlags(selectedTabIndex: int): (flags: seq<bool>)
    ensures |flags| == |TabTitles|
    ensures 0 <= selectedTabIndex < |TabTitles| ==> CountMarked(flags) == 1 && flags[selectedTabIndex]
    ensures !(0 <= selectedTabIndex < |TabTitles|) ==> CountMarked(flags) == 0
  {
    var flags := [selectedTabIndex == 0, selectedTabIndex == 1, selectedTabIndex == 2];
    assert flags[1..][1..][1..] == [];
    assert CountMarked(flags[1..][1..]) == if flags[2] then 1 else 0;
    flags
  }

  function CountMarked(flags: seq<bool>): nat {
    if flags == [] then 0 else (if flags[0] then 1 else 0) + CountMarked(flags[1..])
  }

  /** The screen's mutable state: the list's first visible item and the two
      UI flags the screen derives from it. */
  class SessionScreenState {
    var firstVisibleItemIndex: nat
    var selectedTabIndex: int
    var attachToTop: bool

    /** The selected tab is one of the three. */
    ghost predicate Valid()
      reads this
    {
      0 <= selectedTabIndex < |TabTitles|
    }

    /** Both flags reflect the current first visible item. */
    ghost predicate Synced()
      reads this
    {
      selectedTabIndex == TabForItemIndex(firstVisibleItemIndex) &&
      attachToTop == (firstVisibleItemIndex == 0)
    }

    /** The state remembered on first composition. */
    constructor ()
      ensures Valid()
      ensures firstVisibleItemIndex == 0 && selectedTabIndex == 0 && !attachToTop
    {
      firstVisibleItemIndex := 0;
      selectedTabIndex := 0;
      attachToTop := false;
    }

    /** The collector in `SessionScreen`: the mapped tab overwrites
        `selectedTabIndex`. */
    method CollectSelectedTab(index: nat)
      modifies this`selectedTabIndex
      ensures selectedTabIndex == TabForItemIndex(index)
    {
      selectedTabIndex := TabForItemIndex(index);
    }

    /** The collector in `SessionTopAppBar`: `index == 0` overwrites
        `attachToTop`. */
    method CollectAttachToTop(index: nat)
      modifies this`attachToTop
      ensures attachToTop == (index == 0)
    {
      attachToTop := index == 0;
    }

    /** The list reports a new first visible item and both collectors run. */
    method OnFirstVisibleItemIndex(index: nat)
      modifies this
      ensures Valid() && Synced()
      ensures firstVisibleItemIndex == index
      ensures selectedTabIndex == TabForItemIndex(index)
      ensures attachToTop == (index == 0)
      ensures old(Synced()) && old(firstVisibleItemIndex) == index ==> unchanged(this)
    {
      firstVisibleItemIndex := index;
      CollectSelectedTab(index);
      CollectAttachToTop(index);
    }

    /** A tab click: the list scrolls towards the tab's scroll target and
        stops with `landed` as its first visible item. A list cannot scroll
        past its end, so `landed` is the target or, when the rows from the
        target down are shorter than the screen, an item above it; the tab
        selected is then the clicked one or an earlier one. */
    method SelectTab(tab: int, landed: nat)
      requires landed <= ScrollTargetForTab(tab)
      modifies this
      ensures Valid() && Synced()
      ensures firstVisibleItemIndex == landed
      ensures 0 <= tab < |TabTitles| ==> selectedTabIndex <= tab
      ensures 0 <= tab < |TabTitles| && landed == ScrollTargetForTab(tab) ==> selectedTabIndex == tab
      ensures !(0 <= tab < |TabTitles|) && landed == ScrollTargetForTab(tab) ==> selectedTabIndex == 2
      ensures attachToTop == (landed == 0)
    {
      OnFirstVisibleItemIndex(landed);
    }
  }
}
