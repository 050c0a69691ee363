/** The list transform of `GetBookmarkedSessionsUseCase`: from all sessions
    and the set of bookmarked session ids, keep the bookmarked sessions and
    order them by start time with a stable sort. */
module BookmarkedSessions {
  import opened SessionModel

  // ---------------------------------------------------------------------
  // filter { bookmarkedSessions.contains(it.id) }
  // ---------------------------------------------------------------------

  /** The sessions whose id is bookmarked, in their input order. */
  function FilterBookmarked(sessions: seq<Session>, ids: set<SessionId>): (r: seq<Session>)
    ensures |r| <= |sessions|
    ensures forall i :: 0 <= i < |r| ==> r[i].id in ids
  {
    if sessions == [] then []
    else (if sessions[0].id in ids then [sessions[0]] else []) + FilterBookmarked(sessions[1..], ids)
  }

  /** Filtering keeps every bookmarked session as often as the input holds
      it and drops every other one: nothing is added, lost or duplicated. */
  lemma {:induction false} FilterBookmarkedCounts(sessions: seq<Session>, ids: set<SessionId>)
    ensures forall x :: multiset(FilterBookmarked(sessions, ids))[x] ==
                        if x.id in ids then multiset(sessions)[x] else 0
  {
    if sessions != [] {
      FilterBookmarkedCounts(sessions[1..], ids);
      assert sessions == [sessions[0]] + sessions[1..];
    }
  }

  /** Only the ids that some session carries matter to the filter. */
  lemma {:induction false} FilterBookmarkedSameDecisions(sessions: seq<Session>, ids1: set<SessionId>, ids2: set<SessionId>)
    requires forall i :: 0 <= i < |sessions| ==> (sessions[i].id in ids1 <==> sessions[i].id in ids2)
    ensures FilterBookmarked(sessions, ids1) == FilterBookmarked(sessions, ids2)
  {
    if sessions != [] {
      assert sessions[0].id in ids1 <==> sessions[0].id in ids2;
      FilterBookmarkedSameDecisions(sessions[1..], ids1, ids2);
    }
  }

  /** A list whose sessions are all bookmarked passes the filter unchanged. */
  lemma {:induction false} FilterBookmarkedKeepsAll(sessions: seq<Session>, ids: set<SessionId>)
    requires forall i :: 0 <= i < |sessions| ==> sessions[i].id in ids
    ensures FilterBookmarked(sessions, ids) == sessions
  {
    if sessions != [] {
      FilterBookmarkedKeepsAll(sessions[1..], ids);
    }
  }

  // ---------------------------------------------------------------------
  // sortedBy { it.startTime }
  // ---------------------------------------------------------------------

  ghost predicate SortedByStartTime(s: seq<Session>) {
    forall i, j :: 0 <= i < j < |s| ==> s[i].startTime <= s[j].startTime
  }

  /** The sessions of `s` that start at `t`, in their order in `s`. Two lists
      whose sessions of each start time come in the same order are the same
      up to a stable reordering by start time. */
  function StartingAt(s: seq<Session>, t: int): (r: seq<Session>)
    ensures |r| <= |s|
    ensures forall i :: 0 <= i < |r| ==> r[i].startTime == t
  {
    if s == [] then []
    else (if s[0].startTime == t then [s[0]] else []) + StartingAt(s[1..], t)
  }

  /** Places `x` in front of the first session that starts no earlier than
      `x`, so `x` stays ahead of every session with its own start time. */
  function InsertByStartTime(x: Session, s: seq<Session>): (r: seq<Session>)
    ensures multiset(r) == multiset(s) + multiset{x}
  {
    if s == [] || x.startTime <= s[0].startTime then [x] + s
    else
      assert s == [s[0]] + s[1..];
      [s[0]] + InsertByStartTime(x, s[1..])
  }

  lemma {:induction false} InsertSorted(x: Session, s: seq<Session>)
    requires SortedByStartTime(s)
    ensures SortedByStartTime(InsertByStartTime(x, s))
  {
    if s != [] && s[0].startTime < x.startTime {
      var rest := InsertByStartTime(x, s[1..]);
      InsertSorted(x, s[1..]);
      forall j | 0 <= j < |rest| ensures s[0].startTime <= rest[j].startTime {
        assert rest[j] in multiset(rest);
        assert rest[j] == x || rest[j] in multiset(s[1..]);
      }
    }
  }

  /** Kotlin's `sortedBy`: a stable sort on the start time (written as an
      insertion sort; StableSortUnique shows every stable sort agrees). */
  function SortByStartTime(s: seq<Session>): (r: seq<Session>)
    ensures multiset(r) == multiset(s)
    ensures SortedByStartTime(r)
  {
    if s == [] then []
    else
      assert s == [s[0]] + s[1..];
      InsertSorted(s[0], SortByStartTime(s[1..]));
      InsertByStartTime(s[0], SortByStartTime(s[1..]))
  }

  lemma {:induction false} InsertStartingAt(x: Session, s: seq<Session>, t: int)
    ensures StartingAt(InsertByStartTime(x, s), t) ==
            (if x.startTime == t then [x] else []) + StartingAt(s, t)
  {
    if s == [] || x.startTime <= s[0].startTime {
      assert ([x] + s)[1..] == s;
    } else {
      var rest := InsertByStartTime(x, s[1..]);
      assert ([s[0]] + rest)[1..] == rest;
      InsertStartingAt(x, s[1..], t);
    }
  }

  /** Stability: sorting keeps, for each start time, the input order of the
      sessions that start then. */
  lemma {:induction false} SortStable(s: seq<Session>, t: int)
    ensures StartingAt(SortByStartTime(s), t) == StartingAt(s, t)
  {
    if s != [] {
      SortStable(s[1..], t);
      InsertStartingAt(s[0], SortByStartTime(s[1..]), t);
    }
  }

  /** Sorting an already sorted list changes nothing. */
  lemma {:induction false} SortSortedIdentity(s: seq<Session>)
    requires SortedByStartTime(s)
    ensures SortByStartTime(s) == s
  {
    if s != [] {
      SortSortedIdentity(s[1..]);
      assert s == [s[0]] + s[1..];
    }
  }

  lemma {:induction false} SortedSameOrderEqual(r1: seq<Session>, r2: seq<Session>)
    requires SortedByStartTime(r1) && SortedByStartTime(r2)
    requires forall t :: StartingAt(r1, t) == StartingAt(r2, t)
    ensures r1 == r2
  {
    // a non-empty list has a session at its own first start time
    StartingAtHead(r1);
    StartingAtHead(r2);
    if r1 != [] && r2 != [] {
      var a, b := r1[0], r2[0];
      // a's start time occurs in r2, so b (r2's earliest) starts no later, and symmetrically
      var ka := StartingAt(r2, a.startTime);
      assert ka == StartingAt(r1, a.startTime) && ka != [];
      StartingAtFrom(r2, a.startTime, ka[0]);
      var kb := StartingAt(r1, b.startTime);
      assert kb == StartingAt(r2, b.startTime) && kb != [];
      StartingAtFrom(r1, b.startTime, kb[0]);
      assert a.startTime == b.startTime;
      forall t
        ensures StartingAt(r1[1..], t) == StartingAt(r2[1..], t)
      {
        assert StartingAt(r1, t) == StartingAt(r2, t);
        if a.startTime == t {

          assert StartingAt(r1, t)[1..] == StartingAt(r1[1..], t);
          assert StartingAt(r2, t)[1..] == StartingAt(r2[1..], t);
        } else {
          assert StartingAt(r1, t) == [] + StartingAt(r1[1..], t) == StartingAt(r1[1..], t);
          assert StartingAt(r2, t) == [] + StartingAt(r2[1..], t) == StartingAt(r2[1..], t);
        }
      }
      SortedSameOrderEqual(r1[1..], r2[1..]);
      assert StartingAt(r1, a.startTime)[0] == a;
      assert StartingAt(r2, a.startTime)[0] == b;
      assert r1 == [a] + r1[1..] && r2 == [b] + r2[1..];
    }
  }

  lemma StartingAtHead(s: seq<Session>)
    ensures s != [] ==> StartingAt(s, s[0].startTime) == [s[0]] + StartingAt(s[1..], s[0].startTime)
  {
  }

  lemma {:induction false} StartingAtFrom(s: seq<Session>, t: int, y: Session)
    requires SortedByStartTime(s) && s != []
    requires y in StartingAt(s, t)
    ensures s[0].startTime <= t
  {
    if s[0].startTime != t {
      assert y in StartingAt(s[1..], t);
      if |s| > 1 {
        StartingAtFrom(s[1..], t, y);
      }
    }
  }

  /** Any rearrangement that is ordered by start time and keeps the order of
      sessions with equal start times is exactly SortByStartTime's result, so
      the model agrees with whichever stable sort the platform runs. */
  lemma StableSortUnique(s: seq<Session>, r: seq<Session>)
    requires SortedByStartTime(r)
    requires forall t :: StartingAt(r, t) == StartingAt(s, t)
    ensures r == SortByStartTime(s)
  {
    forall t ensures StartingAt(r, t) == StartingAt(SortByStartTime(s), t) {
      SortStable(s, t);
    }
    SortedSameOrderEqual(r, SortByStartTime(s));
  }

  // ---------------------------------------------------------------------
  // The use case's per-emission transform
  // ---------------------------------------------------------------------

  /** `allSession.filter { bookmarkedSessions.contains(it.id) }.sortedBy { it.startTime }` */
  function GetBookmarkedSessions(allSessions: seq<Session>, bookmarkedIds: set<SessionId>): (r: seq<Session>)
    ensures |r| <= |allSessions|
    ensures forall i :: 0 <= i < |r| ==> r[i].id in bookmarkedIds
    ensures SortedByStartTime(r)
  {
    var f := FilterBookmarked(allSessions, bookmarkedIds);
    var r := SortByStartTime(f);
    assert |r| == |multiset(r)| == |multiset(f)| == |f|;
    assert forall i :: 0 <= i < |r| ==> r[i] in multiset(f);
    r
  }

  /** The result holds every bookmarked session exactly as many times as the
      input does and nothing else; in particular a session is in the result
      iff it is in the input and its id is bookmarked. */
  lemma BookmarkedSessionsExact(allSessions: seq<Session>, bookmarkedIds: set<SessionId>)
    ensures forall x :: multiset(GetBookmarkedSessions(allSessions, bookmarkedIds))[x] ==
                        if x.id in bookmarkedIds then multiset(allSessions)[x] else 0
    ensures forall x :: x in GetBookmarkedSessions(allSessions, bookmarkedIds) <==>
                        x in allSessions && x.id in bookmarkedIds
  {
    FilterBookmarkedCounts(allSessions, bookmarkedIds);
    var r := GetBookmarkedSessions(allSessions, bookmarkedIds);
    forall x ensures x in r <==> x in allSessions && x.id in bookmarkedIds {
      assert x in r <==> x in multiset(r);
      assert x in allSessions <==> x in multiset(allSessions);
    }
  }

  lemma {:induction false} FilterBookmarkedAppend(a: seq<Session>, b: seq<Session>, ids: set<SessionId>)
    ensures FilterBookmarked(a + b, ids) == FilterBookmarked(a, ids) + FilterBookmarked(b, ids)
  {
    if a != [] {
      assert (a + b)[1..] == a[1..] + b;
      FilterBookmarkedAppend(a[1..], b, ids);
    } else {
      assert a + b == b;
    }
  }

  lemma {:induction false} StartingAtAppend(a: seq<Session>, b: seq<Session>, t: int)
    ensures StartingAt(a + b, t) == StartingAt(a, t) + StartingAt(b, t)
  {
    if a != [] {
      assert (a + b)[1..] == a[1..] + b;
      StartingAtAppend(a[1..], b, t);
    } else {
      assert a + b == b;
    }
  }

  lemma {:induction false} FilterCommutesWithStartingAt(s: seq<Session>, ids: set<SessionId>, t: int)
    ensures StartingAt(FilterBookmarked(s, ids), t) == FilterBookmarked(StartingAt(s, t), ids)
  {
    if s != [] {
      FilterCommutesWithStartingAt(s[1..], ids, t);
      var p := if s[0].id in ids then [s[0]] else [];
      var q := if s[0].startTime == t then [s[0]] else [];
      StartingAtAppend(p, FilterBookmarked(s[1..], ids), t);
      FilterBookmarkedAppend(q, StartingAt(s[1..], t), ids);
    }
  }

  /** Stability of the whole transform: among the sessions starting at any
      one time, the result lists exactly the bookmarked ones, in the order
      of the full session list. */
  lemma BookmarkedSessionsStable(allSessions: seq<Session>, bookmarkedIds: set<SessionId>, t: int)
    ensures StartingAt(GetBookmarkedSessions(allSessions, bookmarkedIds), t) ==
            FilterBookmarked(StartingAt(allSessions, t), bookmarkedIds)
  {
    SortStable(FilterBookmarked(allSessions, bookmarkedIds), t);
    FilterCommutesWithStartingAt(allSessions, bookmarkedIds, t);
  }

  /** No bookmarks, or no sessions, give an empty list. */
  lemma BookmarkedSessionsEmpty(allSessions: seq<Session>, bookmarkedIds: set<SessionId>)
    requires allSessions == [] || bookmarkedIds == {}
    ensures GetBookmarkedSessions(allSessions, bookmarkedIds) == []
  {
    var f := FilterBookmarked(allSessions, bookmarkedIds);
    FilterBookmarkedCounts(allSessions, bookmarkedIds);
    assert multiset(f) == multiset{};
  }

  /** Bookmarked ids that no session carries change nothing. */
  lemma UnmatchedIdsIgnored(allSessions: seq<Session>, bookmarkedIds: set<SessionId>, unmatched: set<SessionId>)
    requires forall i :: 0 <= i < |allSessions| ==> allSessions[i].id !in unmatched
    ensures GetBookmarkedSessions(allSessions, bookmarkedIds + unmatched) ==
            GetBookmarkedSessions(allSessions, bookmarkedIds)
  {
    FilterBookmarkedSameDecisions(allSessions, bookmarkedIds + unmatched, bookmarkedIds);
  }

  /** Applying the transform to its own result with the same ids gives that
      result back. */
  lemma BookmarkedSessionsIdempotent(allSessions: seq<Session>, bookmarkedIds: set<SessionId>)
    ensures GetBookmarkedSessions(GetBookmarkedSessions(allSessions, bookmarkedIds), bookmarkedIds) ==
            GetBookmarkedSessions(allSessions, bookmarkedIds)
  {
    var r := GetBookmarkedSessions(allSessions, bookmarkedIds);
    FilterBookmarkedKeepsAll(r, bookmarkedIds);
    SortSortedIdentity(r);
  }
}
