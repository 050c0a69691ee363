/** `BookmarkItemUiState`: one row of the bookmark list, built from the row's
    position and its session, with the derived fields the row displays. */
module BookmarkItem {
  import opened SessionModel

  const INT32_MIN: int := -0x8000_0000
  const INT32_MAX: int := 0x7fff_ffff

  /** Kotlin's `Int`. */
  newtype Int32 = x: int | -0x8000_0000 <= x < 0x8000_0000

  /** Kotlin's `Int` addition: the exact sum taken modulo 2^32 into the
      signed 32-bit range. */
  function AddInt32(a: Int32, b: Int32): (r: Int32)
    ensures (r as int - (a as int + b as int)) % 0x1_0000_0000 == 0
    ensures INT32_MIN <= a as int + b as int <= INT32_MAX ==> r as int == a as int + b as int
  {
    var sum := a as int + b as int;
    if sum > INT32_MAX then (sum - 0x1_0000_0000) as Int32
    else if sum < INT32_MIN then (sum + 0x1_0000_0000) as Int32
    else sum as Int32
  }

  /** The separator `joinToString` uses when none is given. */
  const Separator: string := ", "

  /** `joinToString(transform = …)` with its other defaults (no prefix, no
      postfix, no limit): the transformed items in order, with the separator
      between neighbours. */
  function JoinToString<T>(items: seq<T>, transform: T -> string): (r: string)
    ensures |items| >= 1 ==> |r| == TotalLength(items, transform) + |Separator| * (|items| - 1)
  {
    if |items| == 0 then ""
    else if |items| == 1 then transform(items[0])
    else transform(items[0]) + Separator + JoinToString(items[1..], transform)
  }

  function TotalLength<T>(items: seq<T>, transform: T -> string): nat {
    if |items| == 0 then 0 else |transform(items[0])| + TotalLength(items[1..], transform)
  }

  /** The label grows left to right: each further item is appended after a
      separator, the way `joinTo` writes into its buffer. */
  lemma {:induction false} JoinToStringAppend<T>(items: seq<T>, last: T, transform: T -> string)
    ensures JoinToString(items + [last], transform) ==
            if |items| == 0 then transform(last) else JoinToString(items, transform) + Separator + transform(last)
  {
    if |items| == 0 {
      assert items + [last] == [last];
    } else if |items| == 1 {
      assert items + [last] == [items[0], last];
    } else {
      assert (items + [last])[1..] == items[1..] + [last];
      JoinToStringAppend(items[1..], last, transform);
    }
  }

  /** Reads a label back: splits at every ", ", scanning left to right. */
  function SplitLabel(text: string): (parts: seq<string>)
    ensures |parts| >= 1
  {
    if text == [] then [""]
    else if |text| >= 2 && text[0] == ',' && text[1] == ' ' then [""] + SplitLabel(text[2..])
    else
      var p := SplitLabel(text[1..]);
      [[text[0]] + p[0]] + p[1..]
  }

  /** `s` does not contain the separator ", ". */
  ghost predicate HasNoSeparator(s: string) {
    forall i :: 0 <= i < |s| - 1 ==> !(s[i] == ',' && s[i + 1] == ' ')
  }

  lemma {:induction false} SplitLabelPrefix(name: string, rest: string)
    requires HasNoSeparator(name)
    requires rest == [] || rest[0] == ','
    ensures SplitLabel(name + rest) == [name + SplitLabel(rest)[0]] + SplitLabel(rest)[1..]
  {
    if name == [] {
      assert name + rest == rest;
      assert name + SplitLabel(rest)[0] == SplitLabel(rest)[0];
      assert SplitLabel(rest) == [SplitLabel(rest)[0]] + SplitLabel(rest)[1..];
    } else {
      assert (name + rest)[1..] == name[1..] + rest;
      assert (name + rest)[0] == name[0];
      if |name| >= 2 {
        assert (name + rest)[1] == name[1];
      }
      SplitLabelPrefix(name[1..], rest);
      assert [name[0]] + (name[1..] + SplitLabel(rest)[0]) == name + SplitLabel(rest)[0];
    }
  }

  /** Round trip: the transformed items are recovered, in order, from their
      joined label, when there is at least one and none contains ", ". */
  lemma {:induction false} SplitJoinRoundTrip<T>(items: seq<T>, transform: T -> string)
    requires |items| >= 1
    requires forall i :: 0 <= i < |items| ==> HasNoSeparator(transform(items[i]))
    ensures |SplitLabel(JoinToString(items, transform))| == |items|
    ensures forall i :: 0 <= i < |items| ==> SplitLabel(JoinToString(items, transform))[i] == transform(items[i])
  {
    var first := transform(items[0]);
    if |items| == 1 {
      SplitLabelPrefix(first, "");
      assert first + "" == first;
    } else {
      var rest := JoinToString(items[1..], transform);
      SplitJoinRoundTrip(items[1..], transform);
      assert (Separator + rest)[2..] == rest;
      var tail := SplitLabel(rest);
      assert SplitLabel(Separator + rest) == [""] + tail;
      assert first + Separator + rest == first + (Separator + rest);
      SplitLabelPrefix(first, Separator + rest);
      assert first + "" == first;
      var parts := SplitLabel(JoinToString(items, transform));
      assert parts == [first] + tail;
      forall i | 1 <= i < |items| ensures parts[i] == transform(items[i]) {
        assert parts[i] == tail[i - 1] == transform(items[1..][i - 1]);
      }
    }
  }

  /** The transform `{ it.name }` applied to a tag. */
  function TagName(tag: Tag): string {
    tag.name
  }

  /** The transform `{ it.name }` applied to a speaker. */
  function SpeakerName(speaker: Speaker): string {
    speaker.name
  }

  datatype BookmarkItemUiState = BookmarkItemUiState(index: Int32, session: Session) {

    /** The 1-based position shown on the row: `index + 1` in Kotlin `Int`.
        Below Int.MAX_VALUE it is the index plus one, so greater than the
        index; at Int.MAX_VALUE it wraps to Int.MIN_VALUE. */
    function Sequence(): (sequence: Int32)
      ensures index as int < INT32_MAX ==> sequence as int == index as int + 1 && sequence > index
      ensures index as int == INT32_MAX ==> sequence as int == INT32_MIN
    {
      AddInt32(index, 1)
    }

    /** `session.tags.joinToString { it.name }`: empty without tags, the one
        name for one tag, and otherwise the label of all tags but the last,
        a separator and the last tag's name. */
    function TagLabel(): (text: string)
      ensures session.tags == [] ==> text == ""
      ensures |session.tags| == 1 ==> text == session.tags[0].name
      ensures |session.tags| >= 2 ==>
              text == JoinToString(session.tags[..|session.tags| - 1], TagName) + Separator +
                       session.tags[|session.tags| - 1].name
    {
      var tags := session.tags;
      if |tags| >= 2 then
        JoinToStringAppend(tags[..|tags| - 1], tags[|tags| - 1], TagName);
        assert tags[..|tags| - 1] + [tags[|tags| - 1]] == tags;
        JoinToString(tags, TagName)
      else
        JoinToString(tags, TagName)
    }

    /** `session.speakers.joinToString { it.name }`, by the same rules. */
    function SpeakerLabel(): (text: string)
      ensures session.speakers == [] ==> text == ""
      ensures |session.speakers| == 1 ==> text == session.speakers[0].name
      ensures |session.speakers| >= 2 ==>
              text == JoinToString(session.speakers[..|session.speakers| - 1], SpeakerName) + Separator +
                       session.speakers[|session.speakers| - 1].name
    {
      var speakers := session.speakers;
      if |speakers| >= 2 then
        JoinToStringAppend(speakers[..|speakers| - 1], speakers[|speakers| - 1], SpeakerName);
        assert speakers[..|speakers| - 1] + [speakers[|speakers| - 1]] == speakers;
        JoinToString(speakers, SpeakerName)
      else
        JoinToString(speakers, SpeakerName)
    }
  }

  /** A name containing ", " makes labels collide: one tag "a, b" and the
      two tags "a" and "b" give the same label. */
  lemma NamesWithSeparatorCollide()
    ensures JoinToString([Tag("a, b")], TagName) == JoinToString([Tag("a"), Tag("b")], TagName)
  {
  }

  /** The tag names can be read back from the tag label, in list order,
      when there is a tag and no tag name contains ", ". */
  lemma TagLabelRoundTrip(item: BookmarkItemUiState)
    requires |item.session.tags| >= 1
    requires forall i :: 0 <= i < |item.session.tags| ==> HasNoSeparator(item.session.tags[i].name)
    ensures |SplitLabel(item.TagLabel())| == |item.session.tags|
    ensures forall i :: 0 <= i < |item.session.tags| ==> SplitLabel(item.TagLabel())[i] == item.session.tags[i].name
  {
    SplitJoinRoundTrip(item.session.tags, TagName);
  }

  /** The speaker names can be read back from the speaker label in the same
      way. */
  lemma SpeakerLabelRoundTrip(item: BookmarkItemUiState)
    requires |item.session.speakers| >= 1
    requires forall i :: 0 <= i < |item.session.speakers| ==> HasNoSeparator(item.session.speakers[i].name)
    ensures |SplitLabel(item.SpeakerLabel())| == |item.session.speakers|
    ensures forall i :: 0 <= i < |item.session.speakers| ==> SplitLabel(item.SpeakerLabel())[i] == item.session.speakers[i].name
  {
    SplitJoinRoundTrip(item.session.speakers, SpeakerName);
  }

  /** The labels are a function of the session alone and the sequence
      number of the index alone. */
  lemma DerivedFieldsDependencies(a: BookmarkItemUiState, b: BookmarkItemUiState)
    ensures a.session == b.session ==> a.TagLabel() == b.TagLabel() && a.SpeakerLabel() == b.SpeakerLabel()
    ensures a.index == b.index ==> a.Sequence() == b.Sequence()
  {
  }
}
