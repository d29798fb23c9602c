/**
 * The pure formatting helpers of the catalog, masters and gallery templates:
 * players, time, tag badges, the masters' systems line and the gallery alt text.
 * Each is paired with a reader that recovers its input from its output.
 */
module Format {
  import opened Optional
  import opened Items
  import opened Text

  const PlayersPrefix := "👥 "
  const TimePrefix := "⏱ "
  const TimeSuffix := " хв"
  /** The en dash between the two ends of a range. */
  const RangeDash := '–'
  const TagOpen := "<span class=\"tag\">"
  const TagClose := "</span>"
  const SystemsSeparator := ", "
  /** The gallery's alt text when an item has none. */
  const DefaultAlt := "Фото клубу"

  /** The number part: one value when both ends agree, else `min–max`. */
  function RangeText(r: Range): (t: string)
    ensures t != []
    ensures RangeDash in t <==> r.min != r.max
  {
    if r.min == r.max then IntToString(r.min)
    else IntToString(r.min) + [RangeDash] + IntToString(r.max)
  }

  /** `formatPlayers`: "" when absent, else the people glyph and the range. */
  function FormatPlayers(players: Option<Range>): (s: string)
    ensures s == "" <==> players.None?
    ensures players.Some? ==> PlayersPrefix <= s
    ensures players.Some? ==> (RangeDash in s <==> players.value.min != players.value.max)
  {
    match players
    case None => ""
    case Some(r) => RangeDashExactlyWhenRange(r); PlayersPrefix + RangeText(r)
  }

  /** `formatTime`: "" when absent, else the clock glyph, the range and the minutes unit. */
  function FormatTime(time: Option<Range>): (s: string)
    ensures s == "" <==> time.None?
    ensures time.Some? ==> |TimePrefix| + |TimeSuffix| < |s| && TimePrefix <= s && s[|s| - |TimeSuffix|..] == TimeSuffix
    ensures time.Some? ==> (RangeDash in s <==> time.value.min != time.value.max)
  {
    match time
    case None => ""
    case Some(r) => RangeDashExactlyWhenRange(r); TimePrefix + RangeText(r) + TimeSuffix
  }

  lemma RangeDashExactlyWhenRange(r: Range)
    ensures RangeDash in PlayersPrefix + RangeText(r) <==> r.min != r.max
    ensures RangeDash in TimePrefix + RangeText(r) + TimeSuffix <==> r.min != r.max
  {
  }

  /** Reads a range text back: split at the first en dash, if any. */
  function ParseRangeText(t: string): Option<Range> {
    match IndexOf(t, RangeDash)
    case None =>
      (match ParseInt(t)
       case None => None
       case Some(v) => Some(Range(v, v)))
    case Some(i) =>
      (match (ParseInt(t[..i]), ParseInt(t[i + 1..]))
       case (Some(lo), Some(hi)) => Some(Range(lo, hi))
       case _ => None)
  }

  /** Reads a players string back; the outer None is a string no players value renders to. */
  function ParsePlayers(s: string): Option<Option<Range>> {
    if s == "" then Some(None)
    else if PlayersPrefix <= s then
      match ParseRangeText(s[|PlayersPrefix|..])
      case None => None
      case Some(r) => Some(Some(r))
    else None
  }

  /** Reads a time string back; the outer None is a string no time value renders to. */
  function ParseTime(s: string): Option<Option<Range>> {
    if s == "" then Some(None)
    else if |TimePrefix| + |TimeSuffix| <= |s| && TimePrefix <= s && s[|s| - |TimeSuffix|..] == TimeSuffix then
      match ParseRangeText(s[|TimePrefix|..|s| - |TimeSuffix|])
      case None => None
      case Some(r) => Some(Some(r))
    else None
  }

  lemma RangeTextRoundTrip(r: Range)
    ensures ParseRangeText(RangeText(r)) == Some(r)
  {
    var lo, hi := IntToString(r.min), IntToString(r.max);
    IntRoundTrip(r.min);
    IntRoundTrip(r.max);
    assert RangeDash !in lo && RangeDash !in hi;
    if r.min != r.max {
      IndexOfAfter(lo, RangeDash, hi);
      var t := RangeText(r);
      assert t[..|lo|] == lo;
      assert t[|lo| + 1..] == hi;
    }
  }

  /** The players text determines the players value: reading it back gives the input. */
  lemma PlayersRoundTrip(players: Option<Range>)
    ensures ParsePlayers(FormatPlayers(players)) == Some(players)
  {
    if players.Some? {
      var s := FormatPlayers(players);
      assert s[|PlayersPrefix|..] == RangeText(players.value);
      RangeTextRoundTrip(players.value);
    }
  }

  /** The time text determines the time value: reading it back gives the input. */
  lemma TimeRoundTrip(time: Option<Range>)
    ensures ParseTime(FormatTime(time)) == Some(time)
  {
    if time.Some? {
      var s := FormatTime(time);
      assert s[|TimePrefix|..|s| - |TimeSuffix|] == RangeText(time.value);
      RangeTextRoundTrip(time.value);
    }
  }

  /** One inline label: the tag between the opening and closing span tags. */
  function TagBadge(tag: string): (badge: string)
    ensures |badge| == |TagOpen| + |tag| + |TagClose|
    ensures TagOpen <= badge && badge[|badge| - |TagClose|..] == TagClose
    ensures BadgeLabel(badge) == tag
  {
    TagOpen + tag + TagClose
  }

  /** One badge per tag, in the order of the tags. */
  function Badges(tags: seq<string>): (badges: seq<string>)
    ensures |badges| == |tags|
    ensures forall i :: 0 <= i < |tags| ==> badges[i] == TagBadge(tags[i])
  {
    if tags == [] then [] else [TagBadge(tags[0])] + Badges(tags[1..])
  }

  /**
   * `formatTags`: nothing when the tags are absent or empty, else the badges
   * that go inside the tags block, one per tag, in order, duplicates kept.
   */
  function FormatTags(tags: Option<seq<string>>): (badges: seq<string>)
    ensures badges == [] <==> tags.None? || tags.value == []
  {
    match tags
    case None => []
    case Some(ts) => Badges(ts)
  }

  /** The label inside a badge. */
  function BadgeLabel(badge: string): string {
    if |TagOpen| + |TagClose| <= |badge| then badge[|TagOpen|..|badge| - |TagClose|] else badge
  }

  function Labels(badges: seq<string>): (labels: seq<string>)
    ensures |labels| == |badges|
    ensures forall i :: 0 <= i < |badges| ==> labels[i] == BadgeLabel(badges[i])
  {
    if badges == [] then [] else [BadgeLabel(badges[0])] + Labels(badges[1..])
  }

  /**
   * The badges carry exactly the tags, in order and with repeats: reading the
   * labels back gives the tag list, or the empty list when the tags are absent.
   */
  lemma TagsRoundTrip(tags: Option<seq<string>>)
    ensures Labels(FormatTags(tags)) == if tags.None? then [] else tags.value
  {
  }

  /** Badges of two tag lists placed one after the other: no reordering, no merging. */
  lemma BadgesAppend(a: seq<string>, b: seq<string>)
    ensures Badges(a + b) == Badges(a) + Badges(b)
  {
  }

  /** `systems.join(", ")`. */
  function JoinSystems(systems: seq<string>): (s: string)
    ensures systems == [] ==> s == ""
    ensures |systems| == 1 ==> s == systems[0]
    ensures systems != [] ==> systems[0] <= s
    ensures CommaFree(systems) ==> (',' in s <==> |systems| > 1)
  {
    if |systems| == 0 then ""
    else if |systems| == 1 then systems[0]
    else systems[0] + SystemsSeparator + JoinSystems(systems[1..])
  }

  /** No system name holds a comma. */
  predicate CommaFree(systems: seq<string>) {
    forall i :: 0 <= i < |systems| ==> ',' !in systems[i]
  }

  /** The separator ", " starts at position `i` of `s`. */
  predicate SeparatorAt(s: string, i: nat) {
    i + 1 < |s| && s[i] == ',' && s[i + 1] == ' '
  }

  /** The position of the first ", " in `s`, if any. */
  function FindSeparator(s: string): (r: Option<nat>)
    ensures r.Some? ==> SeparatorAt(s, r.value) && forall k :: 0 <= k < r.value ==> !SeparatorAt(s, k)
    ensures r.None? ==> forall k :: 0 <= k < |s| ==> !SeparatorAt(s, k)
  {
    if |s| < 2 then None
    else if s[0] == ',' && s[1] == ' ' then Some(0)
    else
      assert !SeparatorAt(s, 0);
      assert forall k :: 1 <= k < |s| ==> (SeparatorAt(s, k) <==> SeparatorAt(s[1..], k - 1));
      match FindSeparator(s[1..])
      case None => None
      case Some(k) => Some(k + 1)
  }

  /** The first ", " of `a + ", " + b` is the one after `a` when `a` has no comma. */
  lemma SeparatorAfter(a: string, b: string)
    requires ',' !in a
    ensures FindSeparator(a + SystemsSeparator + b) == Some(|a|)
  {
    var s := a + SystemsSeparator + b;
    assert SeparatorAt(s, |a|);
    assert forall k :: 0 <= k < |a| ==> s[k] == a[k];
  }

  /** Cuts a systems line at each ", ". */
  function SplitSystems(s: string): seq<string>
    decreases |s|
  {
    match FindSeparator(s)
    case None => [s]
    case Some(i) => [s[..i]] + SplitSystems(s[i + 2..])
  }

  /**
   * The systems line lists the systems in order: when no system name holds a
   * comma, cutting the line at its separators gives the list back.
   */
  lemma {:induction false} SystemsRoundTrip(systems: seq<string>)
    requires systems != [] && CommaFree(systems)
    ensures SplitSystems(JoinSystems(systems)) == systems
    decreases |systems|
  {
    if |systems| > 1 {
      var head, tail := systems[0], JoinSystems(systems[1..]);
      var s := JoinSystems(systems);
      assert s == head + SystemsSeparator + tail;
      SeparatorAfter(head, tail);
      assert s[..|head|] == head;
      assert s[|head| + 2..] == tail;
      SystemsRoundTrip(systems[1..]);
      assert systems == [head] + systems[1..];
    }
  }

  /** `item.alt || "Фото клубу"`: an absent or empty alt falls back to the default. */
  function AltText(alt: Option<string>): (text: string)
    ensures text != ""
    ensures alt.Some? && alt.value != "" ==> text == alt.value
    ensures alt.None? || alt.value == "" ==> text == DefaultAlt
  {
    match alt
    case Some(a) => if a != "" then a else DefaultAlt
    case None => DefaultAlt
  }
}
