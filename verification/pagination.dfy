/**
 * The windowed lists of the page: the masters (three cards at a time) and the
 * gallery (five images at a time). Each is a dataset, a cursor `index` and a
 * fixed window size; prev/next move the cursor by one within bounds, the window
 * is the slice starting at the cursor, and the arrow controls are derived from
 * the dataset length, the window size and the cursor.
 */
module Pagination {
  import opened Items

  const MastersVisible: nat := 3
  const GalleryVisible: nat := 5

  /** The largest cursor the transitions reach: `max(0, len - visible)`. */
  function MaxIndex(len: nat, visible: nat): nat {
    if len > visible then len - visible else 0
  }

  /** `xNext`: one step forward while `index < len - visible`. */
  function NextIndex(index: nat, len: nat, visible: nat): (r: nat)
    ensures r == index + 1 || r == index
    ensures r == index + 1 <==> index < len - visible
  {
    if index < len - visible then index + 1 else index
  }

  /** `xPrev`: one step back while `index > 0`. */
  function PrevIndex(index: nat): (r: nat)
    ensures r <= index
    ensures r == index - 1 <==> index > 0
  {
    if index > 0 then index - 1 else index
  }

  /** `Array.prototype.slice(index, index + visible)` for a non-negative index. */
  function WindowOf<T>(data: seq<T>, index: nat, visible: nat): (w: seq<T>)
    ensures |w| <= visible
    ensures index <= |data| ==> |w| <= |data| - index
    ensures forall k :: 0 <= k < |w| ==> index + k < |data| && w[k] == data[index + k]
    ensures index < |data| && visible > 0 ==> w != []
    ensures index <= |data| ==> |w| == (if visible < |data| - index then visible else |data| - index)
    ensures index >= |data| ==> w == []
  {
    if index >= |data| then []
    else if index + visible >= |data| then data[index..]
    else data[index..index + visible]
  }

  /** The arrows block: hidden, or shown with each button enabled or disabled. */
  datatype ArrowState = Hidden | Shown(prevDisabled: bool, nextDisabled: bool)

  /** `updateXArrows`. */
  function ArrowsFor(index: nat, len: nat, visible: nat): (a: ArrowState)
    ensures a.Hidden? <==> len <= visible
    ensures a.Shown? ==> (a.prevDisabled <==> index == 0)
    ensures a.Shown? ==> (a.nextDisabled <==> index + visible >= len)
  {
    if len <= visible then Hidden
    else Shown(index == 0, index >= len - visible)
  }

  /**
   * Within bounds, Next steps forward exactly when the cursor is below the
   * largest index, Prev steps back exactly when it is above 0, and neither
   * leaves the bounds.
   */
  lemma StepsStayInBounds(index: nat, len: nat, visible: nat)
    requires index <= MaxIndex(len, visible)
    ensures NextIndex(index, len, visible) == (if index < MaxIndex(len, visible) then index + 1 else index)
    ensures PrevIndex(index) == (if index > 0 then index - 1 else index)
    ensures NextIndex(index, len, visible) <= MaxIndex(len, visible)
    ensures PrevIndex(index) <= MaxIndex(len, visible)
  {
  }

  /** Next then Prev, and Prev then Next, undo each other wherever the first step moved. */
  lemma StepsUndo(index: nat, len: nat, visible: nat)
    requires index <= MaxIndex(len, visible)
    ensures index < MaxIndex(len, visible) ==> PrevIndex(NextIndex(index, len, visible)) == index
    ensures index > 0 ==> NextIndex(PrevIndex(index), len, visible) == index
  {
  }

  /** The cursor after `k` clicks on next. */
  function NextTimes(index: nat, len: nat, visible: nat, k: nat): nat
    decreases k
  {
    if k == 0 then index else NextTimes(NextIndex(index, len, visible), len, visible, k - 1)
  }

  /** The cursor after `k` clicks on prev. */
  function PrevTimes(index: nat, k: nat): nat
    decreases k
  {
    if k == 0 then index else PrevTimes(PrevIndex(index), k - 1)
  }

  /**
   * `k` clicks on next from an in-bounds cursor move it `k` places, stopping at
   * the largest index: from 0, `len - visible` clicks reach it, and each further
   * click changes nothing.
   */
  lemma {:induction false} NextTimesClamps(index: nat, len: nat, visible: nat, k: nat)
    requires index <= MaxIndex(len, visible)
    ensures NextTimes(index, len, visible, k) ==
      (if index + k < MaxIndex(len, visible) then index + k else MaxIndex(len, visible))
    decreases k
  {
    if k > 0 {
      NextTimesClamps(NextIndex(index, len, visible), len, visible, k - 1);
    }
  }

  /** `k` clicks on prev move the cursor `k` places back, stopping at 0. */
  lemma {:induction false} PrevTimesClamps(index: nat, k: nat)
    ensures PrevTimes(index, k) == if k < index then index - k else 0
    decreases k
  {
    if k > 0 {
      PrevTimesClamps(PrevIndex(index), k - 1);
    }
  }

  /**
   * The arrows are hidden exactly when the whole dataset fits the window, and
   * then neither click moves the cursor; when shown, a button is disabled
   * exactly when its click would change nothing.
   */
  lemma ArrowsMatchSteps(index: nat, len: nat, visible: nat)
    requires index <= MaxIndex(len, visible)
    ensures ArrowsFor(index, len, visible).Hidden? <==> len <= visible
    ensures ArrowsFor(index, len, visible).Hidden? ==>
      NextIndex(index, len, visible) == index && PrevIndex(index) == index
    ensures ArrowsFor(index, len, visible).Shown? ==>
      (ArrowsFor(index, len, visible).prevDisabled <==> PrevIndex(index) == index) &&
      (ArrowsFor(index, len, visible).nextDisabled <==> NextIndex(index, len, visible) == index)
  {
  }

  /** With enough data, every in-bounds window is full. */
  lemma FullWindows<T>(data: seq<T>, index: nat, visible: nat)
    requires index <= MaxIndex(|data|, visible) && visible <= |data|
    ensures |WindowOf(data, index, visible)| == visible
  {
  }

  /** Every item of the dataset is shown in the window of some in-bounds cursor. */
  lemma EveryItemReachable<T>(data: seq<T>, visible: nat, k: nat)
    requires visible > 0 && k < |data|
    ensures var i := if k < MaxIndex(|data|, visible) then k else MaxIndex(|data|, visible);
      i <= MaxIndex(|data|, visible) && i <= k && k - i < |WindowOf(data, i, visible)| &&
      WindowOf(data, i, visible)[k - i] == data[k]
  {
  }

  /** The state of one windowed list. */
  class Paginator<T> {
    var data: seq<T>
    var index: nat
    const visible: nat

    /** The cursor invariant `0 <= index <= max(0, |data| - visible)`. */
    ghost predicate Valid()
      reads this
    {
      index <= MaxIndex(|data|, visible)
    }

    /** The page's initial state: no data yet, cursor at 0. */
    constructor (visible: nat)
      ensures this.visible == visible && data == [] && index == 0
      ensures Valid()
    {
      this.visible := visible;
      data := [];
      index := 0;
    }

    /** `loadX`: the fetched dataset replaces the old one; the cursor is left as it was. */
    method Load(items: seq<T>)
      modifies this
      ensures data == items && index == old(index)
      ensures old(index) == 0 ==> Valid()
    {
      data := items;
    }

    /** `xNext`. */
    method Next()
      modifies this`index
      ensures index == NextIndex(old(index), |data|, visible)
      ensures index == old(index) + 1 || index == old(index)
      ensures old(Valid()) ==> Valid()
    {
      if index < |data| - visible {
        index := index + 1;
      }
    }

    /** `xPrev`. */
    method Prev()
      modifies this`index
      ensures index == PrevIndex(old(index))
      ensures index == old(index) - 1 || index == old(index)
      ensures old(Valid()) ==> Valid()
    {
      if index > 0 {
        index := index - 1;
      }
    }

    /** `renderX`: the items currently shown. */
    method Render() returns (window: seq<T>)
      ensures window == WindowOf(data, index, visible)
      ensures Valid() && visible <= |data| ==> |window| == visible
    {
      var start := if index < |data| then index else |data|;
      var stop := if index + visible < |data| then index + visible else |data|;
      window := data[start..stop];
    }

    /** `updateXArrows`: the arrow state for the current cursor. */
    method UpdateArrows() returns (arrows: ArrowState)
      ensures arrows == ArrowsFor(index, |data|, visible)
      ensures arrows.Hidden? <==> |data| <= visible
      ensures Valid() && arrows.Shown? ==>
        (arrows.prevDisabled <==> PrevIndex(index) == index) &&
        (arrows.nextDisabled <==> NextIndex(index, |data|, visible) == index)
    {
      if |data| <= visible {
        arrows := Hidden;
      } else {
        arrows := Shown(index == 0, index >= |data| - visible);
        if Valid() {
          ArrowsMatchSteps(index, |data|, visible);
        }
      }
    }
  }

  /**
   * Seven masters, three shown: four clicks on next walk the cursor from 0 to
   * 4, a fifth changes nothing, and then only the next button is disabled.
   */
  method MastersWalkthrough(masters: seq<Master>) returns (cursors: seq<nat>, arrows: ArrowState)
    requires |masters| == 7
    ensures cursors == [0, 1, 2, 3, 4, 4]
    ensures arrows == Shown(false, true)
  {
    var list := new Paginator<Master>(MastersVisible);
    list.Load(masters);
    cursors := [list.index];
    list.Next();
    cursors := cursors + [list.index];
    list.Next();
    cursors := cursors + [list.index];
    list.Next();
    cursors := cursors + [list.index];
    list.Next();
    cursors := cursors + [list.index];
    list.Next();
    cursors := cursors + [list.index];
    arrows := list.UpdateArrows();
  }

  /**
   * Five gallery images, five shown: the window holds them all, the arrows are
   * hidden, and a click on next leaves the cursor at 0.
   */
  method GalleryWalkthrough(images: seq<GalleryItem>) returns (window: seq<GalleryItem>, cursor: nat, arrows: ArrowState)
    requires |images| == GalleryVisible
    ensures window == images && cursor == 0 && arrows == Hidden
  {
    var list := new Paginator<GalleryItem>(GalleryVisible);
    list.Load(images);
    list.Next();
    cursor := list.index;
    window := list.Render();
    arrows := list.UpdateArrows();
  }
}
