/**
 * The pure part of the card-stack page (src/app/page.tsx): which animation
 * target each card slot gets, and which slots are rendered at all.
 */
module CardStack {
  import opened Wrappers

  /** The names of the card variants: five resting positions and eight moves between them. */
  datatype Target =
    | Behind | Prev | Current | Next | Front
    | AnimatePrevToBehind | AnimateCurrentToPrev | AnimateNextToCurrent | AnimateFrontToNext
    | AnimateNextToFront | AnimateCurrentToNext | AnimatePrevToCurrent | AnimateBehindToPrev
  {
    /** A resting position, as opposed to a move between two of them. */
    predicate IsSteady() {
      Behind? || Prev? || Current? || Next? || Front?
    }

    /** Top-to-bottom place of a resting position in the stack. */
    function Rank(): (r: nat)
      requires IsSteady()
      ensures r <= 4
      ensures r == 2 <==> Current?
    {
      match this
      case Behind => 0
      case Prev => 1
      case Current => 2
      case Next => 3
      case Front => 4
    }

    /** The resting position a move starts from (a resting position starts from itself). */
    function Origin(): (r: Target)
      ensures r.IsSteady()
      ensures IsSteady() ==> r == this
    {
      match this
      case AnimatePrevToBehind => Prev
      case AnimateCurrentToPrev => Current
      case AnimateNextToCurrent => Next
      case AnimateFrontToNext => Front
      case AnimateNextToFront => Next
      case AnimateCurrentToNext => Current
      case AnimatePrevToCurrent => Prev
      case AnimateBehindToPrev => Behind
      case _ => this
    }

    /** The resting position a move ends in (a resting position ends in itself). */
    function Destination(): (r: Target)
      ensures r.IsSteady()
      ensures IsSteady() ==> r == this
    {
      match this
      case AnimatePrevToBehind => Behind
      case AnimateCurrentToPrev => Prev
      case AnimateNextToCurrent => Current
      case AnimateFrontToNext => Next
      case AnimateNextToFront => Front
      case AnimateCurrentToNext => Next
      case AnimatePrevToCurrent => Current
      case AnimateBehindToPrev => Prev
      case _ => this
    }
  }

  // ---------------------------------------------------------------------------
  // getCardAnimationTarget
  // ---------------------------------------------------------------------------

  /**
   * The branch taken while an animation runs: keyed by the slot's place
   * relative to the previous index and by the sign of the scroll direction.
   * None means the code falls through to the resting table.
   */
  function MovingTarget(slot: int, current: int, previous: int): (r: Option<Target>)
    ensures r.Some? <==> current != previous
    ensures current > previous ==>
              && r.Some?
              && (r.value == AnimatePrevToBehind <==> slot == previous - 1)
              && (r.value == AnimateCurrentToPrev <==> slot == previous)
              && (r.value == AnimateNextToCurrent <==> slot == previous + 1)
              && (r.value == AnimateFrontToNext <==> slot == previous + 2)
              && (r.value == Behind <==> slot < previous - 1)
              && (r.value == Front <==> slot > previous + 2)
    ensures current < previous ==>
              && r.Some?
              && (r.value == AnimateNextToFront <==> slot == previous + 1)
              && (r.value == AnimateCurrentToNext <==> slot == previous)
              && (r.value == AnimatePrevToCurrent <==> slot == previous - 1)
              && (r.value == AnimateBehindToPrev <==> slot == previous - 2)
              && (r.value == Front <==> slot > previous + 1)
              && (r.value == Behind <==> slot < previous - 2)
  {
    var direction := current - previous;
    if direction > 0 then
      if slot == previous - 1 then Some(AnimatePrevToBehind)
      else if slot == previous then Some(AnimateCurrentToPrev)
      else if slot == previous + 1 then Some(AnimateNextToCurrent)
      else if slot == previous + 2 then Some(AnimateFrontToNext)
      else if slot < previous - 1 then Some(Behind)
      else if slot > previous + 2 then Some(Front)
      else None
    else if direction < 0 then
      if slot == previous + 1 then Some(AnimateNextToFront)
      else if slot == previous then Some(AnimateCurrentToNext)
      else if slot == previous - 1 then Some(AnimatePrevToCurrent)
      else if slot == previous - 2 then Some(AnimateBehindToPrev)
      else if slot > previous + 1 then Some(Front)
      else if slot < previous - 2 then Some(Behind)
      else None
    else
      None
  }

  /**
   * The resting table, keyed by the slot's offset from the current index.
   * The final `Front` is the code's catch-all return, which no slot reaches.
   */
  function RestingTarget(slot: int, current: int): (r: Target)
    ensures r.IsSteady()
    ensures r == Prev <==> slot - current == -1
    ensures r == Current <==> slot == current
    ensures r == Next <==> slot - current == 1
    ensures r == Behind <==> slot - current < -1
    ensures r == Front <==> slot - current > 1
  {
    if slot == current - 1 then Prev
    else if slot == current then Current
    else if slot == current + 1 then Next
    else if slot < current - 1 then Behind
    else if slot > current + 1 then Front
    else Front
  }

  /** getCardAnimationTarget: the variant a card at index `slot` animates to. */
  function CardAnimationTarget(slot: int, current: int, previous: int, animating: bool): (r: Target)
    ensures !animating || current == previous ==> r.IsSteady() && r == RestingTarget(slot, current)
    ensures animating && current != previous ==> r == MovingTarget(slot, current, previous).value
  {
    var moving := if animating then MovingTarget(slot, current, previous) else None;
    if moving.Some? then moving.value else RestingTarget(slot, current)
  }

  /** Every slot reaches one of the five resting guards, so the catch-all return is dead code. */
  lemma RestingGuardsAreExhaustive(slot: int, current: int)
    ensures slot == current - 1 || slot == current || slot == current + 1 ||
            slot < current - 1 || slot > current + 1
  {
  }

  /** At rest the target depends only on the offset `slot - current`. */
  lemma RestingDependsOnlyOnOffset(slot: int, current: int, previous: int, shift: int, otherPrevious: int)
    ensures CardAnimationTarget(slot, current, previous, false)
         == CardAnimationTarget(slot + shift, current + shift, otherPrevious, false)
  {
  }

  /** Every move starts where the card rested before the index changed: there is no jump at the start. */
  lemma {:induction false} MoveStartsAtPreviousRest(slot: int, current: int, previous: int)
    ensures CardAnimationTarget(slot, current, previous, true).Origin() == RestingTarget(slot, previous)
  {
    var t := CardAnimationTarget(slot, current, previous, true);
    if current > previous {
      assert t == MovingTarget(slot, current, previous).value;
    } else if current < previous {
      assert t == MovingTarget(slot, current, previous).value;
    }
  }

  /**
   * The moves end exactly where the cards rest once the animation flag clears
   * if and only if the index moved by at most one; after a jump of two or more
   * the newly focused card is still shown as "next" or "prev" (or further) at
   * the end of the move and snaps into place when the flag clears.
   */
  lemma {:induction false} MoveEndsAtNewRestIffSingleStep(current: int, previous: int)
    ensures (forall slot :: CardAnimationTarget(slot, current, previous, true).Destination()
                            == CardAnimationTarget(slot, current, previous, false))
        <==> -1 <= current - previous <= 1
  {
    if -1 <= current - previous <= 1 {
      forall slot
        ensures CardAnimationTarget(slot, current, previous, true).Destination()
             == CardAnimationTarget(slot, current, previous, false)
      {
        var t := CardAnimationTarget(slot, current, previous, true);
        if current != previous {
          assert t == MovingTarget(slot, current, previous).value;
        }
      }
    } else {
      var t := CardAnimationTarget(current, current, previous, true);
      assert t == MovingTarget(current, current, previous).value;
      assert t.Destination() != Current;
    }
  }

  /** Cards never cross: a lower slot never starts below a higher one. */
  lemma {:induction false} OriginsKeepStackOrder(lower: int, upper: int, current: int, previous: int)
    requires lower <= upper
    ensures CardAnimationTarget(lower, current, previous, true).Origin().Rank()
         <= CardAnimationTarget(upper, current, previous, true).Origin().Rank()
  {
    MoveStartsAtPreviousRest(lower, current, previous);
    MoveStartsAtPreviousRest(upper, current, previous);
  }

  /** Cards never cross: a lower slot never ends below a higher one, whatever the jump. */
  lemma {:induction false} DestinationsKeepStackOrder(lower: int, upper: int, current: int, previous: int)
    requires lower <= upper
    ensures CardAnimationTarget(lower, current, previous, true).Destination().Rank()
         <= CardAnimationTarget(upper, current, previous, true).Destination().Rank()
  {
    var a := CardAnimationTarget(lower, current, previous, true);
    var b := CardAnimationTarget(upper, current, previous, true);
    if current != previous {
      assert a == MovingTarget(lower, current, previous).value;
      assert b == MovingTarget(upper, current, previous).value;
    }
  }

  // ---------------------------------------------------------------------------
  // renderIndices
  // ---------------------------------------------------------------------------

  /** How many slots the page renders at most. */
  const WindowSize := 5

  function Min(a: int, b: int): int { if a <= b then a else b }
  function Max(a: int, b: int): int { if a >= b then a else b }

  /** The indices lo, lo+1, ..., hi-1 (empty when hi <= lo). */
  function Interval(lo: int, hi: int): (r: seq<int>)
    decreases hi - lo
  {
    if lo >= hi then [] else [lo] + Interval(lo + 1, hi)
  }

  lemma {:induction false} IntervalAt(lo: int, hi: int)
    ensures |Interval(lo, hi)| == Max(hi - lo, 0)
    ensures forall k :: 0 <= k < |Interval(lo, hi)| ==> Interval(lo, hi)[k] == lo + k
    decreases hi - lo
  {
    if lo < hi {
      IntervalAt(lo + 1, hi);
    }
  }

  /** The `.filter(idx => idx >= 0 && idx < scripts.length)` step. */
  function KeepInRange(s: seq<int>, count: int): (r: seq<int>)
    ensures |r| <= |s|
    ensures forall k :: 0 <= k < |r| ==> 0 <= r[k] < count
    ensures forall x :: x in r <==> x in s && 0 <= x < count
  {
    if s == [] then []
    else (if 0 <= s[0] < count then [s[0]] else []) + KeepInRange(s[1..], count)
  }

  /** The filter works element by element: it keeps order and distributes over concatenation. */
  lemma {:induction false} KeepInRangeConcat(a: seq<int>, b: seq<int>, count: int)
    ensures KeepInRange(a + b, count) == KeepInRange(a, count) + KeepInRange(b, count)
  {
    if a != [] {
      KeepInRangeConcat(a[1..], b, count);
      assert (a + b)[0] == a[0];
      assert (a + b)[1..] == a[1..] + b;
      var head := if 0 <= a[0] < count then [a[0]] else [];
      assert KeepInRange(a, count) == head + KeepInRange(a[1..], count);
      assert KeepInRange(a + b, count) == head + KeepInRange(a[1..] + b, count);
    } else {
      assert a + b == b;
    }
  }

  /** The filter cuts an interval down to its intersection with [0, count). */
  lemma {:induction false} KeepIntervalInRange(lo: int, hi: int, count: int)
    ensures KeepInRange(Interval(lo, hi), count) == Interval(Max(lo, 0), Min(hi, count))
    decreases hi - lo
  {
    if lo < hi {
      KeepIntervalInRange(lo + 1, hi, count);
      assert Interval(lo, hi)[1..] == Interval(lo + 1, hi);
      if lo < 0 {
        assert Max(lo + 1, 0) == 0;
      } else if lo < count {
        assert Interval(lo, Min(hi, count)) == [lo] + Interval(lo + 1, Min(hi, count));
      } else {
        assert Interval(lo, Min(hi, count)) == [];
        assert Interval(lo + 1, Min(hi, count)) == [];
      }
    }
  }

  /** The `base` that Array.from computes for position i of the window: the window's start plus i. */
  function WindowBase(i: int, current: int, count: int): (r: int)
    ensures r == WindowStart(current, count) + i
  {
    if count <= 3 then i
    else if current < 2 then i
    else if current > count - 3 then count - 5 + i
    else current - 2 + i
  }

  /** renderIndices as written: Array.from over min(count, 5) positions, then the range filter. */
  function RenderIndices(current: int, count: nat): (r: seq<int>)
    ensures |r| <= Min(count, WindowSize)
    ensures forall k :: 0 <= k < |r| ==> 0 <= r[k] < count
  {
    KeepInRange(seq(Min(count, WindowSize), i => WindowBase(i, current, count)), count)
  }

  /** The first position of the window, before filtering. */
  function WindowStart(current: int, count: int): int {
    if count <= 3 || current < 2 then 0
    else if current > count - 3 then count - 5
    else current - 2
  }

  /** The window is the interval of in-range indices from the clamped start. */
  lemma {:induction false} RenderIndicesIsInterval(current: int, count: nat)
    ensures RenderIndices(current, count)
         == Interval(Max(WindowStart(current, count), 0),
                     Min(WindowStart(current, count) + Min(count, WindowSize), count))
  {
    var start := WindowStart(current, count);
    var n := Min(count, WindowSize);
    WindowPositionsAreInterval(current, count);
    KeepIntervalInRange(start, start + n, count);
  }

  /** Before the filter, the window as written is the interval from its start. */
  lemma WindowPositionsAreInterval(current: int, count: nat)
    ensures var start := WindowStart(current, count);
      seq(Min(count, WindowSize), i => WindowBase(i, current, count))
        == Interval(start, start + Min(count, WindowSize))
  {
    var start := WindowStart(current, count);
    var n := Min(count, WindowSize);
    IntervalAt(start, start + n);
    assert seq(n, i => WindowBase(i, current, count)) == Interval(start, start + n);
  }

  /** What every rendered window satisfies: in range, consecutive, at most min(count, 5) slots. */
  lemma {:induction false} RenderIndicesShape(current: int, count: nat)
    ensures var r := RenderIndices(current, count);
      && |r| <= Min(count, WindowSize)
      && (forall k :: 0 <= k < |r| ==> 0 <= r[k] < count)
      && (forall k :: 0 < k < |r| ==> r[k] == r[k - 1] + 1)
  {
    RenderIndicesIsInterval(current, count);
    var start := WindowStart(current, count);
    IntervalAt(Max(start, 0), Min(start + Min(count, WindowSize), count));
  }

  /** With three cards or fewer every card is rendered, in order. */
  lemma {:induction false} SmallListsRenderEverything(current: int, count: nat)
    requires count <= 3
    ensures RenderIndices(current, count) == Interval(0, count)
  {
    RenderIndicesIsInterval(current, count);
  }

  /** With five cards or more exactly five slots are rendered and the focused card is one of them. */
  lemma {:induction false} LargeListsRenderFiveAroundCurrent(current: int, count: nat)
    requires count >= 5 && 0 <= current < count
    ensures |RenderIndices(current, count)| == 5
    ensures current in RenderIndices(current, count)
  {
    RenderIndicesIsInterval(current, count);
    var start := WindowStart(current, count);
    assert 0 <= start && start + 5 <= count && start <= current < start + 5;
    assert RenderIndices(current, count) == Interval(start, start + 5);
    IntervalInsideList(RenderIndices(current, count), start, 5, current, count);
  }

  /**
   * With exactly four cards and the last one focused, the window is [0, 1, 2]:
   * the `count - 5 + i` branch starts at -1 and the filter drops it, so the
   * focused card is not rendered.
   */
  lemma FourCardsHideFocusedLastCard()
    ensures RenderIndices(3, 4) == [0, 1, 2]
    ensures 3 !in RenderIndices(3, 4)
    ensures RenderIndices(2, 4) == [0, 1, 2]
  {
    RenderIndicesIsInterval(3, 4);
    RenderIndicesIsInterval(2, 4);
    assert Interval(0, 3) == [0, 1, 2];
  }

  /** The window as evidently intended: the end-of-list branch never starts before index 0. */
  function IntendedWindowStart(current: int, count: int): int {
    if count <= 3 || current < 2 then 0
    else if current > count - 3 then Max(count - 5, 0)
    else current - 2
  }

  /** renderIndices with the end-of-list start clamped at 0. */
  function IntendedRenderIndices(current: int, count: nat): seq<int> {
    var start := IntendedWindowStart(current, count);
    KeepInRange(seq(Min(count, WindowSize), i => start + i), count)
  }

  /** The intended start keeps the whole window inside the list and around the focused card. */
  lemma IntendedStartFits(current: int, count: nat)
    requires 0 <= current < count
    ensures var start := IntendedWindowStart(current, count);
      && 0 <= start && start + Min(count, WindowSize) <= count
      && start <= current < start + Min(count, WindowSize)
  {
  }

  /** Before the filter, the intended window is the interval from its start. */
  lemma IntendedPositionsAreInterval(current: int, count: nat)
    ensures var start := IntendedWindowStart(current, count);
      IntendedRenderIndices(current, count)
        == KeepInRange(Interval(start, start + Min(count, WindowSize)), count)
  {
    var start := IntendedWindowStart(current, count);
    var n := Min(count, WindowSize);
    IntervalAt(start, start + n);
    assert seq(n, i => start + i) == Interval(start, start + n);
  }

  /** The intended window, after the filter, is the whole interval from its start. */
  lemma IntendedWindowIsInterval(current: int, count: nat)
    requires 0 <= current < count
    ensures var start := IntendedWindowStart(current, count);
      IntendedRenderIndices(current, count) == Interval(start, start + Min(count, WindowSize))
  {
    var start := IntendedWindowStart(current, count);
    var n := Min(count, WindowSize);
    IntendedStartFits(current, count);
    IntendedPositionsAreInterval(current, count);
    KeepIntervalInRange(start, start + n, count);
    assert Max(start, 0) == start && Min(start + n, count) == start + n;
  }

  /** The intended window always holds min(count, 5) consecutive slots including the focused card. */
  lemma {:induction false} IntendedWindowShowsCurrent(current: int, count: nat)
    requires 0 <= current < count
    ensures var r := IntendedRenderIndices(current, count);
      && |r| == Min(count, WindowSize)
      && current in r
      && (forall k :: 0 <= k < |r| ==> 0 <= r[k] < count)
      && (forall k :: 0 < k < |r| ==> r[k] == r[k - 1] + 1)
  {
    var start := IntendedWindowStart(current, count);
    var n := Min(count, WindowSize);
    IntendedStartFits(current, count);
    IntendedWindowIsInterval(current, count);
    IntervalInsideList(IntendedRenderIndices(current, count), start, n, current, count);
  }

  /** An interval of n slots lying inside [0, count) around current: its length, members and order. */
  lemma IntervalInsideList(r: seq<int>, start: int, n: nat, current: int, count: int)
    requires r == Interval(start, start + n)
    requires 0 <= start && start + n <= count && start <= current < start + n
    ensures |r| == n && current in r
    ensures forall k :: 0 <= k < |r| ==> 0 <= r[k] < count
    ensures forall k :: 0 < k < |r| ==> r[k] == r[k - 1] + 1
  {
    IntervalAt(start, start + n);
    assert r[current - start] == current;
  }
}
