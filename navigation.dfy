/**
 * The navigation state machine of the card-stack page (src/app/page.tsx):
 * the four state cells `currentIndex`, `prevCurrentIndex`, `expandedCardId`
 * and `isAnimating`, the events that change them, and the two timers of the
 * page as explicit events (the 150 ms collapse delay and the end of the
 * animation window).
 */
module Navigation {
  import opened Wrappers
  import opened Types

  /** Offset beyond which a drag navigates, in pixels (DRAG_THRESHOLD_MODIFIED). */
  const DragThreshold: real := 50.0
  /** Velocity beyond which a drag navigates, in pixels per second. */
  const VelocityThreshold: real := 300.0
  /** Delay between collapsing an expanded card and moving the index, in ms. */
  const CollapseDelayMs: real := 150.0
  /** Spring stiffness of the card transition. */
  const Stiffness: real := 300.0
  /** The heuristic animation window: (1000 / stiffness) * 5 + 300 ms. */
  const AnimationDurationMs: real := 1000.0 / Stiffness * 5.0 + 300.0

  /** The collapse timer always fires before the animation-end timer of the same navigation. */
  lemma CollapseDelayEndsFirst()
    ensures CollapseDelayMs < AnimationDurationMs
  {
  }

  /**
   * The page's navigation state. `pendingStep` is the index step the collapse
   * timer will apply, when that timer is armed.
   */
  datatype NavState = NavState(
    current: int,
    previous: int,
    expanded: Option<CardId>,
    animating: bool,
    pendingStep: Option<int>)

  /** The state of the first render: everything at zero, nothing expanded, nothing moving. */
  const Initial := NavState(0, 0, None, false, None)

  /** An index the page may hold: in range, or 0 while the list is empty. */
  predicate IndexOk(cards: seq<Script>, i: int) {
    if |cards| == 0 then i == 0 else 0 <= i < |cards|
  }

  /**
   * What every reachable state satisfies: both indices are usable, only the
   * focused card can be expanded, and a step is pending only during an
   * animation that collapsed the card it started from.
   */
  predicate ValidState(cards: seq<Script>, s: NavState) {
    && IndexOk(cards, s.current)
    && IndexOk(cards, s.previous)
    && (s.expanded.Some? ==> |cards| > 0 && s.expanded.value == cards[s.current].id)
    && (s.pendingStep.Some? ==> s.animating && s.expanded.None?)
  }

  lemma InitialIsValid(cards: seq<Script>)
    ensures ValidState(cards, Initial)
  {
  }

  /** The clamped step of the `setCurrentIndex` updater: move only if the target index exists. */
  function SteppedIndex(index: int, direction: int, count: int): (r: int)
    ensures 0 <= index < count ==> 0 <= r < count
    ensures r == index || r == index + direction
    ensures r == index + direction <==> 0 <= index + direction < count || direction == 0
    ensures direction > 0 ==> r >= index
    ensures direction < 0 ==> r <= index
  {
    var newIndex := index + direction;
    if newIndex >= 0 && newIndex < count then newIndex else index
  }

  /** findIndex over the card ids: the first card with this id, or -1. */
  function FindIndex(cards: seq<Script>, id: CardId): (r: int)
    ensures -1 <= r < |cards|
    ensures r == -1 <==> forall k :: 0 <= k < |cards| ==> cards[k].id != id
    ensures r >= 0 ==> cards[r].id == id && forall k :: 0 <= k < r ==> cards[k].id != id
  {
    FirstIndex(cards, (c: Script) => c.id == id)
  }

  /** navigate(direction): the state right after the call (the step may still be pending). */
  function Navigated(cards: seq<Script>, s: NavState, direction: int): (r: NavState)
    requires ValidState(cards, s)
    ensures ValidState(cards, r)
    ensures |cards| == 0 || s.animating ==> r == s
    ensures |cards| > 0 && !s.animating ==>
              && r.animating
              && r.previous == s.current
              && r.expanded.None?
              && (s.expanded.Some? ==> r.current == s.current && r.pendingStep == Some(direction))
              && (s.expanded.None? ==>
                    r.current == SteppedIndex(s.current, direction, |cards|) && r.pendingStep.None?)
  {
    if |cards| == 0 || s.animating then s
    else if s.expanded.Some? then
      s.(animating := true, previous := s.current, expanded := None, pendingStep := Some(direction))
    else
      s.(animating := true, previous := s.current,
         current := SteppedIndex(s.current, direction, |cards|))
  }

  /** The collapse timer fires: the deferred step is applied to the index it finds. */
  function StepApplied(cards: seq<Script>, s: NavState): (r: NavState)
    requires ValidState(cards, s) && s.pendingStep.Some?
    ensures ValidState(cards, r)
    ensures r.pendingStep.None? && r.animating
    ensures r.current == SteppedIndex(s.current, s.pendingStep.value, |cards|)
    ensures r.previous == s.previous && r.expanded == s.expanded
  {
    s.(current := SteppedIndex(s.current, s.pendingStep.value, |cards|), pendingStep := None)
  }

  /** The animation-end timer fires: only the animation flag changes. */
  function Settled(cards: seq<Script>, s: NavState): (r: NavState)
    requires ValidState(cards, s) && s.pendingStep.None?
    ensures ValidState(cards, r)
    ensures !r.animating
    ensures r.current == s.current && r.previous == s.previous && r.expanded == s.expanded
    ensures r.pendingStep.None?
  {
    s.(animating := false)
  }

  /** The drag thresholds: +1 for a swipe up, -1 for a swipe down, 0 for no navigation. */
  function DragDirection(offset: real, velocity: real): (d: int)
    ensures -1 <= d <= 1
    ensures d == 1 <==> offset < -DragThreshold || velocity < -VelocityThreshold
    ensures d == -1 <==>
              !(offset < -DragThreshold || velocity < -VelocityThreshold) &&
              (offset > DragThreshold || velocity > VelocityThreshold)
  {
    if offset < -DragThreshold || velocity < -VelocityThreshold then 1
    else if offset > DragThreshold || velocity > VelocityThreshold then -1
    else 0
  }

  /** A drag navigates if and only if it leaves the closed box of thresholds. */
  lemma DragStaysIffWithinThresholds(offset: real, velocity: real)
    ensures DragDirection(offset, velocity) == 0
        <==> -DragThreshold <= offset <= DragThreshold && -VelocityThreshold <= velocity <= VelocityThreshold
  {
  }

  /** Mirroring a gesture mirrors the direction, unless the gesture points both ways. */
  lemma DragMirrorsUnlessConflicting(offset: real, velocity: real)
    requires !(offset < -DragThreshold && velocity > VelocityThreshold)
    requires !(offset > DragThreshold && velocity < -VelocityThreshold)
    ensures DragDirection(-offset, -velocity) == -DragDirection(offset, velocity)
  {
  }

  /** A gesture that points both ways (offset up, velocity down, or the reverse) always goes forward. */
  lemma ConflictingDragGoesForward(offset: real, velocity: real)
    requires (offset < -DragThreshold && velocity > VelocityThreshold)
          || (offset > DragThreshold && velocity < -VelocityThreshold)
    ensures DragDirection(offset, velocity) == 1
    ensures DragDirection(-offset, -velocity) == 1
  {
  }

  /** handleDragEnd: ignored while animating, otherwise the thresholds pick a navigation. */
  function DragReleased(cards: seq<Script>, s: NavState, offset: real, velocity: real): (r: NavState)
    requires ValidState(cards, s)
    ensures ValidState(cards, r)
    ensures s.animating || DragDirection(offset, velocity) == 0 ==> r == s
    ensures !s.animating && DragDirection(offset, velocity) != 0 ==>
              r == Navigated(cards, s, DragDirection(offset, velocity))
  {
    if s.animating then s
    else
      var d := DragDirection(offset, velocity);
      if d == 1 then Navigated(cards, s, 1)
      else if d == -1 then Navigated(cards, s, -1)
      else s
  }

  /** handleCardTap: jump to another card, or toggle expansion of the focused one. */
  function Tapped(cards: seq<Script>, s: NavState, id: CardId): (r: NavState)
    requires ValidState(cards, s)
    ensures ValidState(cards, r)
    ensures s.animating ==> r == s
    ensures FindIndex(cards, id) == -1 ==> r == s
  {
    if s.animating then s
    else
      var k := FindIndex(cards, id);
      if k != -1 && k != s.current then
        s.(expanded := None, animating := true, previous := s.current, current := k)
      else if k == s.current then
        s.(expanded := if s.expanded == Some(id) then None else Some(id))
      else s
  }

  /**
   * The tap for any card list, repeated ids included: it acts on the first
   * card with the id, jumping there or toggling expansion when that card is
   * the focused one.
   */
  lemma TapActsOnFirstCopy(cards: seq<Script>, s: NavState, id: CardId)
    requires ValidState(cards, s) && !s.animating
    ensures var k := FindIndex(cards, id);
      k != -1 && k != s.current ==>
        Tapped(cards, s, id) == s.(expanded := None, animating := true, previous := s.current, current := k)
    ensures FindIndex(cards, id) == s.current ==>
      Tapped(cards, s, id) == s.(expanded := if s.expanded == Some(id) then None else Some(id))
  {
  }

  /** Tapping another card jumps straight to it and starts a transition from the old index. */
  lemma TapOtherCardJumps(cards: seq<Script>, s: NavState, k: int)
    requires ValidState(cards, s) && !s.animating
    requires 0 <= k < |cards| && k != s.current && UniqueCardIds(cards)
    ensures var r := Tapped(cards, s, cards[k].id);
      && r.current == k && r.previous == s.current && r.animating && r.expanded.None?
  {
    assert FindIndex(cards, cards[k].id) == k;
  }

  /** Tapping the focused card toggles its expansion and moves nothing. */
  lemma TapFocusedCardToggles(cards: seq<Script>, s: NavState)
    requires ValidState(cards, s) && !s.animating && |cards| > 0 && UniqueCardIds(cards)
    ensures var id := cards[s.current].id;
      var r := Tapped(cards, s, id);
      && r.current == s.current && r.previous == s.previous && !r.animating
      && (r.expanded == Some(id) <==> s.expanded.None?)
      && (r.expanded.None? <==> s.expanded == Some(id))
  {
    assert FindIndex(cards, cards[s.current].id) == s.current;
  }

  /** Tapping the focused card twice restores the state exactly. */
  lemma TapFocusedCardTwiceRestores(cards: seq<Script>, s: NavState)
    requires ValidState(cards, s) && !s.animating && |cards| > 0 && UniqueCardIds(cards)
    ensures var id := cards[s.current].id;
      Tapped(cards, Tapped(cards, s, id), id) == s
  {
    var id := cards[s.current].id;
    assert FindIndex(cards, id) == s.current;
  }

  /** With a repeated id, tapping the focused later copy jumps back to the first copy. */
  lemma DuplicateIdTapJumpsToFirstCopy(cards: seq<Script>, s: NavState, j: int)
    requires ValidState(cards, s) && !s.animating
    requires 0 <= j < s.current < |cards| && cards[j].id == cards[s.current].id
    ensures FindIndex(cards, cards[s.current].id) <= j
    ensures Tapped(cards, s, cards[s.current].id).current == FindIndex(cards, cards[s.current].id)
  {
  }

  /**
   * Collapsing first and stepping later ends on the same index as stepping at
   * once from the collapsed state: the 150 ms detour changes only the timing.
   */
  lemma DeferredStepMatchesImmediateStep(cards: seq<Script>, s: NavState, direction: int)
    requires ValidState(cards, s) && |cards| > 0 && !s.animating && s.expanded.Some?
    ensures var deferred := StepApplied(cards, Navigated(cards, s, direction));
      deferred == Navigated(cards, s.(expanded := None), direction)
  {
  }

  /** A navigation that is accepted and then completes (step applied, flag cleared) keeps the index in range and never wraps. */
  lemma NavigationRoundTrip(cards: seq<Script>, s: NavState, direction: int)
    requires ValidState(cards, s) && |cards| > 0 && !s.animating
    ensures var n := Navigated(cards, s, direction);
      var stepped := if n.pendingStep.Some? then StepApplied(cards, n) else n;
      var done := Settled(cards, stepped);
      && !done.animating && done.expanded.None? && done.previous == s.current
      && done.current == SteppedIndex(s.current, direction, |cards|)
      && 0 <= done.current < |cards|
  {
  }

  /** The "previous" button is disabled at the first card, when a card is expanded, or while animating. */
  predicate PrevDisabled(cards: seq<Script>, s: NavState) {
    s.current == 0 || s.expanded.Some? || s.animating
  }

  /** The "next" button is disabled at the last card, when a card is expanded, or while animating. */
  predicate NextDisabled(cards: seq<Script>, s: NavState) {
    s.current == |cards| - 1 || s.expanded.Some? || s.animating
  }

  /**
   * With a non-empty list, a button is enabled exactly when pressing it
   * moves the index by one in its direction at once. While a card is
   * expanded both are disabled, and a press only leaves the step pending.
   */
  lemma {:induction false} ButtonsEnabledIffTheyMove(cards: seq<Script>, s: NavState)
    requires ValidState(cards, s) && |cards| > 0
    ensures !PrevDisabled(cards, s) <==> Navigated(cards, s, -1).current == s.current - 1
    ensures !NextDisabled(cards, s) <==> Navigated(cards, s, 1).current == s.current + 1
  {
    if !s.animating && s.expanded.None? {
      assert Navigated(cards, s, -1).current == SteppedIndex(s.current, -1, |cards|);
      assert Navigated(cards, s, 1).current == SteppedIndex(s.current, 1, |cards|);
    }
  }

  /** From the first of three cards: back is refused, two steps forward reach the last card, a third is refused. */
  lemma ThreeCardScenario(cards: seq<Script>)
    requires |cards| == 3
    ensures var s0 := Navigated(cards, Initial, -1);
      && s0.current == 0 && s0.previous == 0
      && var s1 := Navigated(cards, Settled(cards, s0), 1);
      && s1.current == 1
      && var s2 := Navigated(cards, Settled(cards, s1), 1);
      && s2.current == 2
      && var s3 := Navigated(cards, Settled(cards, s2), 1);
      && s3.current == 2 && s3.previous == 2
  {
  }

  /**
   * The page's state cells. The methods update them the way the React
   * setters do; each one is specified by the transition function above.
   */
  class HomePage {
    const scripts: seq<Script>
    var currentIndex: int
    var prevCurrentIndex: int
    var expandedCardId: Option<CardId>
    var isAnimating: bool
    /** The step the armed collapse timer will apply, if that timer is armed. */
    var pendingStep: Option<int>

    function State(): NavState
      reads this
    {
      NavState(currentIndex, prevCurrentIndex, expandedCardId, isAnimating, pendingStep)
    }

    ghost predicate Valid()
      reads this
    {
      ValidState(scripts, State())
    }

    /** The page once the card list has been loaded. */
    constructor (loaded: seq<Script>)
      ensures Valid() && scripts == loaded && State() == Initial
    {
      scripts := loaded;
      currentIndex, prevCurrentIndex := 0, 0;
      expandedCardId := None;
      isAnimating := false;
      pendingStep := None;
    }

    method Navigate(direction: int)
      requires Valid()
      modifies this
      ensures Valid() && State() == Navigated(scripts, old(State()), direction)
    {
      if |scripts| == 0 || isAnimating {
        return;
      }
      isAnimating := true;
      prevCurrentIndex := currentIndex;
      if expandedCardId.Some? {
        expandedCardId := None;
        pendingStep := Some(direction);
      } else {
        var newIndex := currentIndex + direction;
        if newIndex >= 0 && newIndex < |scripts| {
          currentIndex := newIndex;
        }
      }
    }

    /** The 150 ms collapse timer fires and applies the step to the index it finds. */
    method ApplyStep()
      requires Valid() && pendingStep.Some?
      modifies this
      ensures Valid() && State() == StepApplied(scripts, old(State()))
    {
      var newIndex := currentIndex + pendingStep.value;
      if newIndex >= 0 && newIndex < |scripts| {
        currentIndex := newIndex;
      }
      pendingStep := None;
    }

    /** The animation-end timer fires; it never precedes the collapse timer of the same navigation. */
    method EndAnimation()
      requires Valid() && pendingStep.None?
      modifies this
      ensures Valid() && State() == Settled(scripts, old(State()))
    {
      isAnimating := false;
    }

    method HandleDragEnd(offset: real, velocity: real)
      requires Valid()
      modifies this
      ensures Valid() && State() == DragReleased(scripts, old(State()), offset, velocity)
    {
      if isAnimating {
        return;
      }
      if offset < -DragThreshold || velocity < -VelocityThreshold {
        Navigate(1);
      } else if offset > DragThreshold || velocity > VelocityThreshold {
        Navigate(-1);
      }
    }

    method HandleCardTap(id: CardId)
      requires Valid()
      modifies this
      ensures Valid() && State() == Tapped(scripts, old(State()), id)
    {
      if isAnimating {
        return;
      }
      var tapped := FindIndex(scripts, id);
      if tapped != -1 && tapped != currentIndex {
        if expandedCardId.Some? {
          expandedCardId := None;
        }
        isAnimating := true;
        prevCurrentIndex := currentIndex;
        currentIndex := tapped;
      } else if tapped == currentIndex {
        expandedCardId := if expandedCardId == Some(id) then None else Some(id);
      }
    }
  }
}
