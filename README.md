# Shadowing-card navigation core in Dafny

This project models the logic of a flashcard viewer for language learning.
The viewer shows a vertical stack of cards that can be swiped, tapped and expanded.
The cards belong to script groups, and the groups are listed by category in a slide-out menu.
Three pieces of the viewer are modelled:

- **The card-stack page** (`src/app/page.tsx`).
  - The state is the current index, the previous index, the expanded card and the animation flag.
  - Three events change it: `navigate`, drag release and card tap.
  - The page's two timers become explicit events. `ApplyStep` is the 150 ms delay after collapsing a card. `EndAnimation` is the end of the animation window.
  - Two pure functions read the state. One picks the animation target of every slot. The other picks the window of at most five rendered slots.
  - The enabled/disabled rules of the two navigation buttons are modelled too.
- **The script-group hook** (`src/hooks/useScriptGroups.ts`).
  - The start-up choice of a group: a saved id is kept if it is known, otherwise the first group is used.
  - The effect that turns the group id into the current group and its cards.
  - `selectGroup`, and the full and short header titles.
- **The script menu** (`src/components/ScriptMenu.tsx`).
  - The reduce that puts the groups into one bucket per category.
  - The "selected" highlight.
  - The forwarding of a pick to the parent.

Layout:

- `types.dfy`: `Option`, and the card and group records.
- `card_stack.dfy` (module `CardStack`): animation targets and the render window.
- `navigation.dfy` (module `Navigation`):
  - the navigation state as a value (`NavState`) with one transition function per event, each proved to keep `ValidState`;
  - the `HomePage` class, whose methods update the fields the way the React setters do, each proved equal to its transition function.
- `js_text.dfy` (module `JsText`): `indexOf`, `padStart` and `String(n)` for integers.
- `script_groups.dfy` (module `ScriptGroups`): the hook's pure functions and the `ScriptGroupsHook` class.
- `script_menu.dfy` (module `ScriptMenu`): the category reduce as a loop, with its specification functions and lemmas.

## Model

| member | source | states |
|---|---|---|
| CardStack.Target.Origin | src/app/page.tsx:115-160 | every transitional variant starts at one of the five resting positions; a resting variant starts at itself |
| CardStack.Target.Destination | src/app/page.tsx:115-160 | every transitional variant ends at one of the five resting positions; a resting variant ends at itself |
| CardStack.MovingTarget | src/app/page.tsx:177-195 | while animating, the branch for each scroll direction gives, for every slot relative to the previous index, the four transitional names or `behind`/`front`; it falls through exactly when the index did not change |
| CardStack.RestingTarget | src/app/page.tsx:197-203 | at rest: offset -1 gives `prev`, 0 gives `current`, +1 gives `next`, below -1 gives `behind`, above +1 gives `front`; the result is always a resting position |
| CardStack.CardAnimationTarget | src/app/page.tsx:176-204 | not animating, or no index change: exactly the resting table's position for the slot; animating with a change: the moving branch's answer, never the resting table |
| CardStack.RestingGuardsAreExhaustive | src/app/page.tsx:197-203 | one of the five resting guards always holds, so the final `return "front"` is unreachable |
| CardStack.RestingDependsOnlyOnOffset | src/app/page.tsx:197-201 | at rest the target depends only on `slot - currentIndex` |
| CardStack.MoveStartsAtPreviousRest | src/app/page.tsx:176-204 | every move starts where the card rested at the previous index |
| CardStack.MoveEndsAtNewRestIffSingleStep | src/app/page.tsx:176-204 | moves end where the cards rest once the flag clears if and only if the index moved by at most one |
| CardStack.OriginsKeepStackOrder | src/app/page.tsx:176-204 | a lower slot never starts below a higher slot |
| CardStack.DestinationsKeepStackOrder | src/app/page.tsx:176-204 | a lower slot never ends below a higher slot, whatever the jump |
| CardStack.KeepInRange | src/app/page.tsx:216 | the filter keeps exactly the in-range members of its input, never grows it, and every kept index is in `[0, length)` |
| CardStack.WindowBase | src/app/page.tsx:207-214 | in every branch the base of position i is the window's start plus i |
| CardStack.RenderIndices | src/app/page.tsx:206-216 | the window has at most min(length, 5) entries, all in `[0, length)` |
| CardStack.KeepInRangeConcat | src/app/page.tsx:216 | the filter works element by element: filtering a concatenation is the concatenation of the filtered parts, so order and multiplicity are kept |
| CardStack.KeepIntervalInRange | src/app/page.tsx:216 | the range filter cuts a run of consecutive indices down to its overlap with `[0, length)` |
| CardStack.RenderIndicesIsInterval | src/app/page.tsx:206-216 | the window is the run of in-range indices starting at the branch's base and holding at most min(length, 5) positions |
| CardStack.RenderIndicesShape | src/app/page.tsx:206-216 | every rendered index is in range, the indices are consecutive and increasing, and there are at most min(length, 5) of them |
| CardStack.SmallListsRenderEverything | src/app/page.tsx:206-209 | with at most 3 cards the window is exactly `0..length-1` |
| CardStack.LargeListsRenderFiveAroundCurrent | src/app/page.tsx:206-216 | with 5 or more cards and a valid index, exactly 5 slots are rendered and the focused card is among them |
| CardStack.FourCardsHideFocusedLastCard | src/app/page.tsx:212-213 | with 4 cards the window is `[0, 1, 2]` at index 3 and at index 2, so the focused last card is not rendered and the next card is hidden at index 2 |
| CardStack.IntendedWindowShowsCurrent | src/app/page.tsx:206-216 | with the end-of-list start clamped at 0, the window always holds min(length, 5) consecutive in-range slots including the focused card |
| Navigation.CollapseDelayEndsFirst | src/app/page.tsx:48-73 | the 150 ms collapse delay is shorter than the `1000/300*5+300` ms animation window, so the step is applied before the flag clears |
| Navigation.InitialIsValid | src/app/page.tsx:30-34 | the initial state (index 0, previous 0, nothing expanded, not animating) satisfies the state invariant |
| Navigation.SteppedIndex | src/app/page.tsx:58-64 | the step is taken only if the new index exists; from a valid index the result stays in range, and it never wraps |
| Types.FirstIndex | src/app/page.tsx:92 | `findIndex`/`find` with a predicate: the first position satisfying it, or -1 exactly when none does |
| Navigation.FindIndex | src/app/page.tsx:92 | the first card with the id, or -1 exactly when no card has it |
| Navigation.Navigated | src/app/page.tsx:40-66 | nothing changes for an empty list or while animating; otherwise the flag is set, previous becomes the old index and expansion is cleared; the step happens now, or is left pending when a card was expanded; the invariant is kept |
| Navigation.StepApplied | src/app/page.tsx:48-56 | the deferred step is clamped like the immediate one; the invariant is kept |
| Navigation.Settled | src/app/page.tsx:68-76 | the animation flag clears and nothing else changes |
| Navigation.DragDirection | src/app/page.tsx:83-87 | offset below -50 or velocity below -300 gives +1; otherwise offset above 50 or velocity above 300 gives -1; otherwise 0 |
| Navigation.DragStaysIffWithinThresholds | src/app/page.tsx:83-87 | a drag navigates if and only if it leaves the closed box [-50, 50] x [-300, 300]; values exactly at ±50 or ±300 do nothing |
| Navigation.DragMirrorsUnlessConflicting | src/app/page.tsx:83-87 | mirroring a gesture mirrors the direction, unless offset and velocity point opposite ways |
| Navigation.ConflictingDragGoesForward | src/app/page.tsx:83-87 | when offset and velocity point opposite ways past their thresholds, the upward test wins and the drag goes forward |
| Navigation.DragReleased | src/app/page.tsx:78-88 | ignored while animating or inside the thresholds; otherwise it is `navigate` in the drag's direction |
| Navigation.Tapped | src/app/page.tsx:90-105 | nothing changes while animating or for an unknown id; the invariant is kept |
| Navigation.TapActsOnFirstCopy | src/app/page.tsx:90-104 | for any card list, repeated ids included, a tap acts on the first card with the id: if that is another card the state jumps there (previous = old index, animating, collapsed); if it is the focused card only the expansion toggles |
| Navigation.TapOtherCardJumps | src/app/page.tsx:94-100 | with distinct card ids, tapping another card jumps to its index, keeps the old index as previous, starts the animation and clears expansion |
| Navigation.TapFocusedCardToggles | src/app/page.tsx:101-104 | with distinct card ids, tapping the focused card toggles its expansion between none and its id and moves nothing |
| Navigation.TapFocusedCardTwiceRestores | src/app/page.tsx:101-104 | with distinct card ids, two taps on the focused card restore the state exactly |
| Navigation.DuplicateIdTapJumpsToFirstCopy | src/app/page.tsx:92-100 | if the focused card's id also occurs at an earlier index j, tapping it jumps to the first card with that id, which lies at or before j |
| Navigation.DeferredStepMatchesImmediateStep | src/app/page.tsx:46-64 | collapsing first and stepping 150 ms later gives the same state as stepping at once from the collapsed state |
| Navigation.NavigationRoundTrip | src/app/page.tsx:40-76 | an accepted navigation followed by its timers ends settled and collapsed, with previous = old index and the index clamped into range |
| Navigation.PrevDisabled | src/app/page.tsx:268 | the "previous" button is disabled at the first card, while a card is expanded, or while animating |
| Navigation.NextDisabled | src/app/page.tsx:280 | the "next" button is disabled at the last card, while a card is expanded, or while animating |
| Navigation.ButtonsEnabledIffTheyMove | src/app/page.tsx:267-280 | with cards loaded, each button is enabled exactly when pressing it moves the index one step its way at once; while a card is expanded both are disabled and a press only leaves the step pending |
| Navigation.ThreeCardScenario | src/app/page.tsx:40-66 | with 3 cards at index 0: back is refused, two steps forward reach index 2, and a third step is refused |
| Navigation.HomePage.constructor | src/app/page.tsx:30-38 | the page after loading its cards starts in the initial state |
| Navigation.HomePage.Navigate | src/app/page.tsx:40-66 | the setter sequence of `navigate` yields exactly `Navigated` of the old state |
| Navigation.HomePage.ApplyStep | src/app/page.tsx:48-56 | the 150 ms timer's updater yields exactly `StepApplied` of the old state |
| Navigation.HomePage.EndAnimation | src/app/page.tsx:68-76 | the animation timer yields exactly `Settled` of the old state |
| Navigation.HomePage.HandleDragEnd | src/app/page.tsx:78-88 | the drag handler yields exactly `DragReleased` of the old state |
| Navigation.HomePage.HandleCardTap | src/app/page.tsx:90-105 | the tap handler yields exactly `Tapped` of the old state |
| JsText.IndexOf | src/hooks/useScriptGroups.ts:83 | the first position of the character, or -1 exactly when it is absent |
| JsText.NatToDecimal | src/hooks/useScriptGroups.ts:76 | decimal digits only, with no leading zero for n > 0; one digit exactly below 10 and two exactly from 10 to 99 |
| JsText.DecimalRoundTrip | src/hooks/useScriptGroups.ts:76 | reading back the decimal digits of n gives n |
| JsText.IntToString | src/hooks/useScriptGroups.ts:76 | `String(n)`: for n ≥ 0 digits with no leading zero (unless n is 0) that read back as n; otherwise a leading minus followed by at least one digit, none of them a leading zero, that read back as -n |
| JsText.PadStart | src/hooks/useScriptGroups.ts:76 | the result has length max(length, width), ends with the input, and is filled with the pad character in front |
| JsText.TwoDigitCode | src/hooks/useScriptGroups.ts:76 | a number below 100 pads to exactly two digits that read back as the number |
| ScriptGroups.GroupIndex | src/hooks/useScriptGroups.ts:34 | the first group with the id, or -1 exactly when none has it |
| ScriptGroups.FindGroup | src/hooks/useScriptGroups.ts:34 | the first group of the catalogue with the id, or none exactly when no group has it |
| ScriptGroups.InitialGroupId | src/hooks/useScriptGroups.ts:19-28 | a non-empty known saved id is chosen; otherwise the first group's id, or '' with no groups; the result is always '' or a known id |
| ScriptGroups.SavedIdKeptIffKnown | src/hooks/useScriptGroups.ts:22-24 | a non-empty saved id survives start-up if and only if some group has it |
| ScriptGroups.NoGroupsNoChoice | src/hooks/useScriptGroups.ts:20-28 | with no groups the chosen id is '' |
| ScriptGroups.Resolve | src/hooks/useScriptGroups.ts:32-60 | a group is current exactly when the id is non-empty and known, and it has that id; a successful load makes the loaded cards current; an empty or unknown id clears the cards, and so does a failed load; for a non-empty id the current group is the first group with that id (`find`) |
| ScriptGroups.PickedGroupBecomesCurrent | src/hooks/useScriptGroups.ts:33-37 | with distinct ids, picking a group makes exactly that group current |
| ScriptGroups.SavedGroupIsRestored | src/hooks/useScriptGroups.ts:22-51 | a group that became current (and was saved) is the one chosen at the next start |
| ScriptGroups.Truthy | src/hooks/useScriptGroups.ts:75 | JavaScript truthiness of a detail value: a missing key, null, false, 0 and the empty string are false |
| ScriptGroups.IsEpisode | src/hooks/useScriptGroups.ts:75 | the series branch is taken when series, season and episode are all truthy |
| ScriptGroups.ScalarToString | src/hooks/useScriptGroups.ts:76 | `String(v)` for a string, an integer, a boolean or null |
| ScriptGroups.EpisodeLabel | src/hooks/useScriptGroups.ts:76 | the label is the series, " S", the season padded to two characters with '0', "E" and the episode padded the same way; it starts with the series and " S" |
| ScriptGroups.EpisodeNumberCode | src/hooks/useScriptGroups.ts:76 | a one-character season or episode gets a leading '0' (a string "3" becomes "03"); a value of two or more characters, such as 100, is kept whole |
| ScriptGroups.GroupTitle | src/hooks/useScriptGroups.ts:67-69 | never empty: the title, or 'Loading...' with no group or an empty title |
| ScriptGroups.ShortenTitle | src/hooks/useScriptGroups.ts:80-91 | never longer than 25; unchanged up to 25; a longer title is cut before a colon at index 1..24, otherwise truncated to 22 characters plus "..." |
| ScriptGroups.ShortenTitleIdempotent | src/hooks/useScriptGroups.ts:80-91 | shortening twice is shortening once |
| ScriptGroups.ShortGroupTitle | src/hooks/useScriptGroups.ts:71-92 | 'Loading...' with no group; the shortened title (at most 25 characters) outside the series branch; in the series branch the episode label of the group's series, season and episode |
| ScriptGroups.EpisodeCodeRoundTrip | src/hooks/useScriptGroups.ts:75-77 | for a series with season and episode in 1..99 the short title is the series, " S", two digits reading back as the season, "E", two digits reading back as the episode |
| ScriptGroups.ScriptGroupsHook.constructor | src/hooks/useScriptGroups.ts:12-15 | the hook starts with an empty id, no group and no cards |
| ScriptGroups.ScriptGroupsHook.RestoreSavedGroup | src/hooks/useScriptGroups.ts:18-29 | sets the id to the start-up choice when it is non-empty; keeps "'' or a known id" |
| ScriptGroups.ScriptGroupsHook.SyncCurrentGroup | src/hooks/useScriptGroups.ts:32-61 | the current group and cards become `Resolve` of the id; a found group's id is written to storage |
| ScriptGroups.ScriptGroupsHook.SelectGroup | src/hooks/useScriptGroups.ts:63-65 | stores any id without checking it |
| ScriptMenu.InCategoryMembers | src/components/ScriptMenu.tsx:33-39 | a group is in the bucket of a category exactly when it is in the catalogue with that category |
| ScriptMenu.InCategoryConcat | src/components/ScriptMenu.tsx:36-37 | bucketing distributes over concatenation, so a bucket keeps the catalogue's order |
| ScriptMenu.CategoryOrderFacts | src/components/ScriptMenu.tsx:33-39 | the bucket order lists every present category exactly once and nothing else |
| ScriptMenu.GroupByCategory | src/components/ScriptMenu.tsx:33-39 | the keys are exactly the categories present; each bucket is the category's groups in catalogue order and is non-empty; buckets are created in order of first appearance; the bucket sizes add up to the number of groups |
| ScriptMenu.EveryGroupInItsOwnBucketOnly | src/components/ScriptMenu.tsx:33-39 | each group is in its own category's bucket and in no other |
| ScriptMenu.IsSelected | src/components/ScriptMenu.tsx:129 | a group is highlighted exactly when its id is the current group id |
| ScriptMenu.AtMostOneSelected | src/components/ScriptMenu.tsx:129 | with distinct ids at most one group is highlighted |
| ScriptMenu.HandleGroupSelect | src/components/ScriptMenu.tsx:27-30 | the picked id is forwarded, then the menu is closed, in that order |

## Left out

- Speech synthesis (`src/hooks/useSpeechSynthesis.ts`, the audio button in `src/components/Card.tsx`) and the text-to-speech route. They are browser and cloud calls.
- `needsScroll` in `src/components/Card.tsx`. It depends on a DOM measurement.
- The variant payloads of `src/app/page.tsx:115-174`: `y`, `scale`, `opacity`, `zIndex` and the delays. They are floating-point styling. Targets are modelled as names only. `Destination` records the resting position whose payload each move's payload repeats. `Origin` records the resting position a move's name says it starts from; the payloads carry no start position.
- The `initial` and `exit` variants of `src/app/page.tsx:163-173`. Only the enter/leave animation of the rendering library uses them.
- Timers as clock events.
  - The 150 ms delay and the animation window are the events `ApplyStep` and `EndAnimation`.
  - `EndAnimation` requires that no step is pending. The delays are fixed, and 150 ms is shorter than about 316.7 ms (`CollapseDelayEndsFirst`).
  - The clearing of a timer when the effect re-runs is not modelled. Only the firing of a live timer is an event.
- Navigation.HomePage.HandleDragEnd: modelled as the handler itself. The page attaches it only to the focused card, and only while that card is not expanded and nothing animates (`src/app/page.tsx:230`, `249`).
- The "Loading scripts..." render before the card list arrives. `HomePage` is built with the loaded list, which may be empty; every event is then a no-op.
- Local storage and the dynamic import of a group's card file.
  - The saved id is the field `storedGroupId`.
  - The import's outcome is the parameter `imported`, where `None` means the load failed.
- ScriptGroups.ScriptGroupsHook.SyncCurrentGroup: the asynchronous import completes in the same step as the effect. If the id changes while an import is in flight, the stale import could overwrite the cards later; that race is not modelled.
- Detail values of a group are strings, integers, booleans or null. Non-integer numbers, arrays and objects are not modelled. `String(x)` is modelled for those four kinds only. Integers are unbounded: JavaScript numbers above 2^53 are not exact, and `String(n)` prints numbers of 1e21 or more in exponent form; neither is modelled.
- Card ids are assumed distinct wherever a lemma says so, as the list's `key={script.id}` at `src/app/page.tsx:234` requires; `Navigation.TapActsOnFirstCopy` and `Navigation.DuplicateIdTapJumpsToFirstCopy` give the tap with repeated ids.
- Strings are sequences of characters. JavaScript counts UTF-16 code units, so titles outside the Basic Multilingual Plane may measure differently.
- `Object.entries` lists integer-like keys first in ascending order. The model keeps the insertion order that holds for all other category names.
- ScriptMenu.GroupByCategory: the accumulator `{}` inherits the properties of `Object.prototype`. For a category named `constructor`, `toString`, `valueOf`, `hasOwnProperty`, `isPrototypeOf`, `propertyIsEnumerable`, `toLocaleString`, `__defineGetter__`, `__defineSetter__`, `__lookupGetter__`, `__lookupSetter__` or `__proto__` (any property name of `Object.prototype`), the test at `src/components/ScriptMenu.tsx:34` sees a truthy inherited value and creates no bucket. The `push` at line 37 then throws a `TypeError`, and the menu does not render. The model opens an ordinary bucket for every category name.
- The menu's open/close animation, the overlay, `VoiceSelector` and the menu's `isOpen` prop. They are presentation; `HandleGroupSelect` records the two callback calls it makes.
- The navigation buttons are plain `onClick` handlers (`src/app/page.tsx:267`, `279`); there is no press-and-hold accelerator. The card index is not persisted: it always starts at 0 (`src/app/page.tsx:31`).
- The page has thirteen animation variants: five resting and eight transitional (`src/app/page.tsx:115-162`).
- `expandedCardId` is typed `number | null` (`src/app/page.tsx:33`), while card ids are strings (`src/types/index.ts:2`). Both are modelled as one id type, `CardId`.

## Findings

| source | as written | input that shows it | evidently intended | confidence | as-written member | corrected member |
|---|---|---|---|---|---|---|
| src/app/page.tsx:212-213 | when `currentIndex > length - 3` the window starts at `length - 5`, which is -1 for 4 cards, and the filter then drops that slot | 4 cards, `currentIndex = 3` (reachable with the "next" button): the window is `[0, 1, 2]` and the focused card is not rendered | start the window at `max(0, length - 5)` so all four cards render | high; not executed | CardStack.FourCardsHideFocusedLastCard | CardStack.IntendedWindowShowsCurrent |
