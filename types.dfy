/** Optional values, standing for JavaScript's `null` / `undefined`. */
module Wrappers {
  datatype Option<+T> = None | Some(value: T) {
    function GetOr(default: T): T {
      match this
      case Some(v) => v
      case None => default
    }
  }
}

/** The records of the card catalogue (src/types/index.ts). */
module Types {
  import opened Wrappers

  /** Card ids are strings; the page's `expandedCardId` uses the same type. */
  type CardId = string

  /** One card: an English sentence with its translation and explanation. */
  datatype Script = Script(id: CardId, englishText: string, japaneseTranslation: string, explanation: string)

  /** A scalar JSON value, as found in a group's free-form `details`. */
  datatype Scalar = Str(s: string) | Num(n: int) | Bool(b: bool) | Null

  /** A named, ordered collection of cards (one episode, one topic). */
  datatype ScriptGroup = ScriptGroup(
    id: string,
    title: string,
    category: string,
    subCategory: Option<string>,
    details: Option<map<string, Scalar>>,
    scriptIds: seq<string>,
    description: Option<string>)

  /**
   * `findIndex` with a predicate: the first position whose element satisfies
   * `hit`, or -1 when none does.
   */
  function FirstIndex<T>(xs: seq<T>, hit: T -> bool): (r: int)
    ensures -1 <= r < |xs|
    ensures r == -1 <==> forall k :: 0 <= k < |xs| ==> !hit(xs[k])
    ensures r >= 0 ==> hit(xs[r]) && forall k :: 0 <= k < r ==> !hit(xs[k])
  {
    if xs == [] then -1
    else if hit(xs[0]) then 0
    else
      var rest := FirstIndex(xs[1..], hit);
      if rest == -1 then -1 else rest + 1
  }

  /** True when no two cards share an id. */
  predicate UniqueCardIds(cards: seq<Script>) {
    forall i, j :: 0 <= i < |cards| && 0 <= j < |cards| && cards[i].id == cards[j].id ==> i == j
  }

  /** True when no two groups share an id. */
  predicate UniqueGroupIds(groups: seq<ScriptGroup>) {
    forall i, j :: 0 <= i < |groups| && 0 <= j < |groups| && groups[i].id == groups[j].id ==> i == j
  }
}
