/**
 * The script-group hook (src/hooks/useScriptGroups.ts): which group is
 * current, which cards it loads, and the two header titles.
 * The saved id (local storage) and the outcome of loading a group's card
 * file are inputs; the storage entry is a field the hook reads and writes.
 */
module ScriptGroups {
  import opened Wrappers
  import opened Types
  import opened JsText

  /** The title shown while no group is current. */
  const LoadingTitle := "Loading..."
  /** Titles up to this length are shown as they are. */
  const ShortTitleMax := 25
  /** Length kept when a long title is truncated. */
  const TruncatedLength := 22
  const Ellipsis := "..."

  /** `scriptGroups.find(g => g.id === id)` as an index: the first group with this id, or -1. */
  function GroupIndex(groups: seq<ScriptGroup>, id: string): (r: int)
    ensures -1 <= r < |groups|
    ensures r == -1 <==> forall k :: 0 <= k < |groups| ==> groups[k].id != id
    ensures r >= 0 ==> groups[r].id == id && forall k :: 0 <= k < r ==> groups[k].id != id
  {
    FirstIndex(groups, (g: ScriptGroup) => g.id == id)
  }

  /** `scriptGroups.find(g => g.id === id)`. */
  function FindGroup(groups: seq<ScriptGroup>, id: string): (r: Option<ScriptGroup>)
    ensures r.None? <==> forall k :: 0 <= k < |groups| ==> groups[k].id != id
    ensures r.Some? ==> r.value.id == id && r.value in groups
    ensures r.Some? ==> r.value == groups[GroupIndex(groups, id)]
  {
    var k := GroupIndex(groups, id);
    if k == -1 then None else Some(groups[k])
  }

  /** True when some group has this id. */
  predicate Known(groups: seq<ScriptGroup>, id: string) {
    exists k :: 0 <= k < |groups| && groups[k].id == id
  }

  /** The group chosen on start: the saved id when it is non-empty and known, else the first group's id. */
  function InitialGroupId(groups: seq<ScriptGroup>, saved: Option<string>): (r: string)
    ensures r == "" || Known(groups, r)
    ensures saved.Some? && saved.value != "" && Known(groups, saved.value) ==> r == saved.value
    ensures !(saved.Some? && saved.value != "" && Known(groups, saved.value)) ==>
              r == if |groups| > 0 then groups[0].id else ""
  {
    var defaultGroupId := if |groups| > 0 then groups[0].id else "";
    if saved.Some? && saved.value != "" && FindGroup(groups, saved.value).Some? then saved.value
    else defaultGroupId
  }

  /** A non-empty saved id survives the start-up choice if and only if some group has it. */
  lemma SavedIdKeptIffKnown(groups: seq<ScriptGroup>, saved: string)
    requires saved != ""
    ensures InitialGroupId(groups, Some(saved)) == saved <==> Known(groups, saved)
  {
  }

  /** With no groups at all, no group is chosen. */
  lemma NoGroupsNoChoice(saved: Option<string>)
    ensures InitialGroupId([], saved) == ""
  {
  }

  /** What the hook shows for a group id: the group itself and its cards. */
  datatype Selection = Selection(group: Option<ScriptGroup>, scripts: seq<Script>)

  /**
   * The group-to-cards effect for `id`. `imported` is the outcome of loading
   * the group's card file: the cards, or None when loading failed.
   */
  function Resolve(groups: seq<ScriptGroup>, id: string, imported: Option<seq<Script>>): (r: Selection)
    ensures r.group.Some? <==> id != "" && Known(groups, id)
    ensures r.group.Some? ==> r.group.value.id == id && r.group.value in groups
    ensures r.group.None? ==> r.scripts == []
    ensures r.group.Some? && imported.None? ==> r.scripts == []
    ensures r.group.Some? && imported.Some? ==> r.scripts == imported.value
    ensures id != "" ==> r.group == FindGroup(groups, id)
  {
    if id != "" then
      var group := FindGroup(groups, id);
      if group.Some? then Selection(group, imported.GetOr([]))
      else Selection(None, [])
    else Selection(None, [])
  }

  /** Picking a group from a catalogue with distinct ids makes exactly that group current. */
  lemma {:induction false} PickedGroupBecomesCurrent(groups: seq<ScriptGroup>, k: int, imported: Option<seq<Script>>)
    requires UniqueGroupIds(groups) && 0 <= k < |groups| && groups[k].id != ""
    ensures Resolve(groups, groups[k].id, imported).group == Some(groups[k])
  {
    assert GroupIndex(groups, groups[k].id) == k;
  }

  /** `getCurrentGroupTitle`: the group's title, or the loading text (also for an empty title). */
  function GroupTitle(group: Option<ScriptGroup>): (r: string)
    ensures r != ""
    ensures group.Some? && group.value.title != "" ==> r == group.value.title
    ensures group.None? || group.value.title == "" ==> r == LoadingTitle
  {
    if group.Some? && group.value.title != "" then group.value.title else LoadingTitle
  }

  /** JavaScript truthiness of a detail value (a missing key is `undefined`). */
  predicate Truthy(v: Option<Scalar>) {
    match v
    case None => false
    case Some(Str(s)) => s != ""
    case Some(Num(n)) => n != 0
    case Some(Bool(b)) => b
    case Some(Null) => false
  }

  /** `details?.[key]`. */
  function Detail(details: Option<map<string, Scalar>>, key: string): Option<Scalar> {
    if details.Some? && key in details.value then Some(details.value[key]) else None
  }

  /** `String(v)` for a detail value. */
  function ScalarToString(v: Scalar): string {
    match v
    case Str(s) => s
    case Num(n) => IntToString(n)
    case Bool(b) => if b then "true" else "false"
    case Null => "null"
  }

  /** The group is an episode of a series: series, season and episode are all truthy. */
  predicate IsEpisode(details: Option<map<string, Scalar>>) {
    Truthy(Detail(details, "series")) && Truthy(Detail(details, "season")) && Truthy(Detail(details, "episode"))
  }

  /** `${series} S${pad2(season)}E${pad2(episode)}`. */
  function EpisodeLabel(series: Scalar, season: Scalar, episode: Scalar): (r: string)
    ensures var name := ScalarToString(series);
      r == name + " S" + PadStart(ScalarToString(season), 2, '0') + "E" + PadStart(ScalarToString(episode), 2, '0')
    ensures var name := ScalarToString(series);
      |r| >= |name| + 7 && r[..|name| + 2] == name + " S"
  {
    var name := ScalarToString(series);
    var s := PadStart(ScalarToString(season), 2, '0');
    var e := PadStart(ScalarToString(episode), 2, '0');
    LabelStartsWithSeries(name, s, e);
    name + " S" + s + "E" + e
  }

  lemma LabelStartsWithSeries(name: string, s: string, e: string)
    ensures var r := name + " S" + s + "E" + e;
      |r| == |name| + |s| + |e| + 3 && r[..|name| + 2] == name + " S"
  {
  }

  /** The non-series branch: long titles are cut at an early colon, or truncated with an ellipsis. */
  function ShortenTitle(title: string): (r: string)
    ensures |r| <= ShortTitleMax
    ensures |title| <= ShortTitleMax ==> r == title
    ensures |title| > ShortTitleMax ==>
              || (0 < IndexOf(title, ':') < ShortTitleMax && r == title[..IndexOf(title, ':')] && ':' !in r)
              || (!(0 < IndexOf(title, ':') < ShortTitleMax) && r == title[..TruncatedLength] + Ellipsis)
  {
    if |title| > ShortTitleMax then
      var colonIndex := IndexOf(title, ':');
      if colonIndex > 0 && colonIndex < ShortTitleMax then title[..colonIndex]
      else title[..TruncatedLength] + Ellipsis
    else title
  }

  /** Shortening a title that is already short changes nothing, so shortening twice is shortening once. */
  lemma ShortenTitleIdempotent(title: string)
    ensures ShortenTitle(ShortenTitle(title)) == ShortenTitle(title)
  {
  }

  /** `getShortGroupTitle`. */
  function ShortGroupTitle(group: Option<ScriptGroup>): (r: string)
    ensures group.None? ==> r == LoadingTitle
    ensures group.Some? && !IsEpisode(group.value.details) ==> r == ShortenTitle(group.value.title)
    ensures group.Some? && !IsEpisode(group.value.details) ==> |r| <= ShortTitleMax
    ensures group.Some? && IsEpisode(group.value.details) ==>
              var series := ScalarToString(Detail(group.value.details, "series").value);
              |r| >= |series| + 7 && r[..|series| + 2] == series + " S"
    ensures group.Some? && IsEpisode(group.value.details) ==>
              var details := group.value.details;
              r == EpisodeLabel(Detail(details, "series").value, Detail(details, "season").value,
                                Detail(details, "episode").value)
  {
    if group.None? then LoadingTitle
    else
      var details := group.value.details;
      if IsEpisode(details) then
        EpisodeLabel(Detail(details, "series").value, Detail(details, "season").value,
                     Detail(details, "episode").value)
      else ShortenTitle(group.value.title)
  }

  /**
   * How a season or episode value is coded: a one-character value gets a
   * leading '0', anything longer (a season of 100 or more, say) is kept whole.
   */
  lemma EpisodeNumberCode(v: Scalar)
    ensures |ScalarToString(v)| == 1 ==> PadStart(ScalarToString(v), 2, '0') == ['0'] + ScalarToString(v)
    ensures |ScalarToString(v)| >= 2 ==> PadStart(ScalarToString(v), 2, '0') == ScalarToString(v)
  {
  }

  /**
   * For a series with numeric season and episode between 1 and 99 the short
   * title is the series name, " S", two digits that read back as the season,
   * "E", and two digits that read back as the episode.
   */
  lemma {:induction false} EpisodeCodeRoundTrip(group: ScriptGroup, series: string, season: int, episode: int)
    requires series != "" && 1 <= season < 100 && 1 <= episode < 100
    requires group.details.Some?
    requires "series" in group.details.value && group.details.value["series"] == Str(series)
    requires "season" in group.details.value && group.details.value["season"] == Num(season)
    requires "episode" in group.details.value && group.details.value["episode"] == Num(episode)
    ensures var r := ShortGroupTitle(Some(group));
      var n := |series|;
      && |r| == n + 7
      && r[..n] == series && r[n..n + 2] == " S" && r[n + 4] == 'E'
      && DecimalValue(r[n + 2..n + 4]) == season
      && DecimalValue(r[n + 5..]) == episode
  {
    var details := group.details;
    assert Detail(details, "series") == Some(Str(series));
    assert Detail(details, "season") == Some(Num(season));
    assert Detail(details, "episode") == Some(Num(episode));
    assert IsEpisode(details);
    assert ShortGroupTitle(Some(group)) == EpisodeLabel(Str(series), Num(season), Num(episode));
    NumberedEpisodeLabel(series, season, episode);
  }

  /** The episode label of a string series with season and episode between 1 and 99. */
  lemma NumberedEpisodeLabel(series: string, season: int, episode: int)
    requires 1 <= season < 100 && 1 <= episode < 100
    ensures var r := EpisodeLabel(Str(series), Num(season), Num(episode));
      var n := |series|;
      && |r| == n + 7
      && r[..n] == series && r[n..n + 2] == " S" && r[n + 4] == 'E'
      && DecimalValue(r[n + 2..n + 4]) == season
      && DecimalValue(r[n + 5..]) == episode
  {
    TwoDigitCode(season);
    TwoDigitCode(episode);
    assert ScalarToString(Str(series)) == series;
    assert ScalarToString(Num(season)) == IntToString(season);
    assert ScalarToString(Num(episode)) == IntToString(episode);
    LabelLayout(series, PadStart(IntToString(season), 2, '0'), PadStart(IntToString(episode), 2, '0'));
  }

  /** Where the pieces of an episode label sit, for two-character codes. */
  lemma LabelLayout(series: string, s: string, e: string)
    requires |s| == 2 && |e| == 2
    ensures var r := series + " S" + s + "E" + e;
      var n := |series|;
      && |r| == n + 7
      && r[..n] == series && r[n..n + 2] == " S" && r[n + 4] == 'E'
      && r[n + 2..n + 4] == s && r[n + 5..] == e
  {
  }

  /** The hook's state cells, plus the local-storage entry it reads and writes. */
  class ScriptGroupsHook {
    const scriptGroups: seq<ScriptGroup>
    var currentGroupId: string
    var currentScripts: seq<Script>
    var currentGroup: Option<ScriptGroup>
    /** The value stored under the hook's local-storage key, if any. */
    var storedGroupId: Option<string>

    constructor (groups: seq<ScriptGroup>, stored: Option<string>)
      ensures scriptGroups == groups && storedGroupId == stored
      ensures currentGroupId == "" && currentScripts == [] && currentGroup.None?
    {
      scriptGroups := groups;
      storedGroupId := stored;
      currentGroupId := "";
      currentScripts := [];
      currentGroup := None;
    }

    /** The group id is empty or names a group of the catalogue. */
    predicate IdIsKnownOrEmpty()
      reads this
    {
      currentGroupId == "" || Known(scriptGroups, currentGroupId)
    }

    /** The start-up effect: restore the saved group, or fall back to the first one. */
    method RestoreSavedGroup()
      modifies this`currentGroupId
      ensures var chosen := InitialGroupId(scriptGroups, storedGroupId);
        currentGroupId == if chosen != "" then chosen else old(currentGroupId)
      ensures old(IdIsKnownOrEmpty()) ==> IdIsKnownOrEmpty()
    {
      var savedGroupId := storedGroupId;
      var defaultGroupId := if |scriptGroups| > 0 then scriptGroups[0].id else "";
      var groupIdToUse :=
        if savedGroupId.Some? && savedGroupId.value != "" && FindGroup(scriptGroups, savedGroupId.value).Some?
        then savedGroupId.value
        else defaultGroupId;
      if groupIdToUse != "" {
        currentGroupId := groupIdToUse;
      }
    }

    /**
     * The group-to-cards effect, run after the group id changed; `imported`
     * is the outcome of loading the group's card file. A found group is
     * written back to local storage.
     */
    method SyncCurrentGroup(imported: Option<seq<Script>>)
      modifies this`currentGroup, this`currentScripts, this`storedGroupId
      ensures Selection(currentGroup, currentScripts) == Resolve(scriptGroups, currentGroupId, imported)
      ensures storedGroupId == if currentGroup.Some? then Some(currentGroupId) else old(storedGroupId)
    {
      if currentGroupId != "" {
        var group := FindGroup(scriptGroups, currentGroupId);
        currentGroup := group;
        if group.Some? {
          currentScripts := if imported.Some? then imported.value else [];
          storedGroupId := Some(currentGroupId);
        } else {
          currentScripts := [];
        }
      } else {
        currentScripts := [];
        currentGroup := None;
      }
    }

    /** `selectGroup`: stores the id as given, without checking it. */
    method SelectGroup(groupId: string)
      modifies this`currentGroupId
      ensures currentGroupId == groupId
    {
      currentGroupId := groupId;
    }
  }

  /** A group the hook made current and saved is the one restored at the next start. */
  lemma SavedGroupIsRestored(groups: seq<ScriptGroup>, id: string, imported: Option<seq<Script>>)
    requires Resolve(groups, id, imported).group.Some?
    ensures InitialGroupId(groups, Some(id)) == id
  {
  }
}
