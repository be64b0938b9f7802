/**
 * The script menu (src/components/ScriptMenu.tsx): grouping the catalogue by
 * category, marking the current group, and forwarding a pick.
 */
module ScriptMenu {
  import opened Types

  /** The groups of category c, in catalogue order. */
  function InCategory(groups: seq<ScriptGroup>, c: string): seq<ScriptGroup> {
    if groups == [] then []
    else
      var last := groups[|groups| - 1];
      InCategory(groups[..|groups| - 1], c) + (if last.category == c then [last] else [])
  }

  /** The categories in order of first appearance: the key order of the built object. */
  function CategoryOrder(groups: seq<ScriptGroup>): seq<string> {
    if groups == [] then []
    else
      var earlier := CategoryOrder(groups[..|groups| - 1]);
      var c := groups[|groups| - 1].category;
      if c in earlier then earlier else earlier + [c]
  }

  /** The set of categories present. */
  function Categories(groups: seq<ScriptGroup>): set<string> {
    set g | g in groups :: g.category
  }

  predicate Distinct(s: seq<string>) {
    forall i, j :: 0 <= i < j < |s| ==> s[i] != s[j]
  }

  /** A group lies in the bucket of category c exactly when it is in the catalogue with that category. */
  lemma {:induction false} InCategoryMembers(groups: seq<ScriptGroup>, c: string, g: ScriptGroup)
    ensures g in InCategory(groups, c) <==> g in groups && g.category == c
  {
    if groups != [] {
      var init := groups[..|groups| - 1];
      InCategoryMembers(init, c, g);
      assert groups == init + [groups[|groups| - 1]];
    }
  }

  /** Bucketing distributes over concatenation: groups keep their catalogue order inside a bucket. */
  lemma {:induction false} InCategoryConcat(a: seq<ScriptGroup>, b: seq<ScriptGroup>, c: string)
    ensures InCategory(a + b, c) == InCategory(a, c) + InCategory(b, c)
    decreases |b|
  {
    if b == [] {
      assert a + b == a;
    } else {
      var init := b[..|b| - 1];
      InCategoryConcat(a, init, c);
      assert (a + b)[..|a + b| - 1] == a + init;
    }
  }

  /** The key order lists every present category once and nothing else. */
  lemma {:induction false} CategoryOrderFacts(groups: seq<ScriptGroup>)
    ensures Distinct(CategoryOrder(groups))
    ensures forall c :: c in CategoryOrder(groups) <==> c in Categories(groups)
  {
    if groups != [] {
      var init := groups[..|groups| - 1];
      CategoryOrderFacts(init);
      assert groups == init + [groups[|groups| - 1]];
      assert Categories(groups) == Categories(init) + {groups[|groups| - 1].category};
    }
  }

  /** The number of groups across the buckets listed in keys. */
  function BucketTotal(buckets: map<string, seq<ScriptGroup>>, keys: seq<string>): nat
    requires forall i :: 0 <= i < |keys| ==> keys[i] in buckets
  {
    if keys == [] then 0
    else BucketTotal(buckets, keys[..|keys| - 1]) + |buckets[keys[|keys| - 1]]|
  }

  /** Changing a bucket that is not listed leaves the total unchanged. */
  lemma {:induction false} BucketTotalIgnoresOthers(
    buckets: map<string, seq<ScriptGroup>>, keys: seq<string>, c: string, v: seq<ScriptGroup>)
    requires forall i :: 0 <= i < |keys| ==> keys[i] in buckets
    requires c !in keys
    ensures BucketTotal(buckets[c := v], keys) == BucketTotal(buckets, keys)
  {
    if keys != [] {
      BucketTotalIgnoresOthers(buckets, keys[..|keys| - 1], c, v);
    }
  }

  /** Appending one group to a listed bucket raises the total by one. */
  lemma {:induction false} BucketTotalGrows(
    buckets: map<string, seq<ScriptGroup>>, keys: seq<string>, c: string, g: ScriptGroup)
    requires forall i :: 0 <= i < |keys| ==> keys[i] in buckets
    requires Distinct(keys) && c in keys
    ensures BucketTotal(buckets[c := buckets[c] + [g]], keys) == BucketTotal(buckets, keys) + 1
  {
    var init := keys[..|keys| - 1];
    var last := keys[|keys| - 1];
    if last == c {
      assert c !in init by {
        forall i | 0 <= i < |init| ensures init[i] != c {
          assert keys[i] == init[i];
        }
      }
      BucketTotalIgnoresOthers(buckets, init, c, buckets[c] + [g]);
    } else {
      assert c in init by {
        var i :| 0 <= i < |keys| && keys[i] == c;
        assert i < |keys| - 1 && init[i] == c;
      }
      BucketTotalGrows(buckets, init, c, g);
    }
  }

  lemma InCategorySnoc(groups: seq<ScriptGroup>, g: ScriptGroup, c: string)
    ensures InCategory(groups + [g], c) == InCategory(groups, c) + (if g.category == c then [g] else [])
  {
    assert (groups + [g])[..|groups|] == groups;
  }

  lemma CategoryOrderSnoc(groups: seq<ScriptGroup>, g: ScriptGroup)
    ensures CategoryOrder(groups + [g])
         == if g.category in CategoryOrder(groups) then CategoryOrder(groups) else CategoryOrder(groups) + [g.category]
  {
    assert (groups + [g])[..|groups|] == groups;
  }

  /**
   * What the reduce has built after the groups `seen`: one non-empty bucket
   * per category seen, holding that category's groups in order, created in
   * order of first appearance, and holding as many groups as were seen.
   */
  predicate Built(seen: seq<ScriptGroup>, grouped: map<string, seq<ScriptGroup>>, categories: seq<string>) {
    && grouped.Keys == Categories(seen)
    && (forall c :: c in grouped ==> grouped[c] == InCategory(seen, c) && grouped[c] != [])
    && categories == CategoryOrder(seen)
    && (forall i :: 0 <= i < |categories| ==> categories[i] in grouped)
    && BucketTotal(grouped, categories) == |seen|
  }

  lemma InCategoryEmptyWhenAbsent(groups: seq<ScriptGroup>, c: string)
    requires c !in Categories(groups)
    ensures InCategory(groups, c) == []
  {
    if InCategory(groups, c) != [] {
      InCategoryMembers(groups, c, InCategory(groups, c)[0]);
    }
  }

  /** One step of the reduce, for the buckets: the pushed group lands at the end of its category's bucket. */
  lemma PushKeepsBuckets(
    seen: seq<ScriptGroup>, group: ScriptGroup,
    grouped: map<string, seq<ScriptGroup>>, grouped': map<string, seq<ScriptGroup>>)
    requires grouped.Keys == Categories(seen)
    requires forall c :: c in grouped ==> grouped[c] == InCategory(seen, c) && grouped[c] != []
    requires grouped' == grouped[group.category := (if group.category in grouped then grouped[group.category] else []) + [group]]
    ensures forall c :: c in grouped' ==> grouped'[c] == InCategory(seen + [group], c) && grouped'[c] != []
  {
    var c := group.category;
    var bucket := if c in grouped then grouped[c] else [];
    assert bucket == InCategory(seen, c) by {
      if c !in grouped {
        InCategoryEmptyWhenAbsent(seen, c);
      }
    }
    forall d | d in grouped'
      ensures grouped'[d] == InCategory(seen + [group], d) && grouped'[d] != []
    {
      InCategorySnoc(seen, group, d);
      if d != c {
        assert grouped'[d] == grouped[d];
      }
    }
  }

  /** One step of the reduce, for the keys: a bucket exists for every category seen. */
  lemma CategoriesSnoc(seen: seq<ScriptGroup>, group: ScriptGroup)
    ensures Categories(seen + [group]) == Categories(seen) + {group.category}
  {
  }

  /** One step of the reduce, for the count: the buckets hold one group more. */
  lemma PushKeepsTotal(
    group: ScriptGroup,
    grouped: map<string, seq<ScriptGroup>>, categories: seq<string>,
    grouped': map<string, seq<ScriptGroup>>, categories': seq<string>)
    requires Distinct(categories)
    requires forall i :: 0 <= i < |categories| ==> categories[i] in grouped
    requires group.category in grouped ==> group.category in categories
    requires categories' == if group.category in grouped then categories else categories + [group.category]
    requires grouped' == grouped[group.category := (if group.category in grouped then grouped[group.category] else []) + [group]]
    ensures forall i :: 0 <= i < |categories'| ==> categories'[i] in grouped'
    ensures BucketTotal(grouped', categories') == BucketTotal(grouped, categories) + 1
  {
    if group.category in grouped {
      BucketTotalGrows(grouped, categories, group.category, group);
    } else {
      NewBucketTotal(group, grouped, categories);
      assert [] + [group] == [group];
    }
  }

  /** A group of a new category opens a bucket at the end of the list, holding just that group. */
  lemma NewBucketTotal(group: ScriptGroup, grouped: map<string, seq<ScriptGroup>>, categories: seq<string>)
    requires Distinct(categories)
    requires forall i :: 0 <= i < |categories| ==> categories[i] in grouped
    requires group.category !in grouped
    ensures var grouped', categories' := grouped[group.category := [group]], categories + [group.category];
      && (forall i :: 0 <= i < |categories'| ==> categories'[i] in grouped')
      && BucketTotal(grouped', categories') == BucketTotal(grouped, categories) + 1
  {
    var c := group.category;
    var categories' := categories + [c];
    assert c !in categories;
    BucketTotalIgnoresOthers(grouped, categories, c, [group]);
    assert categories'[..|categories'| - 1] == categories;
  }

  /** In a built state a category has a bucket exactly when it is listed, and nothing is listed twice. */
  lemma BuiltKeysListed(seen: seq<ScriptGroup>, grouped: map<string, seq<ScriptGroup>>, categories: seq<string>, c: string)
    requires Built(seen, grouped, categories)
    ensures Distinct(categories)
    ensures c in grouped <==> c in categories
  {
    CategoryOrderFacts(seen);
  }

  /** One step of the reduce: create the bucket if missing, then push the group onto it. */
  lemma PushKeepsBuilt(
    seen: seq<ScriptGroup>, group: ScriptGroup,
    grouped: map<string, seq<ScriptGroup>>, categories: seq<string>,
    grouped': map<string, seq<ScriptGroup>>, categories': seq<string>)
    requires Built(seen, grouped, categories)
    requires categories' == if group.category in grouped then categories else categories + [group.category]
    requires grouped' == grouped[group.category := (if group.category in grouped then grouped[group.category] else []) + [group]]
    ensures Built(seen + [group], grouped', categories')
  {
    BuiltKeysListed(seen, grouped, categories, group.category);
    CategoriesSnoc(seen, group);
    assert grouped'.Keys == Categories(seen + [group]);
    CategoryOrderSnoc(seen, group);
    assert categories' == CategoryOrder(seen + [group]);
    PushKeepsBuckets(seen, group, grouped, grouped');
    PushKeepsTotal(group, grouped, categories, grouped', categories');
  }

  /** Having seen the whole catalogue, the built state is the one the reduce promises. */
  lemma BuiltAll(groups: seq<ScriptGroup>, grouped: map<string, seq<ScriptGroup>>, categories: seq<string>)
    requires Built(groups[..|groups|], grouped, categories)
    ensures grouped.Keys == Categories(groups)
    ensures forall c :: c in grouped ==> grouped[c] == InCategory(groups, c) && grouped[c] != []
    ensures categories == CategoryOrder(groups)
    ensures forall i :: 0 <= i < |categories| ==> categories[i] in grouped
    ensures BucketTotal(grouped, categories) == |groups|
  {
    assert groups[..|groups|] == groups;
  }

  /** The reduce step at position n, stated on prefixes of the catalogue. */
  lemma StepKeepsBuilt(
    groups: seq<ScriptGroup>, n: nat,
    grouped: map<string, seq<ScriptGroup>>, categories: seq<string>,
    grouped': map<string, seq<ScriptGroup>>, categories': seq<string>)
    requires n < |groups| && Built(groups[..n], grouped, categories)
    requires categories' == if groups[n].category in grouped then categories else categories + [groups[n].category]
    requires grouped' == grouped[groups[n].category := (if groups[n].category in grouped then grouped[groups[n].category] else []) + [groups[n]]]
    ensures Built(groups[..n + 1], grouped', categories')
  {
    PrefixGrows(groups, n);
    PushKeepsBuilt(groups[..n], groups[n], grouped, categories, grouped', categories');
  }

  lemma PrefixGrows(groups: seq<ScriptGroup>, n: nat)
    requires n < |groups|
    ensures groups[..n + 1] == groups[..n] + [groups[n]]
  {
  }

  /**
   * The `groupedByCategory` reduce: one bucket per category, each group
   * pushed onto its category's bucket in catalogue order. `categories` is
   * the order in which the buckets were created, which is the order the menu
   * lists them in.
   */
  method GroupByCategory(scriptGroups: seq<ScriptGroup>)
    returns (grouped: map<string, seq<ScriptGroup>>, categories: seq<string>)
    ensures grouped.Keys == Categories(scriptGroups)
    ensures forall c :: c in grouped ==> grouped[c] == InCategory(scriptGroups, c) && grouped[c] != []
    ensures categories == CategoryOrder(scriptGroups)
    ensures forall i :: 0 <= i < |categories| ==> categories[i] in grouped
    ensures BucketTotal(grouped, categories) == |scriptGroups|
  {
    grouped, categories := map[], [];
    for n := 0 to |scriptGroups|
      invariant Built(scriptGroups[..n], grouped, categories)
    {
      var group := scriptGroups[n];
      ghost var grouped0, categories0 := grouped, categories;
      if group.category !in grouped {
        grouped := grouped[group.category := []];
        categories := categories + [group.category];
      }
      grouped := grouped[group.category := grouped[group.category] + [group]];
      StepKeepsBuilt(scriptGroups, n, grouped0, categories0, grouped, categories);
    }
    BuiltAll(scriptGroups, grouped, categories);
  }

  /** Each group sits in exactly one bucket: the one of its own category. */
  lemma {:induction false} EveryGroupInItsOwnBucketOnly(groups: seq<ScriptGroup>, k: int, c: string)
    requires 0 <= k < |groups|
    ensures groups[k] in InCategory(groups, groups[k].category)
    ensures c != groups[k].category ==> groups[k] !in InCategory(groups, c)
  {
    InCategoryMembers(groups, groups[k].category, groups[k]);
    InCategoryMembers(groups, c, groups[k]);
  }

  /** `isSelected`: a group is highlighted when its id is the current group id. */
  predicate IsSelected(group: ScriptGroup, currentGroupId: string) {
    group.id == currentGroupId
  }

  /** With distinct ids, at most one group is highlighted. */
  lemma AtMostOneSelected(groups: seq<ScriptGroup>, currentGroupId: string, i: int, j: int)
    requires UniqueGroupIds(groups) && 0 <= i < |groups| && 0 <= j < |groups|
    requires IsSelected(groups[i], currentGroupId) && IsSelected(groups[j], currentGroupId)
    ensures i == j
  {
  }

  /** The calls the menu makes on its parent's callbacks. */
  datatype MenuCall = GroupSelect(groupId: string) | Close

  /** `handleGroupSelect`: forward the picked id, then close the menu. */
  method HandleGroupSelect(groupId: string) returns (calls: seq<MenuCall>)
    ensures calls == [GroupSelect(groupId), Close]
  {
    calls := [GroupSelect(groupId)];
    calls := calls + [Close];
  }
}
