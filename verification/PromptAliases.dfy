/**
 * The observed-model-alias view of backend/prompt_discovery.py: model_identity_aliases is maintained pair by
 * pair as assets are indexed and invalidated, and must stay equal to the aggregate over all active assets.
 */
module PromptAliases {
  import opened Prelude

  /** A normalized model name with a normalized hash. */
  type Pair = (string, string)

  datatype Display = Display(name: string, hash: string)

  datatype Asset = Asset(active: bool, mtime: Option<int>)

  type Assets = map<int, Asset>

  /** asset_model_identity_values: for each asset the pairs observed in it. */
  type Identities = map<int, map<Pair, Display>>

  /** A row of model_identity_aliases. */
  datatype AliasRow = AliasRow(display: Display, count: nat, lastSeen: int)

  type Aliases = map<Pair, AliasRow>

  predicate Holds(assets: Assets, ids: Identities, pair: Pair, a: int) {
    a in assets && assets[a].active && a in ids && pair in ids[a]
  }

  /** The active assets in which the pair is observed. */
  function Holders(assets: Assets, ids: Identities, pair: Pair): set<int> {
    set a | a in ids && Holds(assets, ids, pair, a)
  }

  /** ORDER BY mtime_ns DESC, id DESC: a missing time sorts last. */
  predicate NewerOrSame(assets: Assets, a: int, b: int)
    requires a in assets && b in assets
  {
    match (assets[a].mtime, assets[b].mtime)
    case (Some(x), Some(y)) => x > y || (x == y && a >= b)
    case (Some(_), None) => true
    case (None, Some(_)) => false
    case (None, None) => a >= b
  }

  ghost predicate IsNewest(assets: Assets, holders: set<int>, a: int)
    requires forall x :: x in holders ==> x in assets
  {
    a in holders && forall b :: b in holders ==> NewerOrSame(assets, a, b)
  }

  /** display is what the newest holder shows for the pair. */
  ghost predicate NewestShows(assets: Assets, ids: Identities, pair: Pair, display: Display) {
    exists a :: IsNewest(assets, Holders(assets, ids, pair), a) && ids[a][pair] == display
  }

  ghost predicate IsLatestTime(assets: Assets, holders: set<int>, time: int)
    requires forall x :: x in holders ==> x in assets
  {
    && (exists a :: a in holders && assets[a].mtime.GetOr(0) == time)
    && forall a :: a in holders ==> assets[a].mtime.GetOr(0) <= time
  }

  /** The aggregate query: no row without active assets, else the count, the newest display and the latest time. */
  ghost predicate IsAggregate(assets: Assets, ids: Identities, pair: Pair, row: Option<AliasRow>) {
    var holders := Holders(assets, ids, pair);
    if holders == {} then row == None
    else
      && row.Some? && row.value.count == |holders|
      && NewestShows(assets, ids, pair, row.value.display) && IsLatestTime(assets, holders, row.value.lastSeen)
  }

  function Lookup(aliases: Aliases, pair: Pair): Option<AliasRow> {
    if pair in aliases then Some(aliases[pair]) else None
  }

  /** The view is exact: for every pair it has the aggregate's row, and no row when the count is zero. */
  ghost predicate Exact(assets: Assets, ids: Identities, aliases: Aliases) {
    forall pair :: IsAggregate(assets, ids, pair, Lookup(aliases, pair))
  }

  /** The aggregate is a function of the tables: two exact views are the same view. */
  lemma ExactIsUnique(assets: Assets, ids: Identities, a: Aliases, b: Aliases)
    requires Exact(assets, ids, a) && Exact(assets, ids, b)
    ensures a == b
  {
    forall pair
      ensures Lookup(a, pair) == Lookup(b, pair)
    {
      AggregateIsUnique(assets, ids, pair, Lookup(a, pair), Lookup(b, pair));
    }
    forall pair
      ensures pair in a <==> pair in b
      ensures pair in a ==> a[pair] == b[pair]
    {
      assert Lookup(a, pair) == Lookup(b, pair);
    }
  }

  lemma NewestIsUnique(assets: Assets, ids: Identities, pair: Pair, c: Display, d: Display)
    requires NewestShows(assets, ids, pair, c) && NewestShows(assets, ids, pair, d)
    ensures c == d
  {
    var holders := Holders(assets, ids, pair);
    var a :| IsNewest(assets, holders, a) && ids[a][pair] == c;
    var b :| IsNewest(assets, holders, b) && ids[b][pair] == d;
    assert NewerOrSame(assets, a, b) && NewerOrSame(assets, b, a);
  }

  lemma AggregateIsUnique(assets: Assets, ids: Identities, pair: Pair, r: Option<AliasRow>, s: Option<AliasRow>)
    requires IsAggregate(assets, ids, pair, r) && IsAggregate(assets, ids, pair, s)
    ensures r == s
  {
    hide NewestShows;
    if Holders(assets, ids, pair) != {} {
      NewestIsUnique(assets, ids, pair, r.value.display, s.value.display);
    }
  }

  predicate IsActiveHolder(assets: Assets, ids: Identities, pair: Pair, a: int) {
    a in assets && assets[a].active && a in ids && pair in ids[a]
  }

  function ActiveHolders(assets: Assets, ids: Identities, pair: Pair): set<int> {
    set a | a in ids && IsActiveHolder(assets, ids, pair, a)
  }

  /** No holder is later than a, an unknown time being the earliest, nor as late with a higher id. */
  ghost predicate IsLatestHolder(assets: Assets, ids: Identities, pair: Pair, a: int) {
    IsActiveHolder(assets, ids, pair, a)
    && forall b :: IsActiveHolder(assets, ids, pair, b) ==>
         && (assets[a].mtime.None? ==> assets[b].mtime.None?)
         && (assets[a].mtime.Some? && assets[b].mtime.Some? ==> assets[b].mtime.value <= assets[a].mtime.value)
         && (assets[a].mtime == assets[b].mtime ==> b <= a)
  }

  ghost predicate ShownByLatest(assets: Assets, ids: Identities, pair: Pair, display: Display) {
    exists a :: IsLatestHolder(assets, ids, pair, a) && ids[a][pair] == display
  }

  ghost predicate IsLatest(assets: Assets, ids: Identities, pair: Pair, time: int) {
    && (exists a :: IsActiveHolder(assets, ids, pair, a) && assets[a].mtime.GetOr(0) == time)
    && (forall a :: IsActiveHolder(assets, ids, pair, a) ==> assets[a].mtime.GetOr(0) <= time)
  }

  /** What an exact view shows: the pairs of active assets, how many have them, what the latest shows, and when. */
  lemma ExactViewShows(assets: Assets, ids: Identities, aliases: Aliases, pair: Pair)
    requires Exact(assets, ids, aliases)
    ensures pair in aliases <==> exists a :: IsActiveHolder(assets, ids, pair, a)
    ensures pair in aliases ==>
              && aliases[pair].count == |ActiveHolders(assets, ids, pair)|
              && ShownByLatest(assets, ids, pair, aliases[pair].display)
              && IsLatest(assets, ids, pair, aliases[pair].lastSeen)
  {
    assert IsAggregate(assets, ids, pair, Lookup(aliases, pair));
    assert Holders(assets, ids, pair) == ActiveHolders(assets, ids, pair);
    hide Exact;
    if a :| IsActiveHolder(assets, ids, pair, a) {
      assert a in Holders(assets, ids, pair);
    }
    if pair in aliases {
      var a :| IsNewest(assets, Holders(assets, ids, pair), a) && ids[a][pair] == aliases[pair].display;
      NewestIsLatest(assets, ids, pair, a);
      LatestTime(assets, ids, pair, aliases[pair].lastSeen);
    }
  }

  lemma NewestIsLatest(assets: Assets, ids: Identities, pair: Pair, a: int)
    requires IsNewest(assets, Holders(assets, ids, pair), a)
    ensures IsLatestHolder(assets, ids, pair, a)
  {
    forall b | IsActiveHolder(assets, ids, pair, b)
      ensures b in Holders(assets, ids, pair) && NewerOrSame(assets, a, b)
    {
    }
  }

  lemma LatestTime(assets: Assets, ids: Identities, pair: Pair, time: int)
    requires IsLatestTime(assets, Holders(assets, ids, pair), time)
    ensures IsLatest(assets, ids, pair, time)
  {
    var holders := Holders(assets, ids, pair);
    assert forall a :: IsActiveHolder(assets, ids, pair, a) ==> a in holders;
    var a :| a in holders && assets[a].mtime.GetOr(0) == time;
    assert IsActiveHolder(assets, ids, pair, a);
  }

  /** Rewriting the identities of one asset leaves every pair alone that it neither had nor gets. */
  lemma UntouchedPairKeepsItsRow(
    assets: Assets, ids: Identities, asset: int, pairs: map<Pair, Display>, pair: Pair, row: Option<AliasRow>)
    requires IsAggregate(assets, ids, pair, row)
    requires (asset in ids ==> pair !in ids[asset]) && pair !in pairs
    ensures IsAggregate(assets, ids[asset := pairs], pair, row)
  {
    var holders := Holders(assets, ids, pair);
    assert Holders(assets, ids[asset := pairs], pair) == holders;
    if holders != {} {
      var a :| IsNewest(assets, holders, a) && row.value.display == ids[a][pair];
      assert IsNewest(assets, holders, a) && row.value.display == ids[asset := pairs][a][pair];
    }
  }

  lemma NewestOfMore(assets: Assets, seen: set<int>, newest: int, a: int)
    requires (forall x :: x in seen ==> x in assets) && a in assets && IsNewest(assets, seen, newest)
    ensures IsNewest(assets, seen + {a}, if NewerOrSame(assets, a, newest) then a else newest)
  {
  }

  lemma LatestOfMore(assets: Assets, seen: set<int>, time: int, a: int)
    requires (forall x :: x in seen ==> x in assets) && a in assets && IsLatestTime(assets, seen, time)
    ensures IsLatestTime(assets, seen + {a}, if assets[a].mtime.GetOr(0) > time then assets[a].mtime.GetOr(0) else time)
  {
    var b :| b in seen && assets[b].mtime.GetOr(0) == time;
    assert a in seen + {a} && b in seen + {a};
  }

  /** The aggregate over the active assets of one pair. */
  method Aggregate(assets: Assets, ids: Identities, pair: Pair) returns (row: Option<AliasRow>)
    ensures IsAggregate(assets, ids, pair, row)
  {
    var holders := Holders(assets, ids, pair);
    if holders == {} {
      return None;
    }
    var newest :| newest in holders;
    var first := newest;
    var lastSeen, count;
    newest, lastSeen, count := Scan(assets, holders - {first}, first);
    assert {first} + (holders - {first}) == holders;
    row := Some(AliasRow(ids[newest][pair], count, lastSeen));
  }

  method Scan(assets: Assets, others: set<int>, first: int) returns (newest: int, lastSeen: int, count: nat)
    requires first in assets && first !in others && forall a :: a in others ==> a in assets
    ensures var all := {first} + others;
      IsNewest(assets, all, newest) && IsLatestTime(assets, all, lastSeen) && count == |all|
  {
    newest, lastSeen, count := first, assets[first].mtime.GetOr(0), 1;
    ghost var seen := {first};
    assert first in seen;
    var left := others;
    while left != {}
      invariant left !! seen && left + seen == {first} + others && count == |seen|
      invariant IsNewest(assets, seen, newest) && newest in assets
      invariant IsLatestTime(assets, seen, lastSeen)
      decreases |left|
    {
      HasMember(left);
      var a :| a in left;
      NewestOfMore(assets, seen, newest, a);
      LatestOfMore(assets, seen, lastSeen, a);
      newest := if NewerOrSame(assets, a, newest) then a else newest;
      lastSeen := if assets[a].mtime.GetOr(0) > lastSeen then assets[a].mtime.GetOr(0) else lastSeen;
      count, left, seen := count + 1, left - {a}, seen + {a};
    }
  }

  class PromptDiscoveryStore {
    const assets: Assets
    var identities: Identities
    var aliases: Aliases

    ghost predicate ViewExact()
      reads this
    {
      Exact(assets, identities, aliases)
    }

    constructor (assets: Assets)
      ensures ViewExact() && this.assets == assets && identities == map[] && aliases == map[]
    {
      this.assets, identities, aliases := assets, map[], map[];
    }

    /** Recomputes the row of one pair, or removes it. */
    method RefreshModelAlias(pair: Pair)
      modifies `aliases
      ensures IsAggregate(assets, identities, pair, Lookup(aliases, pair))
      ensures forall p :: p != pair ==> Lookup(aliases, p) == Lookup(old(aliases), p)
    {
      var row := Aggregate(assets, identities, pair);
      aliases := if row.None? then aliases - {pair} else aliases[pair := row.value];
    }

    method RefreshAll(pairs: set<Pair>)
      requires forall p :: p !in pairs ==> IsAggregate(assets, identities, p, Lookup(aliases, p))
      modifies `aliases
      ensures ViewExact()
    {
      hide IsAggregate, Lookup;
      var left := pairs;
      while left != {}
        invariant forall p :: p !in left ==> IsAggregate(assets, identities, p, Lookup(aliases, p))
        decreases |left|
      {
        var pair :| pair in left;
        RefreshModelAlias(pair);
        left := left - {pair};
      }
    }

    /** Replaces the pairs of one asset; only its old and new pairs are refreshed, and the view stays exact. */
    method PersistPromptDiscovery(asset: int, pairs: map<Pair, Display>)
      requires ViewExact()
      modifies this
      ensures ViewExact() && identities == old(identities)[asset := pairs]
    {
      var oldPairs := if asset in identities then identities[asset].Keys else {};
      ghost var before := identities;
      identities := identities[asset := pairs];
      forall p | p !in oldPairs + pairs.Keys
        ensures IsAggregate(assets, identities, p, Lookup(aliases, p))
      {
        UntouchedPairKeepsItsRow(assets, before, asset, pairs, p, Lookup(aliases, p));
      }
      RefreshAll(oldPairs + pairs.Keys);
    }

    /** Drops the pairs of one asset and refreshes exactly those. */
    method InvalidatePromptDiscovery(asset: int)
      requires ViewExact()
      modifies this
      ensures ViewExact() && identities == old(identities)[asset := map[]]
    {
      var oldPairs := if asset in identities then identities[asset].Keys else {};
      ghost var before := identities;
      identities := identities[asset := map[]];
      forall p | p !in oldPairs
        ensures IsAggregate(assets, identities, p, Lookup(aliases, p))
      {
        UntouchedPairKeepsItsRow(assets, before, asset, map[], p, Lookup(aliases, p));
      }
      RefreshAll(oldPairs);
    }
  }

  datatype Write = Persist(asset: int, pairs: map<Pair, Display>) | Invalidate(asset: int)

  function Written(writes: seq<Write>): Identities {
    if writes == [] then map[]
    else
      var w := writes[|writes| - 1];
      Written(writes[..|writes| - 1])[w.asset := if w.Persist? then w.pairs else map[]]
  }

  /** Over every run of persists and invalidations the maintained view is the full aggregate of what was written. */
  method RunWrites(assets: Assets, writes: seq<Write>) returns (aliases: Aliases)
    ensures Exact(assets, Written(writes), aliases)
  {
    var store := new PromptDiscoveryStore(assets);
    for i := 0 to |writes|
      invariant fresh(store) && store.assets == assets && store.ViewExact() && store.identities == Written(writes[..i])
    {
      assert writes[..i + 1][..i] == writes[..i];
      match writes[i]
      case Persist(asset, pairs) => store.PersistPromptDiscovery(asset, pairs);
      case Invalidate(asset) => store.InvalidatePromptDiscovery(asset);
    }
    assert writes[..|writes|] == writes;
    aliases := store.aliases;
  }
}
