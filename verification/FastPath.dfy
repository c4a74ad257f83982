/**
 * Bounded in-process LRU with a time-to-live (backend/derivative_fastpath.py).
 * The ordered dictionary is a list of items, least recently used first.
 */
module FastPath {
  import opened Prelude

  type Key = string

  /** What a request resolved to; serial is the identity of the remembered object. */
  datatype Entry = Entry(serial: nat, sourcePath: string, mtimeNs: int, size: int, assetId: int,
                         derivativeId: int, cachePath: string, etag: string, createdAt: real)

  datatype Item = Item(key: Key, entry: Entry)

  datatype Cache = Cache(capacity: nat, ttl: real, items: seq<Item>)

  predicate Enabled(c: Cache) {
    c.capacity > 0 && c.ttl > 0.0
  }

  ghost predicate UniqueKeys(items: seq<Item>) {
    forall i, j :: 0 <= i < j < |items| ==> items[i].key != items[j].key
  }

  ghost predicate Valid(c: Cache) {
    UniqueKeys(c.items) && |c.items| <= c.capacity && (!Enabled(c) ==> c.items == [])
  }

  function Find(items: seq<Item>, key: Key): Option<Entry> {
    if items == [] then None
    else if items[0].key == key then Some(items[0].entry)
    else Find(items[1..], key)
  }

  function Remove(items: seq<Item>, key: Key): seq<Item> {
    if items == [] then []
    else if items[0].key == key then Remove(items[1..], key)
    else [items[0]] + Remove(items[1..], key)
  }

  /** The most recent n items. */
  function Recent(items: seq<Item>, n: nat): seq<Item> {
    if |items| <= n then items else items[|items| - n..]
  }

  datatype Call =
    | Get(key: Key, now: real)
    | Put(key: Key, entry: Entry)
    | Discard(key: Key, expected: Option<Entry>)
    | Clear

  /** The entry a lookup answers with. */
  function Answer(c: Cache, key: Key, now: real): Option<Entry> {
    if !Enabled(c) then None
    else
      match Find(c.items, key)
      case None => None
      case Some(e) => if now - e.createdAt > c.ttl then None else Some(e)
  }

  function Step(c: Cache, call: Call): Cache {
    match call
    case Get(key, now) =>
      var found := Find(c.items, key);
      if !Enabled(c) || found.None? then c
      else if now - found.value.createdAt > c.ttl then c.(items := Remove(c.items, key))
      else c.(items := Remove(c.items, key) + [Item(key, found.value)])
    case Put(key, entry) =>
      if !Enabled(c) then c
      else c.(items := Recent(Remove(c.items, key) + [Item(key, entry)], c.capacity))
    case Discard(key, expected) =>
      var found := Find(c.items, key);
      if found.Some? && (expected.None? || expected.value.serial == found.value.serial)
      then c.(items := Remove(c.items, key))
      else c
    case Clear => c.(items := [])
  }

  function Run(c: Cache, calls: seq<Call>): Cache {
    if calls == [] then c else Step(Run(c, calls[..|calls| - 1]), calls[|calls| - 1])
  }

  // ---------------------------------------------------------------- list facts

  lemma {:induction false} RemoveMeaning(items: seq<Item>, key: Key)
    requires UniqueKeys(items)
    ensures var r := Remove(items, key);
      && UniqueKeys(r)
      && (forall x :: x in r <==> x in items && x.key != key)
      && |r| == |items| - (if Find(items, key).Some? then 1 else 0)
  {
    if items != [] {
      RemoveMeaning(items[1..], key);
      FindMeaning(items[1..], key);
      FindMeaning(items, key);
    }
  }

  lemma {:induction false} FindMeaning(items: seq<Item>, key: Key)
    requires UniqueKeys(items)
    ensures forall e :: Find(items, key) == Some(e) <==> Item(key, e) in items
  {
    if items != [] {
      FindMeaning(items[1..], key);
      forall e
        ensures Find(items, key) == Some(e) <==> Item(key, e) in items
      {
        assert Item(key, e) in items <==> items[0] == Item(key, e) || Item(key, e) in items[1..];
      }
    }
  }

  lemma StepKeepsValid(c: Cache, call: Call)
    requires Valid(c)
    ensures Valid(Step(c, call))
    ensures Step(c, call).capacity == c.capacity && Step(c, call).ttl == c.ttl
  {
    if !call.Clear? {
      RemoveMeaning(c.items, call.key);
    }
  }

  // ---------------------------------------------------------------- a hit is the latest put

  /** What an unbounded cache without expiry would remember for key. */
  function Latest(calls: seq<Call>, key: Key): Option<Entry> {
    if calls == [] then None
    else
      var before := Latest(calls[..|calls| - 1], key);
      match calls[|calls| - 1]
      case Put(k, e) => if k == key then Some(e) else before
      case Discard(k, expected) =>
        if k == key && before.Some? && (expected.None? || expected.value.serial == before.value.serial)
        then None
        else before
      case Clear => None
      case Get(_, _) => before
  }

  lemma {:induction false} RememberedIsLatest(c: Cache, calls: seq<Call>)
    requires c.items == []
    ensures Valid(Run(c, calls))
    ensures Run(c, calls).capacity == c.capacity && Run(c, calls).ttl == c.ttl
    ensures forall x :: x in Run(c, calls).items ==> Latest(calls, x.key) == Some(x.entry)
  {
    if calls != [] {
      var n := |calls| - 1;
      RememberedIsLatest(c, calls[..n]);
      StepKeepsValid(Run(c, calls[..n]), calls[n]);
      forall x | x in Run(c, calls).items
        ensures Latest(calls, x.key) == Some(x.entry)
      {
        RememberedAfterStep(Run(c, calls[..n]), calls, x);
      }
    }
  }

  lemma RememberedAfterStep(before: Cache, calls: seq<Call>, x: Item)
    requires calls != [] && Valid(before)
    requires forall y :: y in before.items ==> Latest(calls[..|calls| - 1], y.key) == Some(y.entry)
    requires x in Step(before, calls[|calls| - 1]).items
    ensures Latest(calls, x.key) == Some(x.entry)
  {
    var call := calls[|calls| - 1];
    var was := Latest(calls[..|calls| - 1], x.key);
    SurvivorOfStep(before, call, x);
    if x in before.items && call.Discard? && x.key == call.key {
      FindMeaning(before.items, call.key);
    }
  }

  /** What is in the list after a call was there before, unless the call put it there. */
  lemma SurvivorOfStep(before: Cache, call: Call, x: Item)
    requires Valid(before) && x in Step(before, call).items
    ensures (x in before.items && !(call.Put? && x.key == call.key && Enabled(before))) || call == Put(x.key, x.entry)
    ensures call.Discard? && x.key == call.key ==>
              call.expected.Some? && call.expected.value.serial != x.entry.serial
  {
    if !call.Clear? {
      RemoveMeaning(before.items, call.key);
      FindMeaning(before.items, call.key);
      assert x == Item(x.key, x.entry);
    }
  }

  /** In every history a hit is the latest put of its key that was not discarded, and at most ttl old. */
  lemma HitIsLatestPut(c: Cache, calls: seq<Call>, key: Key, now: real)
    requires c.items == []
    ensures |Run(c, calls).items| <= c.capacity
    ensures var hit := Answer(Run(c, calls), key, now);
      hit.Some? ==> Latest(calls, key) == hit && now - hit.value.createdAt <= c.ttl
  {
    RememberedIsLatest(c, calls);
    FindMeaning(Run(c, calls).items, key);
    if Answer(Run(c, calls), key, now).Some? {
      assert Item(key, Answer(Run(c, calls), key, now).value) in Run(c, calls).items;
    }
  }

  /** A hit never extends the lifetime: once an entry answers no more, it stays silent until the key is put again. */
  lemma ExpiryIsFinal(c: Cache, key: Key, first: real, later: real)
    requires Valid(c) && first <= later
    requires Answer(c, key, first).None?
    ensures Answer(Step(c, Get(key, first)), key, later).None?
    ensures Answer(c, key, later).None?
  {
    RemoveMeaning(c.items, key);
    FindMeaning(c.items, key);
    FindMeaning(Remove(c.items, key), key);
    RemoveMeaning(Remove(c.items, key), key);
  }

  // ---------------------------------------------------------------- recency

  /** When a key was last put or asked for: the number of calls up to then. */
  function LastUse(calls: seq<Call>, key: Key): nat {
    if calls == [] then 0
    else
      var call := calls[|calls| - 1];
      if (call.Get? || call.Put?) && call.key == key then |calls| else LastUse(calls[..|calls| - 1], key)
  }

  lemma {:induction false} LastUseIsPast(calls: seq<Call>, key: Key)
    ensures LastUse(calls, key) <= |calls|
  {
    if calls != [] {
      LastUseIsPast(calls[..|calls| - 1], key);
    }
  }

  /** The list is in the order of use. */
  ghost predicate ByUse(items: seq<Item>, calls: seq<Call>) {
    forall i, j :: 0 <= i < j < |items| ==> LastUse(calls, items[i].key) < LastUse(calls, items[j].key)
  }

  lemma {:induction false} RemoveKeepsOrder(items: seq<Item>, key: Key, calls: seq<Call>)
    requires ByUse(items, calls)
    ensures ByUse(Remove(items, key), calls) && forall x :: x in Remove(items, key) ==> x in items && x.key != key
  {
    if items != [] {
      hide LastUse;
      RestIsLater(items, calls);
      RemoveKeepsOrder(items[1..], key, calls);
      hide ByUse;
      FirstStaysFirst(items[0], Remove(items[1..], key), calls);
    }
  }

  lemma RestIsLater(items: seq<Item>, calls: seq<Call>)
    requires items != [] && ByUse(items, calls)
    ensures ByUse(items[1..], calls)
    ensures forall x :: x in items[1..] ==> LastUse(calls, items[0].key) < LastUse(calls, x.key)
  {
    hide LastUse;
    forall x | x in items[1..]
      ensures LastUse(calls, items[0].key) < LastUse(calls, x.key)
    {
      var i :| 0 <= i < |items[1..]| && items[1..][i] == x;
      assert items[i + 1] == x;
    }
  }

  lemma FirstStaysFirst(first: Item, rest: seq<Item>, calls: seq<Call>)
    requires ByUse(rest, calls) && forall x :: x in rest ==> LastUse(calls, first.key) < LastUse(calls, x.key)
    ensures ByUse([first] + rest, calls)
  {
    hide LastUse;
    assert forall j :: 0 <= j < |rest| ==> rest[j] in rest;
  }

  /** A further call on one key leaves the order of the others. */
  lemma OthersKeepOrder(items: seq<Item>, calls: seq<Call>, call: Call)
    requires ByUse(items, calls)
    requires (call.Get? || call.Put?) ==> forall x :: x in items ==> x.key != call.key
    ensures ByUse(items, calls + [call])
    ensures call.Get? || call.Put? ==> forall x :: x in items ==> LastUse(calls + [call], x.key) < |calls| + 1
  {
    assert (calls + [call])[..|calls|] == calls;
    forall x | x in items
      ensures LastUse(calls + [call], x.key) == LastUse(calls, x.key) <= |calls|
    {
      LastUseIsPast(calls, x.key);
    }
    hide LastUse;
    forall i, j | 0 <= i < j < |items|
      ensures LastUse(calls + [call], items[i].key) < LastUse(calls + [call], items[j].key)
    {
      assert items[i] in items && items[j] in items;
    }
  }

  lemma UsedLast(items: seq<Item>, calls: seq<Call>, call: Call, x: Item)
    requires ByUse(items, calls) && (call.Get? || call.Put?) && x.key == call.key
    requires forall y :: y in items ==> y.key != call.key
    ensures ByUse(items + [x], calls + [call])
  {
    OthersKeepOrder(items, calls, call);
    assert LastUse(calls + [call], x.key) == |calls| + 1;
    hide LastUse;
    assert forall i :: 0 <= i < |items| ==> items[i] in items;
  }

  lemma RecentKeepsOrder(items: seq<Item>, n: nat, calls: seq<Call>)
    requires ByUse(items, calls)
    ensures ByUse(Recent(items, n), calls)
  {
    hide LastUse;
  }

  /** Over every run the list is in the order of use, least recently used first. */
  lemma {:induction false} RunIsByUse(c: Cache, calls: seq<Call>)
    requires c.items == []
    ensures ByUse(Run(c, calls).items, calls)
  {
    if calls != [] {
      var front, call := calls[..|calls| - 1], calls[|calls| - 1];
      assert calls == front + [call];
      RunIsByUse(c, front);
      RememberedIsLatest(c, front);
      hide ByUse, LastUse, Valid;
      StepIsByUse(Run(c, front), front, call);
    }
  }

  lemma StepIsByUse(before: Cache, calls: seq<Call>, call: Call)
    requires Valid(before) && ByUse(before.items, calls)
    ensures ByUse(Step(before, call).items, calls + [call])
  {
    match call
    case Get(key, now) => GetIsByUse(before, calls, key, now);
    case Put(key, entry) => PutIsByUse(before, calls, key, entry);
    case Discard(key, expected) =>
      RemoveKeepsOrder(before.items, key, calls);
      OthersKeepOrder(before.items, calls, call);
      OthersKeepOrder(Remove(before.items, key), calls, call);
    case Clear =>
  }

  lemma GetIsByUse(before: Cache, calls: seq<Call>, key: Key, now: real)
    requires Valid(before) && ByUse(before.items, calls)
    ensures ByUse(Step(before, Get(key, now)).items, calls + [Get(key, now)])
  {
    var items, rest := before.items, Remove(before.items, key);
    RemoveKeepsOrder(items, key, calls);
    FindMeaning(items, key);
    OthersKeepOrder(rest, calls, Get(key, now));
    if Find(items, key).None? {
      forall x | x in items
        ensures x.key != key
      {
        assert x == Item(x.key, x.entry);
      }
      OthersKeepOrder(items, calls, Get(key, now));
    } else {
      UsedLast(rest, calls, Get(key, now), Item(key, Find(items, key).value));
    }
    hide ByUse, LastUse, Remove;
  }

  lemma PutIsByUse(before: Cache, calls: seq<Call>, key: Key, entry: Entry)
    requires Valid(before) && ByUse(before.items, calls)
    ensures ByUse(Step(before, Put(key, entry)).items, calls + [Put(key, entry)])
  {
    if Enabled(before) {
      var rest := Remove(before.items, key);
      RemoveKeepsOrder(before.items, key, calls);
      UsedLast(rest, calls, Put(key, entry), Item(key, entry));
      RecentKeepsOrder(rest + [Item(key, entry)], before.capacity, calls + [Put(key, entry)]);
      hide ByUse, LastUse, Remove;
    }
  }

  /** What a put evicts from a full list was used before everything that stays. */
  lemma EvictionIsLeastRecent(c: Cache, calls: seq<Call>, key: Key, entry: Entry, gone: Item, stays: Item)
    requires c.items == [] && Enabled(c)
    requires var (before, after) := (Run(c, calls), Step(Run(c, calls), Put(key, entry)));
      gone in before.items && gone !in after.items && gone.key != key && stays in after.items && stays.key != key
    ensures LastUse(calls, gone.key) < LastUse(calls, stays.key) && |Run(c, calls).items| == c.capacity
  {
    var items := Run(c, calls).items;
    RunIsByUse(c, calls);
    RememberedIsLatest(c, calls);
    RemoveKeepsOrder(items, key, calls);
    RemoveMeaning(items, key);
    hide LastUse, Run, Remove, Recent;
    var j := DroppedIsFirst(Remove(items, key), Item(key, entry), c.capacity, gone, stays);
  }

  lemma DroppedIsFirst(rest: seq<Item>, x: Item, n: nat, gone: Item, stays: Item) returns (j: nat)
    requires gone in rest && gone !in Recent(rest + [x], n) && stays in Recent(rest + [x], n) && stays.key != x.key
    requires |rest| <= n
    ensures |rest| == n && 0 < j < |rest| && rest[0] == gone && rest[j] == stays
  {
    var i :| 0 <= i < |rest| && rest[i] == gone;
    OnlyFirstGoes(rest, x, n, i);
    var all := rest + [x];
    assert Recent(all, n) == all[1..];
    var k :| 0 <= k < |all[1..]| && all[1..][k] == stays;
    j := k + 1;
    assert all[j] == stays;
  }

  lemma OnlyFirstGoes(rest: seq<Item>, x: Item, n: nat, i: nat)
    requires |rest| <= n && i < |rest|
    ensures |rest| < n || i > 0 ==> rest[i] in Recent(rest + [x], n)
  {
    var all := rest + [x];
    assert all[i] == rest[i] && (i > 0 ==> all[1..][i - 1] == rest[i]);
  }

  lemma {:induction false} RemoveConcat(a: seq<Item>, b: seq<Item>, key: Key)
    ensures Remove(a + b, key) == Remove(a, key) + Remove(b, key)
  {
    if a == [] {
      assert a + b == b;
    } else {
      assert (a + b)[1..] == a[1..] + b;
      RemoveConcat(a[1..], b, key);
    }
  }

  /** x is in the list, and behind it only items of these keys. */
  ghost predicate Holds(items: seq<Item>, x: Item, used: set<Key>) {
    exists a, b :: Splits(items, a, x, b, used)
  }

  ghost predicate Splits(items: seq<Item>, a: seq<Item>, x: Item, b: seq<Item>, used: set<Key>) {
    items == a + [x] + b && KeysOf(b) <= used && x.key !in used
  }

  /** The calls that can push the entry of a key out: none but uses of other keys, and of the key only live lookups. */
  predicate Spares(call: Call, x: Item, ttl: real) {
    match call
    case Get(key, now) => key == x.key ==> now - x.entry.createdAt <= ttl
    case Put(key, _) => key != x.key
    case Discard(key, _) => key != x.key
    case Clear => false
  }

  function Used(calls: seq<Call>, except: Key): set<Key> {
    set call | call in calls && (call.Get? || call.Put?) && call.key != except :: call.key
  }

  lemma RemovedSplit(items: seq<Item>, a: seq<Item>, x: Item, b: seq<Item>, used: set<Key>, key: Key)
    requires UniqueKeys(items) && Splits(items, a, x, b, used) && key != x.key
    ensures Splits(Remove(items, key), Remove(a, key), x, Remove(b, key), used)
  {
    RemoveConcat(a + [x], b, key);
    RemoveConcat(a, [x], key);
    assert Remove([x], key) == [x];
    UniqueTail(items, |a| + 1);
    assert items[|a| + 1..] == b;
    RemoveMeaning(b, key);
    assert KeysOf(Remove(b, key)) <= KeysOf(b);
  }

  lemma SplitGrows(items: seq<Item>, a: seq<Item>, x: Item, b: seq<Item>, used: set<Key>, y: Item)
    requires Splits(items, a, x, b, used) && y.key != x.key
    ensures Splits(items + [y], a, x, b + [y], used + {y.key})
  {
    assert items + [y] == a + [x] + (b + [y]);
    assert forall z :: z in b + [y] ==> z in b || z == y;
  }

  lemma UniqueTail(items: seq<Item>, n: nat)
    requires UniqueKeys(items) && n <= |items|
    ensures UniqueKeys(items[n..])
  {
  }

  lemma {:induction false} KeysAreCounted(items: seq<Item>)
    requires UniqueKeys(items)
    ensures |KeysOf(items)| == |items|
  {
    if items != [] {
      UniqueTail(items, 1);
      KeysAreCounted(items[1..]);
      assert items == [items[0]] + items[1..];
      assert KeysOf(items) == KeysOf(items[1..]) + {items[0].key};
    }
  }

  /** Cutting the list to its capacity spares x, as long as fewer other keys than that were used. */
  lemma CutSpares(items: seq<Item>, a: seq<Item>, x: Item, b: seq<Item>, used: set<Key>, n: nat)
    requires UniqueKeys(items) && Splits(items, a, x, b, used) && |used| < n && |items| <= n + 1
    ensures Holds(Recent(items, n), x, used)
  {
    if |items| > n {
      UniqueTail(items, |a| + 1);
      assert items[|a| + 1..] == b;
      KeysAreCounted(b);
      SmallerSubset(KeysOf(b), used);
      assert |a| >= 1 && Recent(items, n) == a[1..] + [x] + b;
      assert Splits(Recent(items, n), a[1..], x, b, used);
    } else {
      assert Splits(Recent(items, n), a, x, b, used);
    }
  }

  lemma StepSpares(c: Cache, call: Call, x: Item, used: set<Key>)
    requires Valid(c) && Enabled(c) && Holds(c.items, x, used) && Spares(call, x, c.ttl)
    requires |used + (if (call.Get? || call.Put?) && call.key != x.key then {call.key} else {})| < c.capacity
    ensures var more := used + (if (call.Get? || call.Put?) && call.key != x.key then {call.key} else {});
      Holds(Step(c, call).items, x, more)
  {
    var a, b :| Splits(c.items, a, x, b, used);
    if call.key == x.key {
      UsedAgain(c, call, a, x, b, used);
    } else {
      RemovedSplit(c.items, a, x, b, used, call.key);
      RemoveMeaning(c.items, call.key);
      if call.Put? {
        var y, rest := Item(call.key, call.entry), Remove(c.items, call.key);
        SplitGrows(rest, Remove(a, call.key), x, Remove(b, call.key), used, y);
        hide Splits, Holds, Remove, Recent;
        CutSpares(rest + [y], Remove(a, call.key), x, Remove(b, call.key) + [y], used + {call.key}, c.capacity);
      } else {
        OtherCallSpares(c, call, a, x, b, used);
      }
    }
  }

  lemma UsedAgain(c: Cache, call: Call, a: seq<Item>, x: Item, b: seq<Item>, used: set<Key>)
    requires Valid(c) && Enabled(c) && Splits(c.items, a, x, b, used) && Spares(call, x, c.ttl)
    requires !call.Clear? && call.key == x.key
    ensures Holds(Step(c, call).items, x, used)
  {
    assert c.items[|a|] == x && x == Item(x.key, x.entry);
    FindMeaning(c.items, x.key);
    assert Find(c.items, x.key) == Some(x.entry);
    var rest := Remove(c.items, x.key);
    assert rest + [x] == rest + [x] + [];
    assert Splits(rest + [x], rest, x, [], used);
  }

  lemma OtherCallSpares(c: Cache, call: Call, a: seq<Item>, x: Item, b: seq<Item>, used: set<Key>)
    requires Valid(c) && Enabled(c) && Splits(c.items, a, x, b, used) && (call.Get? || call.Discard?)
    requires call.key != x.key
    ensures Holds(Step(c, call).items, x, used + if call.Get? then {call.key} else {})
  {
    var more, key := used + if call.Get? then {call.key} else {}, call.key;
    RemovedSplit(c.items, a, x, b, used, key);
    assert Splits(c.items, a, x, b, more);
    assert Splits(Remove(c.items, key), Remove(a, key), x, Remove(b, key), more);
    if call.Get? && Find(c.items, key).Some? {
      SplitGrows(Remove(c.items, key), Remove(a, key), x, Remove(b, key), used, Item(key, Find(c.items, key).value));
    }
  }

  /**
   * An entry that is put answers until it expires, as long as it is neither discarded nor put again and fewer other
   * keys than the capacity are used meanwhile.
   */
  lemma {:induction false} RemembersRecent(c: Cache, x: Item, calls: seq<Call>)
    requires Valid(c) && Enabled(c) && |Used(calls, x.key)| < c.capacity
    requires forall call :: call in calls ==> Spares(call, x, c.ttl)
    ensures var after := Run(Step(c, Put(x.key, x.entry)), calls);
      && Valid(after) && after.capacity == c.capacity && after.ttl == c.ttl
      && Holds(after.items, x, Used(calls, x.key))
  {
    var start := Step(c, Put(x.key, x.entry));
    StepKeepsValid(c, Put(x.key, x.entry));
    if calls == [] {
      var items := Remove(c.items, x.key) + [x];
      assert items == Remove(c.items, x.key) + [x] + [];
      assert Splits(items, Remove(c.items, x.key), x, [], {});
      RemoveMeaning(c.items, x.key);
      CutSpares(items, Remove(c.items, x.key), x, [], {}, c.capacity);
      assert Used([], x.key) == {};
    } else {
      var front, call := calls[..|calls| - 1], calls[|calls| - 1];
      assert calls == front + [call] && call in calls;
      var used := Used(front, x.key);
      assert Used(calls, x.key) == used + (if (call.Get? || call.Put?) && call.key != x.key then {call.key} else {});
      SmallerSubset(used, Used(calls, x.key));
      RemembersRecent(c, x, front);
      hide Used, Holds, Valid, Step;
      StepSpares(Run(start, front), call, x, used);
      StepKeepsValid(Run(start, front), call);
    }
  }

  /** So a lookup within the lifetime finds it. */
  lemma RecentPutIsHit(c: Cache, x: Item, calls: seq<Call>, now: real)
    requires Valid(c) && Enabled(c) && |Used(calls, x.key)| < c.capacity
    requires (forall call :: call in calls ==> Spares(call, x, c.ttl)) && now - x.entry.createdAt <= c.ttl
    ensures Answer(Run(Step(c, Put(x.key, x.entry)), calls), x.key, now) == Some(x.entry)
  {
    RemembersRecent(c, x, calls);
    var after := Run(Step(c, Put(x.key, x.entry)), calls);
    var a, b :| Splits(after.items, a, x, b, Used(calls, x.key));
    assert after.items[|a|] == x && x == Item(x.key, x.entry);
    FindMeaning(after.items, x.key);
  }

  // ---------------------------------------------------------------- inclusion

  /** The items whose keys belong to a set, in their order. */
  function Keep(items: seq<Item>, keys: set<Key>): seq<Item> {
    if items == [] then []
    else if items[0].key in keys then [items[0]] + Keep(items[1..], keys)
    else Keep(items[1..], keys)
  }

  function KeysOf(items: seq<Item>): set<Key> {
    set x | x in items :: x.key
  }

  /** What a smaller and a larger cache keep when they see the same calls: the same order, and bounded extras. */
  ghost predicate Included(s: Cache, l: Cache) {
    && Valid(s) && Valid(l) && s.ttl == l.ttl && s.capacity <= l.capacity
    && s.items == Keep(l.items, KeysOf(s.items))
    && |l.items| - |s.items| <= l.capacity - s.capacity
  }

  lemma {:induction false} KeepMeaning(items: seq<Item>, keys: set<Key>)
    ensures forall x :: x in Keep(items, keys) <==> x in items && x.key in keys
    ensures |Keep(items, keys)| <= |items|
  {
    if items != [] {
      KeepMeaning(items[1..], keys);
      assert items == [items[0]] + items[1..];
    }
  }

  lemma {:induction false} KeepAppend(items: seq<Item>, x: Item, keys: set<Key>)
    ensures Keep(items + [x], keys) == Keep(items, keys) + if x.key in keys then [x] else []
  {
    if items == [] {
      assert items + [x] == [x];
    } else {
      assert (items + [x])[1..] == items[1..] + [x];
      KeepAppend(items[1..], x, keys);
    }
  }

  lemma {:induction false} KeepRemove(items: seq<Item>, key: Key, keys: set<Key>)
    ensures Remove(Keep(items, keys), key) == Keep(Remove(items, key), keys) == Keep(items, keys - {key})
  {
    if items != [] {
      KeepRemove(items[1..], key, keys);
    }
  }

  /** Only the keys that occur matter. */
  lemma {:induction false} KeepSame(items: seq<Item>, a: set<Key>, b: set<Key>)
    requires forall x :: x in items ==> (x.key in a <==> x.key in b)
    ensures Keep(items, a) == Keep(items, b)
  {
    if items != [] {
      assert items == [items[0]] + items[1..];
      KeepSame(items[1..], a, b);
    }
  }

  lemma {:induction false} RemoveAbsent(items: seq<Item>, key: Key)
    requires forall x :: x in items ==> x.key != key
    ensures Remove(items, key) == items
  {
    if items != [] {
      assert items == [items[0]] + items[1..];
      RemoveAbsent(items[1..], key);
    }
  }

  lemma RemoveHead(items: seq<Item>)
    requires UniqueKeys(items) && items != []
    ensures Remove(items, items[0].key) == items[1..]
  {
    RemoveAbsent(items[1..], items[0].key);
  }

  /** A key the smaller cache remembers is remembered by the larger one with the same entry. */
  lemma IncludedFind(s: Cache, l: Cache, key: Key)
    requires Included(s, l)
    ensures Find(s.items, key).Some? ==> Find(l.items, key) == Find(s.items, key)
    ensures forall x :: x in s.items ==> x in l.items
  {
    KeepMeaning(l.items, KeysOf(s.items));
    FindMeaning(s.items, key);
    FindMeaning(l.items, key);
    if Find(s.items, key).Some? {
      assert Item(key, Find(s.items, key).value) in l.items;
    }
  }

  lemma IncludedRemove(s: Cache, l: Cache, key: Key)
    requires Included(s, l)
    ensures Included(s.(items := Remove(s.items, key)), l.(items := Remove(l.items, key)))
    ensures Remove(s.items, key) == Keep(l.items, KeysOf(s.items) - {key})
  {
    RemoveMeaning(s.items, key);
    RemoveMeaning(l.items, key);
    IncludedFind(s, l, key);
    KeepRemove(l.items, key, KeysOf(s.items));
    KeepSame(Remove(l.items, key), KeysOf(s.items), KeysOf(Remove(s.items, key)));
  }

  /** Appending the same fresh item on both sides, before any eviction. */
  lemma IncludedAppend(s: seq<Item>, l: seq<Item>, x: Item)
    requires s == Keep(l, KeysOf(s))
    requires forall y :: y in l ==> y.key != x.key
    ensures s + [x] == Keep(l + [x], KeysOf(s + [x]))
  {
    assert x in s + [x];
    KeepAppend(l, x, KeysOf(s + [x]));
    assert forall y :: y in s + [x] <==> y in s || y == x;
    KeepSame(l, KeysOf(s), KeysOf(s + [x]));
  }

  lemma EvictSmall(s: seq<Item>, l: seq<Item>)
    requires UniqueKeys(s) && UniqueKeys(l) && s != [] && s == Keep(l, KeysOf(s))
    ensures s[1..] == Keep(l, KeysOf(s[1..]))
  {
    RemoveHead(s);
    KeepRemove(l, s[0].key, KeysOf(s));
    assert s == [s[0]] + s[1..];
    KeepSame(l, KeysOf(s) - {s[0].key}, KeysOf(s[1..]));
  }

  lemma EvictBoth(s: seq<Item>, l: seq<Item>)
    requires UniqueKeys(s) && UniqueKeys(l) && s != [] && l != [] && s == Keep(l, KeysOf(s))
    ensures s[1..] == Keep(l[1..], KeysOf(s[1..]))
  {
    EvictSmall(s, l);
    var rest, head := s[1..], l[0];
    assert head.key in KeysOf(s) ==> s[0] == head;
    assert head.key in KeysOf(rest) ==> [head] <= rest;
    assert KeysOf(rest) <= KeysOf(s) by {
      assert forall y :: y in rest ==> y in s;
    }
    assert rest != [] ==> rest[0] == s[1];
  }

  lemma EvictPair(s: seq<Item>, l: seq<Item>, small: nat, large: nat)
    requires UniqueKeys(s) && UniqueKeys(l) && s == Keep(l, KeysOf(s))
    requires |s| <= small + 1 && |l| <= large + 1 && |l| - |s| <= large - small
    ensures Recent(s, small) == Keep(Recent(l, large), KeysOf(Recent(s, small)))
    ensures |Recent(l, large)| - |Recent(s, small)| <= large - small
  {
    if |l| > large {
      EvictBoth(s, l);
      assert Recent(l, large) == l[1..] && Recent(s, small) == s[1..];
    } else if |s| > small {
      EvictSmall(s, l);
      assert Recent(l, large) == l && Recent(s, small) == s[1..];
    }
  }

  lemma IncludedPut(s: Cache, l: Cache, key: Key, entry: Entry)
    requires Included(s, l) && Enabled(s)
    ensures Included(Step(s, Put(key, entry)), Step(l, Put(key, entry)))
  {
    StepKeepsValid(s, Put(key, entry));
    StepKeepsValid(l, Put(key, entry));
    RemovedPair(s, l, key);
    var x := Item(key, entry);
    var s0, l0 := Remove(s.items, key), Remove(l.items, key);
    IncludedAppend(s0, l0, x);
    EvictPair(s0 + [x], l0 + [x], s.capacity, l.capacity);
  }

  /** The two lists without key: still related, with at most one place freed on the larger side only. */
  lemma RemovedPair(s: Cache, l: Cache, key: Key)
    requires Included(s, l)
    ensures var s0, l0 := Remove(s.items, key), Remove(l.items, key);
      && UniqueKeys(s0) && UniqueKeys(l0) && s0 == Keep(l0, KeysOf(s0))
      && (forall y :: y in l0 ==> y.key != key) && (forall y :: y in s0 ==> y.key != key)
      && |s0| <= |s.items| && |l0| <= |l.items| && |l0| - |s0| <= l.capacity - s.capacity
  {
    IncludedRemove(s, l, key);
    RemoveMeaning(s.items, key);
    RemoveMeaning(l.items, key);
  }

  lemma IncludedGet(s: Cache, l: Cache, key: Key, now: real)
    requires Included(s, l) && Enabled(s)
    ensures Included(Step(s, Get(key, now)), Step(l, Get(key, now)))
  {
    StepKeepsValid(s, Get(key, now));
    StepKeepsValid(l, Get(key, now));
    IncludedFind(s, l, key);
    RemovedPair(s, l, key);
    if Find(s.items, key).Some? {
      IncludedRemove(s, l, key);
      IncludedAppend(Remove(s.items, key), Remove(l.items, key), Item(key, Find(s.items, key).value));
    } else if Find(l.items, key).Some? {
      IncludedGetMiss(s, l, key);
    }
  }

  /** Only the larger cache holds key: refreshing or dropping it there does not touch the common items. */
  lemma IncludedGetMiss(s: Cache, l: Cache, key: Key)
    requires Included(s, l) && Find(s.items, key).None? && Find(l.items, key).Some?
    ensures s.items == Keep(Remove(l.items, key), KeysOf(s.items))
    ensures s.items == Keep(Remove(l.items, key) + [Item(key, Find(l.items, key).value)], KeysOf(s.items))
    ensures |Remove(l.items, key)| == |l.items| - 1
  {
    FindMeaning(s.items, key);
    assert forall y :: y in s.items ==> y.key != key by {
      forall y | y in s.items
        ensures y.key != key
      {
        assert y == Item(y.key, y.entry);
      }
    }
    RemoveMeaning(l.items, key);
    IncludedRemove(s, l, key);
    RemoveAbsent(s.items, key);
    KeepAppend(Remove(l.items, key), Item(key, Find(l.items, key).value), KeysOf(s.items));
  }

  lemma IncludedDiscard(s: Cache, l: Cache, key: Key, expected: Option<Entry>)
    requires Included(s, l)
    ensures Included(Step(s, Discard(key, expected)), Step(l, Discard(key, expected)))
  {
    IncludedRemove(s, l, key);
    IncludedFind(s, l, key);
    FindMeaning(s.items, key);
    if Find(s.items, key).None? {
      RemoveAbsent(s.items, key);
    }
  }

  /**
   * Stack property: for the same calls and clock readings the contents of a smaller cache are
   * always part of the contents of a larger one.
   */
  lemma {:induction false} Inclusion(small: Cache, large: Cache, calls: seq<Call>)
    requires small.items == [] && large.items == []
    requires small.ttl == large.ttl && Enabled(small) && small.capacity <= large.capacity
    ensures Included(Run(small, calls), Run(large, calls))
    ensures Enabled(Run(small, calls))
    ensures forall x :: x in Run(small, calls).items ==> x in Run(large, calls).items
  {
    if calls != [] {
      var n := |calls| - 1;
      Inclusion(small, large, calls[..n]);
      var s, l := Run(small, calls[..n]), Run(large, calls[..n]);
      StepKeepsValid(s, calls[n]);
      match calls[n]
      case Get(key, now) => IncludedGet(s, l, key, now);
      case Put(key, entry) => IncludedPut(s, l, key, entry);
      case Discard(key, expected) => IncludedDiscard(s, l, key, expected);
      case Clear =>
    }
    IncludedFind(Run(small, calls), Run(large, calls), "");
  }

  // ---------------------------------------------------------------- the object the handlers share

  /** Thread-safe in the source by one lock per call, so each method is one atomic step. */
  class DerivativeFastPath {
    const maxEntries: nat
    const ttlSeconds: real
    var entries: seq<Item>

    ghost function State(): Cache
      reads this
    {
      Cache(maxEntries, ttlSeconds, entries)
    }

    constructor (maxEntries: int, ttlSeconds: real)
      ensures State() ==
              Cache(if maxEntries < 0 then 0 else maxEntries, if ttlSeconds < 0.0 then 0.0 else ttlSeconds, [])
      ensures Valid(State())
    {
      this.maxEntries := if maxEntries < 0 then 0 else maxEntries;
      this.ttlSeconds := if ttlSeconds < 0.0 then 0.0 else ttlSeconds;
      entries := [];
    }

    method Lookup(key: Key, now: real) returns (hit: Option<Entry>)
      requires Valid(State())
      modifies this
      ensures State() == Step(old(State()), Get(key, now)) && Valid(State())
      ensures hit == old(Answer(State(), key, now))
    {
      StepKeepsValid(State(), Get(key, now));
      if !(maxEntries > 0 && ttlSeconds > 0.0) {
        return None;
      }
      hit := Find(entries, key);
      if hit.None? {
        return None;
      }
      if now - hit.value.createdAt > ttlSeconds {
        entries := Remove(entries, key);
        return None;
      }
      entries := Remove(entries, key) + [Item(key, hit.value)];
    }

    method Remember(key: Key, entry: Entry)
      requires Valid(State())
      modifies this
      ensures State() == Step(old(State()), Put(key, entry)) && Valid(State())
    {
      StepKeepsValid(State(), Put(key, entry));
      if !(maxEntries > 0 && ttlSeconds > 0.0) {
        return;
      }
      ghost var full := Remove(entries, key) + [Item(key, entry)];
      entries := Remove(entries, key) + [Item(key, entry)];
      while |entries| > maxEntries
        invariant |entries| <= |full| && entries == full[|full| - |entries|..]
        invariant |entries| >= maxEntries || entries == full
      {
        entries := entries[1..];
      }
    }

    method Forget(key: Key, expected: Option<Entry>)
      requires Valid(State())
      modifies this
      ensures State() == Step(old(State()), Discard(key, expected)) && Valid(State())
    {
      StepKeepsValid(State(), Discard(key, expected));
      var current := Find(entries, key);
      if current.Some? && (expected.None? || current.value.serial == expected.value.serial) {
        entries := Remove(entries, key);
      }
    }

    method Reset()
      modifies this
      ensures State() == Step(old(State()), Clear) && Valid(State())
    {
      entries := [];
    }
  }
}
