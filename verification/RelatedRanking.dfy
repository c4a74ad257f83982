/** Candidate collection and scoring for related assets: backend/related_ranking.py. */
module RelatedRanking {
  import opened Prelude
  import opened GenerationSignatures
  import opened PromptAtoms

  // ---------------------------------------------------------------- candidates

  const MAX_CANDIDATES := 600

  /** Branches that run whatever the count: the model, up to 8 hashes, 8 names and 16 workflow properties. */
  const MAX_LATER_BRANCHES := 33

  /** Adds unseen rows until the list is full; a list that is already full still takes one. */
  function Extend(ids: seq<int>, rows: seq<int>): seq<int>
    decreases |rows|
  {
    if rows == [] then ids
    else if rows[0] in ids then Extend(ids, rows[1..])
    else if |ids| + 1 >= MAX_CANDIDATES then ids + [rows[0]]
    else Extend(ids + [rows[0]], rows[1..])
  }

  function ExtendAll(ids: seq<int>, branches: seq<seq<int>>): seq<int> {
    if branches == [] then ids else Extend(ExtendAll(ids, branches[..|branches| - 1]), branches[|branches| - 1])
  }

  lemma {:induction false} ExtendKeeps(ids: seq<int>, rows: seq<int>)
    requires Distinct(ids)
    ensures var r := Extend(ids, rows);
      && Distinct(r) && ids <= r && (forall x :: x in r ==> x in ids || x in rows)
      && |r| <= (if |ids| < MAX_CANDIDATES then MAX_CANDIDATES else |ids| + 1)
    decreases |rows|
  {
    if rows != [] {
      if rows[0] in ids {
        ExtendKeeps(ids, rows[1..]);
      } else {
        assert Distinct(ids + [rows[0]]);
        if |ids| + 1 < MAX_CANDIDATES {
          ExtendKeeps(ids + [rows[0]], rows[1..]);
        }
      }
    }
  }

  lemma {:induction false} ExtendAllKeeps(ids: seq<int>, branches: seq<seq<int>>)
    requires Distinct(ids)
    ensures var r := ExtendAll(ids, branches);
      && Distinct(r)
      && |r| <= (if |ids| >= MAX_CANDIDATES then |ids| + |branches|
                 else if branches == [] then |ids|
                 else MAX_CANDIDATES + |branches| - 1)
      && (forall x :: x in r ==> x in ids || exists k :: 0 <= k < |branches| && x in branches[k])
  {
    if branches != [] {
      var front, last := branches[..|branches| - 1], branches[|branches| - 1];
      ExtendAllKeeps(ids, front);
      ExtendKeeps(ExtendAll(ids, front), last);
      forall x | x in ExtendAll(ids, branches) && x !in ids
        ensures exists k :: 0 <= k < |branches| && x in branches[k]
      {
        if x in last {
          assert x in branches[|branches| - 1];
        } else {
          var k :| 0 <= k < |front| && x in front[k];
          assert x in branches[k];
        }
      }
    }
  }

  /** One query result row after another: unseen ids are appended until the cap is reached. */
  method ExtendWith(ids: seq<int>, seen: set<int>, rows: seq<int>) returns (extended: seq<int>, nowSeen: set<int>)
    requires seen == set x | x in ids
    ensures extended == Extend(ids, rows) && nowSeen == set x | x in extended
  {
    extended, nowSeen := ids, seen;
    var i := 0;
    while i < |rows|
      invariant 0 <= i <= |rows|
      invariant Extend(extended, rows[i..]) == Extend(ids, rows) && nowSeen == set x | x in extended
    {
      assert rows[i..][1..] == rows[i + 1..];
      if rows[i] !in nowSeen {
        nowSeen, extended := nowSeen + {rows[i]}, extended + [rows[i]];
        if |extended| >= MAX_CANDIDATES {
          return;
        }
      }
      i := i + 1;
    }
  }

  /** Branches up to the one that fills the list. */
  function ExtendUntilFull(ids: seq<int>, branches: seq<seq<int>>): seq<int> {
    if branches == [] then ids
    else
      var before := ExtendUntilFull(ids, branches[..|branches| - 1]);
      if |before| >= MAX_CANDIDATES then before else Extend(before, branches[|branches| - 1])
  }

  /** Digest lookups stop at the cap; later branches do not, except the last, full-text one. */
  function Candidates(digests: seq<seq<int>>, recipeOnly: bool, later: seq<seq<int>>, text: seq<int>): seq<int> {
    var first := ExtendUntilFull([], digests);
    if recipeOnly || |first| >= MAX_CANDIDATES then first
    else
      var more := ExtendAll(first, later);
      if |more| < MAX_CANDIDATES then Extend(more, text) else more
  }

  lemma {:induction false} ExtendIsComplete(ids: seq<int>, rows: seq<int>)
    ensures ids <= Extend(ids, rows)
    ensures |Extend(ids, rows)| < MAX_CANDIDATES ==> forall x :: x in rows ==> x in Extend(ids, rows)
    decreases |rows|
  {
    if rows != [] {
      assert rows == [rows[0]] + rows[1..];
      if rows[0] in ids {
        ExtendIsComplete(ids, rows[1..]);
      } else if |ids| + 1 < MAX_CANDIDATES {
        ExtendIsComplete(ids + [rows[0]], rows[1..]);
        assert rows[0] in ids + [rows[0]];
      }
    }
  }

  /** Every row of every branch is in the list. */
  ghost predicate HoldsAll(ids: seq<int>, branches: seq<seq<int>>) {
    forall k, x :: 0 <= k < |branches| && x in branches[k] ==> x in ids
  }

  lemma LongerHoldsAll(ids: seq<int>, longer: seq<int>, branches: seq<seq<int>>, last: seq<int>)
    requires ids <= longer && HoldsAll(ids, branches)
    ensures HoldsAll(longer, branches)
    ensures (forall x :: x in last ==> x in longer) ==> HoldsAll(longer, branches + [last])
  {
    forall k, x | 0 <= k < |branches| && x in branches[k]
      ensures x in longer
    {
      assert x in ids && longer == ids + longer[|ids|..];
    }
  }

  lemma {:induction false} LaterAreComplete(ids: seq<int>, branches: seq<seq<int>>)
    ensures ids <= ExtendAll(ids, branches)
    ensures |ExtendAll(ids, branches)| < MAX_CANDIDATES ==> HoldsAll(ExtendAll(ids, branches), branches)
  {
    if branches != [] {
      var front, last := branches[..|branches| - 1], branches[|branches| - 1];
      LaterAreComplete(ids, front);
      ExtendIsComplete(ExtendAll(ids, front), last);
      if |ExtendAll(ids, branches)| < MAX_CANDIDATES {
        LongerHoldsAll(ExtendAll(ids, front), ExtendAll(ids, branches), front, last);
      }
      assert branches == front + [last];
    }
  }

  lemma {:induction false} DigestsAreComplete(ids: seq<int>, branches: seq<seq<int>>)
    requires |ExtendUntilFull(ids, branches)| < MAX_CANDIDATES
    ensures HoldsAll(ExtendUntilFull(ids, branches), branches)
  {
    if branches != [] {
      var front, last := branches[..|branches| - 1], branches[|branches| - 1];
      DigestsAreComplete(ids, front);
      ExtendIsComplete(ExtendUntilFull(ids, front), last);
      LongerHoldsAll(ExtendUntilFull(ids, front), ExtendUntilFull(ids, branches), front, last);
      assert branches == front + [last];
    }
  }

  /** Below the cap nothing any branch found is missing. */
  lemma UncappedIsComplete(digests: seq<seq<int>>, later: seq<seq<int>>, text: seq<int>)
    requires |Candidates(digests, false, later, text)| < MAX_CANDIDATES
    ensures var ids := Candidates(digests, false, later, text);
      HoldsAll(ids, digests) && HoldsAll(ids, later) && forall x :: x in text ==> x in ids
  {
    var first := ExtendUntilFull([], digests);
    var more := ExtendAll(first, later);
    LaterAreComplete(first, later);
    ExtendIsComplete(more, text);
    hide Extend, ExtendAll, ExtendUntilFull;
    DigestsAreComplete([], digests);
    LongerHoldsAll(first, more, digests, []);
    LongerHoldsAll(more, Extend(more, text), digests, []);
    LongerHoldsAll(more, Extend(more, text), later, []);
  }

  method CandidateIds(digests: seq<seq<int>>, recipeOnly: bool, later: seq<seq<int>>, text: seq<int>)
    returns (ids: seq<int>)
    requires |later| <= MAX_LATER_BRANCHES
    ensures ids == Candidates(digests, recipeOnly, later, text)
    ensures Distinct(ids) && |ids| <= 632
    ensures recipeOnly ==> |ids| <= MAX_CANDIDATES
  {
    ids := [];
    var seen: set<int> := {};
    for i := 0 to |digests|
      invariant Distinct(ids) && |ids| < MAX_CANDIDATES && seen == set x | x in ids
      invariant ids == ExtendUntilFull([], digests[..i])
    {
      assert digests[..i + 1][..i] == digests[..i];
      ExtendKeeps(ids, digests[i]);
      ids, seen := ExtendWith(ids, seen, digests[i]);
      if |ids| >= MAX_CANDIDATES {
        FullStaysFull([], digests, i + 1);
        return;
      }
    }
    assert digests[..|digests|] == digests;
    if recipeOnly {
      return;
    }
    ghost var first := ids;
    for i := 0 to |later|
      invariant ids == ExtendAll(first, later[..i]) && seen == set x | x in ids
    {
      assert later[..i + 1][..i] == later[..i];
      ids, seen := ExtendWith(ids, seen, later[i]);
    }
    assert later[..|later|] == later;
    ExtendAllKeeps(first, later);
    if |ids| < MAX_CANDIDATES {
      ExtendKeeps(ids, text);
      ids, seen := ExtendWith(ids, seen, text);
    }
  }

  lemma {:induction false} FullStaysFull(ids: seq<int>, branches: seq<seq<int>>, n: nat)
    requires n <= |branches| && |ExtendUntilFull(ids, branches[..n])| >= MAX_CANDIDATES
    ensures ExtendUntilFull(ids, branches) == ExtendUntilFull(ids, branches[..n])
  {
    if n < |branches| {
      var front := branches[..|branches| - 1];
      assert front[..n] == branches[..n];
      FullStaysFull(ids, front, n);
    } else {
      assert branches[..n] == branches;
    }
  }

  function Numbers(from: int, n: nat): seq<int> {
    seq(n, i => from + i)
  }

  /** Branches of one row each: from, from + 1, and so on. */
  function Singles(from: int, n: nat): seq<seq<int>> {
    seq(n, i => [from + i])
  }

  /** A branch that only finds new ids, into a full list, adds exactly one. */
  lemma {:induction false} FullListStillGrows(ids: seq<int>, n: nat, from: int)
    requires |ids| == MAX_CANDIDATES && forall x :: x in ids ==> x < from
    ensures var r := ExtendAll(ids, Singles(from, n));
      |r| == MAX_CANDIDATES + n && forall x :: x in r ==> x < from + n
  {
    if n > 0 {
      FullListStillGrows(ids, n - 1, from);
      var branches := Singles(from, n);
      assert branches[..n - 1] == Singles(from, n - 1);
      var r := ExtendAll(ids, branches[..n - 1]);
      assert branches[n - 1] == [from + n - 1] && from + n - 1 !in r;
    }
  }

  /** New ids that leave the list short of full are all added. */
  lemma {:induction false} NewNumbersAreAdded(from: int, n: nat)
    requires 0 <= from && from + n < MAX_CANDIDATES
    ensures Extend(Numbers(0, from), Numbers(from, n)) == Numbers(0, from + n)
    decreases n
  {
    if n == 0 {
      assert Numbers(0, from + n) == Numbers(0, from);
    } else {
      assert Numbers(from, n)[0] == from && Numbers(from, n)[1..] == Numbers(from + 1, n - 1);
      assert Numbers(0, from) + [from] == Numbers(0, from + 1);
      NewNumbersAreAdded(from + 1, n - 1);
    }
  }

  lemma {:induction false} PrependBranch(ids: seq<int>, first: seq<int>, rest: seq<seq<int>>)
    ensures ExtendAll(ids, [first] + rest) == ExtendAll(Extend(ids, first), rest)
  {
    if rest == [] {
      assert [first] + rest == [first] && [first][..0] == [];
    } else {
      PrependBranch(ids, first, rest[..|rest| - 1]);
      assert ([first] + rest)[..|rest|] == [first] + rest[..|rest| - 1];
    }
  }

  /**
   * The cap of 632 is reached: the digest lookups find 250, 250 and 99 assets, the model lookup fills the list, and
   * each of the 32 lookups after it, none finding more than its 250 rows, adds one more.
   */
  lemma CapIsReached()
    ensures var digests := [Numbers(0, 250), Numbers(250, 250), Numbers(500, 99), []];
      var later := [[599]] + Singles(600, 32);
      |later| == MAX_LATER_BRANCHES && |Candidates(digests, false, later, [])| == 632
  {
    var digests := [Numbers(0, 250), Numbers(250, 250), Numbers(500, 99), []];
    DigestsAdd();
    hide ExtendUntilFull, Extend, ExtendAll;
    PrependBranch(Numbers(0, 599), [599], Singles(600, 32));
    OneFills();
    FullListStillGrows(Numbers(0, 600), 32, 600);
  }

  lemma OneFills()
    ensures Extend(Numbers(0, 599), [599]) == Numbers(0, 600)
  {
    assert Numbers(0, 599) + [599] == Numbers(0, 600);
  }

  lemma NextBranch(branches: seq<seq<int>>, last: seq<int>)
    requires |ExtendUntilFull([], branches)| < MAX_CANDIDATES
    ensures ExtendUntilFull([], branches + [last]) == Extend(ExtendUntilFull([], branches), last)
  {
    assert (branches + [last])[..|branches|] == branches;
  }

  lemma NoBranch()
    ensures ExtendUntilFull([], []) == Numbers(0, 0) == [] && Extend(Numbers(0, 599), []) == Numbers(0, 599)
  {
  }

  lemma DigestsAdd()
    ensures ExtendUntilFull([], [Numbers(0, 250), Numbers(250, 250), Numbers(500, 99), []]) == Numbers(0, 599)
  {
    hide Numbers, Extend, ExtendUntilFull;
    var a, b, c, none: seq<int> := Numbers(0, 250), Numbers(250, 250), Numbers(500, 99), [];
    NewNumbersAreAdded(0, 250);
    NewNumbersAreAdded(250, 250);
    NewNumbersAreAdded(500, 99);
    NumbersCount(0, 250);
    NumbersCount(0, 500);
    NumbersCount(0, 599);
    NoBranch();
    var start: seq<seq<int>> := [];
    NextBranch(start, a);
    assert start + [a] == [a] && [a] + [b] == [a, b] && [a, b] + [c] == [a, b, c];
    NextBranch([a], b);
    NextBranch([a, b], c);
    NextBranch([a, b, c], none);
    assert [a, b, c] + [none] == [a, b, c, none];
  }

  lemma NumbersCount(from: int, n: nat)
    ensures |Numbers(from, n)| == n
  {
  }

  // ---------------------------------------------------------------- prompt overlap

  /** A prompt atom with its polarity. */
  type Key = (bool, string)

  type Weights = map<Key, real>

  /** Emphasis, damped for boilerplate, and raised for long atoms. */
  function AtomWeight(atom: Atom): (w: real)
    ensures w > 0.0
  {
    var salience := if atom.identity in COMMON_ATOMS then 0.15 else 1.0;
    PositiveProduct(atom.weight, salience);
    PositiveProduct(atom.weight * salience, Min(1.5, 0.75 + |atom.identity| as real / 80.0));
    atom.weight * salience * Min(1.5, 0.75 + |atom.identity| as real / 80.0)
  }

  lemma PositiveProduct(x: real, y: real)
    requires x > 0.0 && y > 0.0
    ensures x * y > 0.0
  {
  }

  /** The greatest weight of each atom of one polarity, on top of those known before. */
  function AddWeights(before: Weights, positive: bool, atoms: seq<Atom>): Weights {
    if atoms == [] then before
    else
      var w, atom := AddWeights(before, positive, atoms[..|atoms| - 1]), atoms[|atoms| - 1];
      w[(positive, atom.identity) := Max(Weight(w, (positive, atom.identity)), AtomWeight(atom))]
  }

  function PromptWeights(s: Source): Weights {
    AddWeights(AddWeights(map[], true, s.positive), false, s.negative)
  }

  method CollectWeights(s: Source) returns (weights: Weights)
    ensures weights == PromptWeights(s)
    ensures forall k :: k in weights <==> HasAtom(s, k)
  {
    hide AtomWeight, HasAtom;
    weights := map[];
    for i := 0 to |s.positive|
      invariant weights == AddWeights(map[], true, s.positive[..i])
    {
      assert s.positive[..i + 1][..i] == s.positive[..i];
      var key := (true, s.positive[i].identity);
      weights := weights[key := Max(Weight(weights, key), AtomWeight(s.positive[i]))];
    }
    assert s.positive[..|s.positive|] == s.positive;
    ghost var first := weights;
    for i := 0 to |s.negative|
      invariant weights == AddWeights(first, false, s.negative[..i])
    {
      assert s.negative[..i + 1][..i] == s.negative[..i];
      var key := (false, s.negative[i].identity);
      weights := weights[key := Max(Weight(weights, key), AtomWeight(s.negative[i]))];
    }
    assert s.negative[..|s.negative|] == s.negative;
    forall k
      ensures k in weights <==> HasAtom(s, k)
    {
      PromptWeightsAreOfAtoms(s, k);
    }
  }

  /** The prompt of that polarity has an atom of that name. */
  ghost predicate HasAtom(s: Source, k: Key) {
    exists atom :: atom in (if k.0 then s.positive else s.negative) && atom.identity == k.1
  }

  lemma {:induction false} AddedWeights(before: Weights, positive: bool, atoms: seq<Atom>, k: Key)
    requires Positive(before)
    ensures Positive(AddWeights(before, positive, atoms))
    ensures k in AddWeights(before, positive, atoms) <==>
            k in before || (k.0 == positive && exists atom :: atom in atoms && atom.identity == k.1)
  {
    if atoms != [] {
      assert atoms == atoms[..|atoms| - 1] + [atoms[|atoms| - 1]];
      AddedWeights(before, positive, atoms[..|atoms| - 1], k);
      hide AtomWeight;
    }
  }

  /** Weights are positive, and there is one exactly for each atom of the two prompts. */
  lemma PromptWeightsAreOfAtoms(s: Source, k: Key)
    ensures Positive(PromptWeights(s)) && (k in PromptWeights(s) <==> HasAtom(s, k))
  {
    AddedWeights(map[], true, s.positive, k);
    AddedWeights(AddWeights(map[], true, s.positive), false, s.negative, k);
    hide AddWeights;
  }

  /** Boilerplate weighs 15 percent, and the weight grows with the length up to 60 characters. */
  lemma AtomWeightIs(atom: Atom)
    ensures AtomWeight(atom) ==
            atom.weight * (if atom.identity in COMMON_ATOMS then 0.15 else 1.0)
              * (if |atom.identity| >= 60 then 1.5 else 0.75 + |atom.identity| as real / 80.0)
  {
  }

  lemma {:induction false} AddedIsGreatest(before: Weights, positive: bool, atoms: seq<Atom>, k: Key)
    requires Positive(before) && k in AddWeights(before, positive, atoms)
    ensures var w := AddWeights(before, positive, atoms)[k];
      && (k in before ==> before[k] <= w)
      && (k.0 == positive ==> forall atom :: atom in atoms && atom.identity == k.1 ==> AtomWeight(atom) <= w)
      && ((k in before && w == before[k])
          || (k.0 == positive && exists atom :: atom in atoms && atom.identity == k.1 && w == AtomWeight(atom)))
  {
    hide AtomWeight;
    if atoms != [] {
      var front, last := atoms[..|atoms| - 1], atoms[|atoms| - 1];
      assert atoms == front + [last];
      var w := AddWeights(before, positive, front);
      AddedWeights(before, positive, front, k);
      assert AddWeights(before, positive, atoms)[k] ==
             if k == (positive, last.identity) then Max(Weight(w, k), AtomWeight(last)) else w[k];
      if k in w {
        AddedIsGreatest(before, positive, front, k);
      }
      hide AddWeights, Positive;
    }
  }

  /** The weight of an atom is the greatest it has in the prompt of its polarity. */
  lemma PromptWeightIsGreatest(s: Source, k: Key)
    requires k in PromptWeights(s)
    ensures var (w, atoms) := (PromptWeights(s)[k], if k.0 then s.positive else s.negative);
      && (forall atom :: atom in atoms && atom.identity == k.1 ==> AtomWeight(atom) <= w)
      && exists atom :: atom in atoms && atom.identity == k.1 && w == AtomWeight(atom)
  {
    var first := AddWeights(map[], true, s.positive);
    AddedWeights(map[], true, s.positive, k);
    AddedWeights(first, false, s.negative, k);
    AddedIsGreatest(first, false, s.negative, k);
    hide AtomWeight, AddWeights;
    if k in first {
      AddedIsGreatest(map[], true, s.positive, k);
    }
  }

  function Weight(w: Weights, k: Key): real {
    if k in w then w[k] else 0.0
  }

  function Min(a: real, b: real): real {
    if a <= b then a else b
  }

  function Max(a: real, b: real): real {
    if a >= b then a else b
  }

  function SharedSum(a: Weights, b: Weights, keys: seq<Key>): real {
    if keys == [] then 0.0
    else SharedSum(a, b, keys[..|keys| - 1]) + Min(Weight(a, keys[|keys| - 1]), Weight(b, keys[|keys| - 1]))
  }

  function TotalSum(a: Weights, b: Weights, keys: seq<Key>): real {
    if keys == [] then 0.0
    else TotalSum(a, b, keys[..|keys| - 1]) + Max(Weight(a, keys[|keys| - 1]), Weight(b, keys[|keys| - 1]))
  }

  /** The union of the keys, each once, in the order a set happens to yield them. */
  ghost predicate Lists(keys: seq<Key>, a: Weights, b: Weights) {
    Distinct(keys) && forall k :: k in keys <==> k in a || k in b
  }

  /** Emphasis, salience and length factors are all positive, so weights are. */
  ghost predicate Positive(w: Weights) {
    forall k :: k in w ==> w[k] > 0.0
  }

  function WeightedJaccard(a: Weights, b: Weights, keys: seq<Key>): real {
    if TotalSum(a, b, keys) == 0.0 then 0.0 else SharedSum(a, b, keys) / TotalSum(a, b, keys)
  }

  lemma {:induction false} SumsAreOrdered(a: Weights, b: Weights, keys: seq<Key>)
    requires Positive(a) && Positive(b)
    ensures 0.0 <= SharedSum(a, b, keys) <= TotalSum(a, b, keys)
    ensures SharedSum(a, b, keys) == SharedSum(b, a, keys) && TotalSum(a, b, keys) == TotalSum(b, a, keys)
    ensures SharedSum(a, b, keys) == TotalSum(a, b, keys) <==> forall k :: k in keys ==> Weight(a, k) == Weight(b, k)
    ensures (exists k :: k in keys && (k in a || k in b)) ==> TotalSum(a, b, keys) > 0.0
  {
    if keys != [] {
      var front, last := keys[..|keys| - 1], keys[|keys| - 1];
      assert keys == front + [last];
      SumsAreOrdered(a, b, front);
    }
  }

  /** The overlap is between 0 and 1, symmetric, and 1 exactly for two equal prompts that are not empty. */
  lemma JaccardIsSimilarity(a: Weights, b: Weights, keys: seq<Key>)
    requires Positive(a) && Positive(b) && Lists(keys, a, b)
    ensures 0.0 <= WeightedJaccard(a, b, keys) <= 1.0
    ensures WeightedJaccard(a, b, keys) == WeightedJaccard(b, a, keys)
    ensures WeightedJaccard(a, b, keys) == 1.0 <==> a == b && a != map[]
  {
    SumsAreOrdered(a, b, keys);
    var shared, total := SharedSum(a, b, keys), TotalSum(a, b, keys);
    if total > 0.0 {
      QuotientBounds(shared, total);
    }
    if a == b && a != map[] {
      var k :| k in a;
      assert k in keys;
    }
    if keys == [] {
      assert a == map[] && b == map[];
    } else {
      assert keys[0] in keys;
    }
    if forall k :: k in keys ==> Weight(a, k) == Weight(b, k) {
      EqualWeights(a, b, keys);
    }
  }

  /** The order in which a set yields its keys does not matter. */
  lemma ScoreIgnoresListing(a: Weights, b: Weights, keys: seq<Key>, other: seq<Key>)
    requires Lists(keys, a, b) && Lists(other, a, b)
    ensures WeightedJaccard(a, b, keys) == WeightedJaccard(a, b, other)
  {
    SumsIgnoreOrder(a, b, keys, other);
  }

  lemma {:induction false} SumsIgnoreOrder(a: Weights, b: Weights, keys: seq<Key>, other: seq<Key>)
    requires Distinct(keys) && Distinct(other) && forall k :: k in keys <==> k in other
    ensures SharedSum(a, b, keys) == SharedSum(a, b, other) && TotalSum(a, b, keys) == TotalSum(a, b, other)
  {
    if keys == [] {
      HasFirst(other);
    } else {
      var front, last := keys[..|keys| - 1], keys[|keys| - 1];
      assert keys == front + [last];
      assert last in other;
      var i :| 0 <= i < |other| && other[i] == last;
      SumsWithout(a, b, other, i);
      forall k
        ensures k in front <==> k in other[..i] + other[i + 1..]
      {
        WithoutOne(other, i, k);
        WithoutOne(keys, |keys| - 1, k);
        assert keys[..|keys| - 1] + keys[|keys|..] == front;
      }
      DistinctWithout(other, i);
      SumsIgnoreOrder(a, b, front, other[..i] + other[i + 1..]);
    }
  }

  lemma HasFirst(keys: seq<Key>)
    ensures keys == [] || exists k :: k in keys
  {
    if keys != [] {
      assert keys[0] in keys;
    }
  }

  lemma DistinctWithout(keys: seq<Key>, i: nat)
    requires Distinct(keys) && i < |keys|
    ensures Distinct(keys[..i] + keys[i + 1..])
  {
  }

  lemma WithoutOne(keys: seq<Key>, i: nat, k: Key)
    requires Distinct(keys) && i < |keys|
    ensures k in keys[..i] + keys[i + 1..] <==> k in keys && k != keys[i]
  {
    var rest := keys[..i] + keys[i + 1..];
    if k in keys && k != keys[i] {
      var j :| 0 <= j < |keys| && keys[j] == k;
      assert rest[if j < i then j else j - 1] == k;
    }
  }

  lemma {:induction false} SumsWithout(a: Weights, b: Weights, keys: seq<Key>, i: nat)
    requires i < |keys|
    ensures var rest, k := keys[..i] + keys[i + 1..], keys[i];
      && SharedSum(a, b, keys) == SharedSum(a, b, rest) + Min(Weight(a, k), Weight(b, k))
      && TotalSum(a, b, keys) == TotalSum(a, b, rest) + Max(Weight(a, k), Weight(b, k))
  {
    var front, last := keys[..|keys| - 1], keys[|keys| - 1];
    var rest := keys[..i] + keys[i + 1..];
    if i < |keys| - 1 {
      SumsWithout(a, b, front, i);
      assert rest[..|rest| - 1] == front[..i] + front[i + 1..] && rest[|rest| - 1] == last;
    } else {
      assert rest == front;
    }
  }

  lemma QuotientBounds(x: real, y: real)
    requires 0.0 <= x <= y && y > 0.0
    ensures 0.0 <= x / y <= 1.0 && (x / y == 1.0 <==> x == y)
  {
    var q := x / y;
    QuotientTimes(x, y, q);
    ProductBounds(q, y, x);
  }

  lemma QuotientTimes(x: real, y: real, q: real)
    requires y > 0.0 && q == x / y
    ensures q * y == x
  {
  }

  lemma ProductBounds(q: real, y: real, x: real)
    requires q * y == x && 0.0 <= x <= y && y > 0.0
    ensures 0.0 <= q <= 1.0 && (q == 1.0 <==> x == y)
  {
    if q > 1.0 {
      RealMono(1.0, q, y);
      assert false;
    } else if q < 0.0 {
      RealMono(q, 0.0, y);
      assert false;
    } else if q < 1.0 {
      RealMono(q, 1.0, y);
    } else {
      assert q == 1.0;
    }
  }

  lemma RealMono(a: real, b: real, c: real)
    requires a < b && c > 0.0
    ensures a * c < b * c
  {
  }

  lemma EqualWeights(a: Weights, b: Weights, keys: seq<Key>)
    requires Positive(a) && Positive(b) && Lists(keys, a, b) && forall k :: k in keys ==> Weight(a, k) == Weight(b, k)
    ensures a == b
  {
    forall k
      ensures k in a <==> k in b
      ensures k in a ==> a[k] == b[k]
    {
      assert k in keys ==> Weight(a, k) == Weight(b, k);
    }
  }

  // ---------------------------------------------------------------- settings

  function SameText(a: Option<string>, b: Option<string>): seq<real> {
    if a.None? || b.None? then [] else if a == b then [1.0] else [0.0]
  }

  function AbsReal(x: real): real {
    if x < 0.0 then -x else x
  }

  function Closeness(a: Option<real>, b: Option<real>, tolerance: real): seq<real>
    requires tolerance > 0.0
  {
    if a.None? || b.None? then [] else [Max(0.0, 1.0 - AbsReal(a.value - b.value) / tolerance)]
  }

  /** One comparison for each setting that both have recorded. */
  function Comparisons(a: Settings, b: Settings): seq<real> {
    SameText(a.sampler, b.sampler) + SameText(a.scheduler, b.scheduler)
    + Closeness(a.steps, b.steps, 10.0) + Closeness(a.cfg, b.cfg, 3.0) + Closeness(a.width, b.width, 1024.0)
    + Closeness(a.height, b.height, 1024.0) + Closeness(a.denoising, b.denoising, 0.5)
  }

  function Sum(xs: seq<real>): real {
    if xs == [] then 0.0 else Sum(xs[..|xs| - 1]) + xs[|xs| - 1]
  }

  function SettingsProximity(a: Settings, b: Settings): real {
    var xs := Comparisons(a, b);
    if xs == [] then 0.0 else Sum(xs) / |xs| as real
  }

  /** Both have recorded the setting, and differently. */
  predicate Differ<T(==)>(a: Option<T>, b: Option<T>) {
    a.Some? && b.Some? && a != b
  }

  predicate SettingsDiffer(a: Settings, b: Settings) {
    Differ(a.sampler, b.sampler) || Differ(a.scheduler, b.scheduler) || Differ(a.steps, b.steps) || Differ(a.cfg, b.cfg)
    || Differ(a.width, b.width) || Differ(a.height, b.height) || Differ(a.denoising, b.denoising)
  }

  /** All entries lie between 0 and 1. */
  ghost predicate Parts(xs: seq<real>) {
    forall k :: 0 <= k < |xs| ==> 0.0 <= xs[k] <= 1.0
  }

  ghost predicate AllOnes(xs: seq<real>) {
    forall k :: 0 <= k < |xs| ==> xs[k] == 1.0
  }

  lemma {:induction false} SumOfParts(xs: seq<real>)
    requires Parts(xs)
    ensures 0.0 <= Sum(xs) <= |xs| as real && (Sum(xs) == |xs| as real <==> AllOnes(xs))
  {
    if xs != [] {
      SumOfParts(xs[..|xs| - 1]);
    }
  }

  lemma ClosenessIsOne(a: Option<real>, b: Option<real>, tolerance: real)
    requires tolerance > 0.0
    ensures Parts(Closeness(a, b, tolerance)) && Closeness(a, b, tolerance) == Closeness(b, a, tolerance)
    ensures AllOnes(Closeness(a, b, tolerance)) <==> !Differ(a, b)
  {
    if a.Some? && b.Some? {
      var d := AbsReal(a.value - b.value);
      DistanceQuotient(d, tolerance);
      assert Closeness(a, b, tolerance)[0] == Max(0.0, 1.0 - d / tolerance);
      assert Closeness(a, b, tolerance)[0] == 1.0 <==> d == 0.0;
    }
  }

  lemma DistanceQuotient(d: real, tolerance: real)
    requires d >= 0.0 && tolerance > 0.0
    ensures d / tolerance >= 0.0 && (d / tolerance == 0.0 <==> d == 0.0)
  {
    var q := d / tolerance;
    QuotientTimes(d, tolerance, q);
    if q < 0.0 {
      RealMono(q, 0.0, tolerance);
    }
  }

  lemma PartsJoin(a: seq<real>, b: seq<real>)
    ensures Parts(a + b) <==> Parts(a) && Parts(b)
    ensures AllOnes(a + b) <==> AllOnes(a) && AllOnes(b)
  {
    assert a == (a + b)[..|a|] && b == (a + b)[|a|..];
    forall k | 0 <= k < |a + b|
      ensures (a + b)[k] == if k < |a| then a[k] else b[k - |a|]
    {
    }
    forall k | 0 <= k < |a|
      ensures (a + b)[k] == a[k]
    {
    }
    forall k | 0 <= k < |b|
      ensures (a + b)[|a| + k] == b[k]
    {
    }
  }

  lemma ComparisonsAreParts(a: Settings, b: Settings)
    ensures Parts(Comparisons(a, b)) && (AllOnes(Comparisons(a, b)) <==> !SettingsDiffer(a, b))
    ensures Comparisons(a, b) == Comparisons(b, a)
  {
    var s, c := SameText(a.sampler, b.sampler), SameText(a.scheduler, b.scheduler);
    var steps, cfg := Closeness(a.steps, b.steps, 10.0), Closeness(a.cfg, b.cfg, 3.0);
    var w, h := Closeness(a.width, b.width, 1024.0), Closeness(a.height, b.height, 1024.0);
    var d := Closeness(a.denoising, b.denoising, 0.5);
    ClosenessIsOne(a.steps, b.steps, 10.0);
    ClosenessIsOne(a.cfg, b.cfg, 3.0);
    ClosenessIsOne(a.width, b.width, 1024.0);
    ClosenessIsOne(a.height, b.height, 1024.0);
    ClosenessIsOne(a.denoising, b.denoising, 0.5);
    SameTextIsOne(a.sampler, b.sampler);
    SameTextIsOne(a.scheduler, b.scheduler);
    hide SameText, Closeness, Differ, Parts, AllOnes;
    PartsJoin(s, c);
    PartsJoin(s + c, steps);
    PartsJoin(s + c + steps, cfg);
    PartsJoin(s + c + steps + cfg, w);
    PartsJoin(s + c + steps + cfg + w, h);
    PartsJoin(s + c + steps + cfg + w + h, d);
  }

  lemma SameTextIsOne(a: Option<string>, b: Option<string>)
    ensures Parts(SameText(a, b)) && SameText(a, b) == SameText(b, a) && (AllOnes(SameText(a, b)) <==> !Differ(a, b))
  {
    if a.Some? && b.Some? {
      assert SameText(a, b)[0] == if a == b then 1.0 else 0.0;
    }
  }

  /** Between 0 and 1, symmetric, and 1 exactly when some setting is recorded by both and none differently. */
  lemma ProximityIsSimilarity(a: Settings, b: Settings)
    ensures 0.0 <= SettingsProximity(a, b) <= 1.0 && SettingsProximity(a, b) == SettingsProximity(b, a)
    ensures SettingsProximity(a, b) == 1.0 <==> Comparisons(a, b) != [] && !SettingsDiffer(a, b)
  {
    var xs := Comparisons(a, b);
    ComparisonsAreParts(a, b);
    SumOfParts(xs);
    hide Comparisons, SettingsDiffer, Sum;
    if xs != [] {
      QuotientBounds(Sum(xs), |xs| as real);
    }
  }

  function Both<T>(a: Option<T>, b: Option<T>): nat {
    if a.Some? && b.Some? then 1 else 0
  }

  function TextTerm(a: Option<string>, b: Option<string>): real {
    if a.Some? && b.Some? && a.value == b.value then 1.0 else 0.0
  }

  /** One, less the share of the tolerance that the difference takes up; nothing beyond the tolerance. */
  function NumberTerm(a: Option<real>, b: Option<real>, tolerance: real): real
    requires tolerance > 0.0
  {
    if a.None? || b.None? then 0.0
    else
      var d := if a.value < b.value then b.value - a.value else a.value - b.value;
      if d / tolerance > 1.0 then 0.0 else 1.0 - d / tolerance
  }

  lemma {:induction false} SumJoins(a: seq<real>, b: seq<real>)
    ensures Sum(a + b) == Sum(a) + Sum(b)
  {
    if b == [] {
      assert a + b == a;
    } else {
      SumJoins(a, b[..|b| - 1]);
      assert (a + b)[..|a + b| - 1] == a + b[..|b| - 1];
    }
  }

  lemma OneTerm(a: Option<string>, b: Option<string>, x: Option<real>, y: Option<real>, tolerance: real)
    requires tolerance > 0.0
    ensures |SameText(a, b)| == Both(a, b) && Sum(SameText(a, b)) == TextTerm(a, b)
    ensures |Closeness(x, y, tolerance)| == Both(x, y) && Sum(Closeness(x, y, tolerance)) == NumberTerm(x, y, tolerance)
  {
    SumOfOne(1.0);
    SumOfOne(0.0);
    if x.Some? && y.Some? {
      SumOfOne(Closeness(x, y, tolerance)[0]);
    }
    hide Sum;
    assert SumIsZero() by { SumOfNone(); }
  }

  predicate SumIsZero() {
    Sum([]) == 0.0
  }

  lemma SumOfNone()
    ensures SumIsZero()
  {
  }

  lemma SumOfOne(x: real)
    ensures Sum([x]) == x
  {
    assert [x][..0] == [];
  }

  /** The proximity is the mean, over the settings that both have recorded, of how close these are. */
  lemma ProximityIsMean(a: Settings, b: Settings)
    ensures var n := Both(a.sampler, b.sampler) + Both(a.scheduler, b.scheduler) + Both(a.steps, b.steps)
                     + Both(a.cfg, b.cfg) + Both(a.width, b.width) + Both(a.height, b.height)
                     + Both(a.denoising, b.denoising);
      var total := TextTerm(a.sampler, b.sampler) + TextTerm(a.scheduler, b.scheduler)
                   + NumberTerm(a.steps, b.steps, 10.0) + NumberTerm(a.cfg, b.cfg, 3.0)
                   + NumberTerm(a.width, b.width, 1024.0) + NumberTerm(a.height, b.height, 1024.0)
                   + NumberTerm(a.denoising, b.denoising, 0.5);
      if n == 0 then SettingsProximity(a, b) == 0.0 else SettingsProximity(a, b) * n as real == total
  {
    hide Sum, TextTerm, NumberTerm, Both, SameText, Closeness;
    var s, c := SameText(a.sampler, b.sampler), SameText(a.scheduler, b.scheduler);
    var steps, cfg := Closeness(a.steps, b.steps, 10.0), Closeness(a.cfg, b.cfg, 3.0);
    var w, h := Closeness(a.width, b.width, 1024.0), Closeness(a.height, b.height, 1024.0);
    var d := Closeness(a.denoising, b.denoising, 0.5);
    OneTerm(a.sampler, b.sampler, a.steps, b.steps, 10.0);
    OneTerm(a.scheduler, b.scheduler, a.cfg, b.cfg, 3.0);
    OneTerm(a.sampler, b.sampler, a.width, b.width, 1024.0);
    OneTerm(a.sampler, b.sampler, a.height, b.height, 1024.0);
    OneTerm(a.sampler, b.sampler, a.denoising, b.denoising, 0.5);
    SumOfSeven(s, c, steps, cfg, w, h, d);
    MeanTimesCount(a, b);
    hide Comparisons, SettingsProximity;
  }

  lemma MeanTimesCount(a: Settings, b: Settings)
    ensures var xs := Comparisons(a, b);
      if xs == [] then SettingsProximity(a, b) == 0.0 else SettingsProximity(a, b) * |xs| as real == Sum(xs)
  {
    var xs := Comparisons(a, b);
    hide Comparisons, Sum;
    if xs != [] {
      QuotientTimes(Sum(xs), |xs| as real, SettingsProximity(a, b));
    }
  }

  lemma SumOfSeven(
    a: seq<real>, b: seq<real>, c: seq<real>, d: seq<real>, x: seq<real>, y: seq<real>, z: seq<real>)
    ensures Sum(a + b + c + d + x + y + z) == Sum(a) + Sum(b) + Sum(c) + Sum(d) + Sum(x) + Sum(y) + Sum(z)
    ensures |a + b + c + d + x + y + z| == |a| + |b| + |c| + |d| + |x| + |y| + |z|
  {
    hide Sum;
    SumJoins(a, b);
    SumJoins(a + b, c);
    SumJoins(a + b + c, d);
    SumJoins(a + b + c + d, x);
    SumJoins(a + b + c + d + x, y);
    SumJoins(a + b + c + d + x + y, z);
  }

  // ---------------------------------------------------------------- scoring

  /** A typed workflow property that makes a recipe, as the property tables hold it. */
  datatype WorkflowKey = WorkflowKey(nodeType: string, property: string, valueType: string, value: string)

  /** What ranking knows of one asset: its metadata snapshot and its workflow properties. */
  datatype Ranked = Ranked(source: Source, workflow: set<WorkflowKey>)

  datatype Reason =
    | SameExactSignature | SameRecipeReason | SameGenerationFamily | SamePrompt | StrongPromptOverlap
    | SameModelHash | SameModelName | SharedLora | SharedResource | SharedWorkflowProperty | SimilarSettings

  /** What the comparison of two assets finds besides the digests. */
  datatype Evidence = Evidence(
    promptScore: real, meaningful: bool, sameModelHash: bool, sameModelName: bool,
    shared: set<Identity>, sharedWorkflow: set<WorkflowKey>, settingsScore: real)

  datatype Score = Score(tier: int, reasons: seq<Reason>)

  function Shared(a: Option<string>, b: Option<string>): bool {
    a.Some? && a == b
  }

  /** keys lists the atoms of both prompts in the order in which a set yields them. */
  ghost function EvidenceOf(a: Ranked, b: Ranked, keys: seq<Key>): Evidence {
    var (v, w) := (PromptWeights(a.source), PromptWeights(b.source));
    var sameHash := Shared(a.source.modelHash, b.source.modelHash);
    Evidence(
      WeightedJaccard(v, w, keys), exists k :: k in v && k in w && k.1 !in COMMON_ATOMS,
      sameHash, !sameHash && Shared(a.source.modelName, b.source.modelName),
      Recipe(a.source.resources).Keys * Recipe(b.source.resources).Keys, a.workflow * b.workflow,
      SettingsProximity(a.source.settings, b.source.settings))
  }

  /** "lora" in kind */
  ghost predicate IsLora(kind: string) {
    exists head, tail :: kind == head + "lora" + tail
  }

  ghost predicate SharesLora(shared: set<Identity>) {
    exists id :: id in shared && IsLora(id.kind)
  }

  ghost function SignalReasons(e: Evidence): seq<Reason> {
    (if e.sameModelHash then [SameModelHash] else if e.sameModelName then [SameModelName] else [])
    + (if SharesLora(e.shared) then [SharedLora] else if e.shared != {} then [SharedResource] else [])
    + (if e.sharedWorkflow != {} then [SharedWorkflowProperty] else [])
  }

  predicate Signal(e: Evidence) {
    e.sameModelHash || e.sameModelName || e.shared != {} || e.sharedWorkflow != {}
  }

  ghost function ScoreCandidate(p: Payload, q: Payload, e: Evidence): Option<Score> {
    if Same(p.exact, q.exact) then Some(Score(100, [SameExactSignature, SameRecipeReason, SameGenerationFamily]))
    else if Same(p.recipe, q.recipe) then Some(Score(90, [SameRecipeReason, SameGenerationFamily]))
    else if Same(p.family, q.family) && (e.meaningful || e.shared != {}) then Some(Score(80, [SameGenerationFamily]))
    else if Same(p.prompt, q.prompt) && e.meaningful && Signal(e) then Some(Score(70, [SamePrompt] + SignalReasons(e)))
    else if e.promptScore >= 0.2 && e.meaningful && Signal(e) then
      var similar := if e.settingsScore >= 0.65 then [SimilarSettings] else [];
      Some(Score(60, [StrongPromptOverlap] + SignalReasons(e) + similar))
    else if e.meaningful && e.promptScore >= 0.1 && Signal(e) then Some(Score(40, [StrongPromptOverlap]))
    else None
  }

  /** The score of a candidate against the reference. */
  ghost function Compare(digest: Document -> Digest, a: Ranked, b: Ranked, keys: seq<Key>): Option<Score> {
    ScoreCandidate(Build(digest, a.source), Build(digest, b.source), EvidenceOf(a, b, keys))
  }

  ghost predicate ShareIdentity(a: Source, b: Source, id: Identity) {
    && (exists r :: r in a.resources && IdentityOf(r) == Some(id))
    && (exists r :: r in b.resources && IdentityOf(r) == Some(id))
  }

  ghost predicate ShareResource(a: Source, b: Source) {
    exists id :: ShareIdentity(a, b, id)
  }

  ghost predicate ShareLora(a: Source, b: Source) {
    exists id: Identity :: IsLora(id.kind) && ShareIdentity(a, b, id)
  }

  ghost predicate ShareAtom(a: Source, b: Source) {
    exists k: Key :: HasAtom(a, k) && HasAtom(b, k) && k.1 !in COMMON_ATOMS
  }

  /** The shared part of the prompts weighs at least a tenth of both together, however their atoms are listed. */
  ghost predicate Overlap(a: Source, b: Source) {
    forall keys :: Lists(keys, PromptWeights(a), PromptWeights(b)) ==>
      10.0 * SharedSum(PromptWeights(a), PromptWeights(b), keys)
        >= TotalSum(PromptWeights(a), PromptWeights(b), keys) > 0.0
  }

  /** What a reason claims of the two assets. */
  ghost predicate True(r: Reason, a: Ranked, b: Ranked) {
    match r
    case SameExactSignature => SameExact(a.source, b.source)
    case SameRecipeReason => SameRecipe(a.source, b.source)
    case SameGenerationFamily => SameFamily(a.source, b.source)
    case SamePrompt => a.source.positive == b.source.positive && a.source.negative == b.source.negative
    case StrongPromptOverlap => ShareAtom(a.source, b.source) && Overlap(a.source, b.source)
    case SameModelHash => Shared(a.source.modelHash, b.source.modelHash)
    case SameModelName =>
      Shared(a.source.modelName, b.source.modelName) && !Shared(a.source.modelHash, b.source.modelHash)
    case SharedLora => ShareLora(a.source, b.source)
    case SharedResource => ShareResource(a.source, b.source) && !ShareLora(a.source, b.source)
    case SharedWorkflowProperty => exists key :: key in a.workflow && key in b.workflow
    case SimilarSettings => SettingsProximity(a.source.settings, b.source.settings) >= 0.65
  }

  lemma SamePromptMeansEqual(digest: Document -> Digest, a: Source, b: Source)
    requires Injective(digest) && Same(Build(digest, a).prompt, Build(digest, b).prompt)
    ensures a.positive == b.positive && a.negative == b.negative
  {
    assert PromptDocumentOf(a) == PromptDocumentOf(b);
  }

  lemma SharedIdentities(a: Ranked, b: Ranked, keys: seq<Key>, id: Identity)
    ensures id in EvidenceOf(a, b, keys).shared <==> ShareIdentity(a.source, b.source, id)
  {
    RecipeMembers(a.source.resources, id);
    RecipeMembers(b.source.resources, id);
  }

  lemma SharedAtoms(a: Ranked, b: Ranked, keys: seq<Key>)
    ensures EvidenceOf(a, b, keys).meaningful <==> ShareAtom(a.source, b.source)
  {
    forall k: Key
      ensures k in PromptWeights(a.source) <==> HasAtom(a.source, k)
      ensures k in PromptWeights(b.source) <==> HasAtom(b.source, k)
    {
      PromptWeightsAreOfAtoms(a.source, k);
      PromptWeightsAreOfAtoms(b.source, k);
    }
    hide PromptWeights, HasAtom, WeightedJaccard, SettingsProximity, Recipe;
  }

  lemma HighScoreOverlaps(a: Ranked, b: Ranked, keys: seq<Key>)
    requires Lists(keys, PromptWeights(a.source), PromptWeights(b.source))
    requires EvidenceOf(a, b, keys).promptScore >= 0.1
    ensures Overlap(a.source, b.source)
  {
    var (v, w) := (PromptWeights(a.source), PromptWeights(b.source));
    PromptWeightsAreOfAtoms(a.source, (true, ""));
    PromptWeightsAreOfAtoms(b.source, (true, ""));
    SumsAreOrdered(v, w, keys);
    var q := WeightedJaccard(v, w, keys);
    hide PromptWeights, HasAtom, Positive;
    forall other | Lists(other, v, w)
      ensures 10.0 * SharedSum(v, w, other) >= TotalSum(v, w, other) > 0.0
    {
      SumsIgnoreOrder(v, w, keys, other);
      TenthOf(SharedSum(v, w, keys), TotalSum(v, w, keys), q);
    }
  }

  lemma TenthOf(x: real, y: real, q: real)
    requires y >= 0.0 && q == (if y == 0.0 then 0.0 else x / y) && q >= 0.1
    ensures 10.0 * x >= y > 0.0
  {
    QuotientTimes(x, y, q);
    if q > 0.1 {
      RealMono(0.1, q, y);
    }
  }

  /** Each of the five signals is among the reasons exactly when it is true of the pair. */
  lemma SignalsAreExact(a: Ranked, b: Ranked, keys: seq<Key>, r: Reason)
    ensures r in SignalReasons(EvidenceOf(a, b, keys)) <==>
            r in {SameModelHash, SameModelName, SharedLora, SharedResource, SharedWorkflowProperty} && True(r, a, b)
  {
    hide EvidenceOf, SignalReasons, SharesLora, ShareResource, ShareLora, Shared, SettingsProximity;
    hide SameFamily, SameRecipe, SameExact, ShareAtom, Overlap;
    SharedResources(a, b, keys);
    SharedWorkflowKeys(a, b, keys);
    ModelFlags(a, b, keys);
    SignalReasonsMean(EvidenceOf(a, b, keys), r);
  }

  lemma SharedResources(a: Ranked, b: Ranked, keys: seq<Key>)
    ensures EvidenceOf(a, b, keys).shared != {} <==> ShareResource(a.source, b.source)
    ensures SharesLora(EvidenceOf(a, b, keys).shared) <==> ShareLora(a.source, b.source)
  {
    var shared := EvidenceOf(a, b, keys).shared;
    forall id
      ensures id in shared <==> ShareIdentity(a.source, b.source, id)
    {
      SharedIdentities(a, b, keys, id);
    }
    hide EvidenceOf, ShareIdentity, IsLora;
    if shared != {} {
      var id :| id in shared;
      assert ShareIdentity(a.source, b.source, id);
    }
  }

  lemma SignalReasonsMean(e: Evidence, r: Reason)
    ensures r in SignalReasons(e) <==>
            || (r == SameModelHash && e.sameModelHash) || (r == SameModelName && !e.sameModelHash && e.sameModelName)
            || (r == SharedLora && SharesLora(e.shared))
            || (r == SharedResource && e.shared != {} && !SharesLora(e.shared))
            || (r == SharedWorkflowProperty && e.sharedWorkflow != {})
  {
    hide SharesLora;
  }

  lemma SharedWorkflowKeys(a: Ranked, b: Ranked, keys: seq<Key>)
    ensures EvidenceOf(a, b, keys).sharedWorkflow != {} <==> exists key :: key in a.workflow && key in b.workflow
  {
    if key :| key in a.workflow && key in b.workflow {
      assert key in a.workflow * b.workflow;
    }
  }

  lemma ModelFlags(a: Ranked, b: Ranked, keys: seq<Key>)
    ensures EvidenceOf(a, b, keys).sameModelHash == Shared(a.source.modelHash, b.source.modelHash)
    ensures EvidenceOf(a, b, keys).sameModelName == (
      !Shared(a.source.modelHash, b.source.modelHash) && Shared(a.source.modelName, b.source.modelName))
  {
  }

  /** What each reason rests on. */
  lemma ReasonsRestOn(p: Payload, q: Payload, e: Evidence, r: Reason)
    requires var s := ScoreCandidate(p, q, e); s.Some? && r in s.value.reasons
    ensures r == SameExactSignature ==> Same(p.exact, q.exact)
    ensures r == SameRecipeReason ==> Same(p.exact, q.exact) || Same(p.recipe, q.recipe)
    ensures r == SameGenerationFamily ==> Same(p.exact, q.exact) || Same(p.recipe, q.recipe) || Same(p.family, q.family)
    ensures r == SamePrompt ==> Same(p.prompt, q.prompt)
    ensures r == StrongPromptOverlap ==> e.meaningful && e.promptScore >= 0.1
    ensures r == SimilarSettings ==> e.settingsScore >= 0.65
    ensures r in {SameModelHash, SameModelName, SharedLora, SharedResource, SharedWorkflowProperty} ==>
              r in SignalReasons(e)
  {
    if r in SignalReasons(e) {
      SignalsOnly(e, r);
    }
    hide SignalReasons;
  }

  lemma SignalsOnly(e: Evidence, r: Reason)
    requires r in SignalReasons(e)
    ensures r in {SameModelHash, SameModelName, SharedLora, SharedResource, SharedWorkflowProperty}
  {
  }

  /** Every reason given for a candidate is true of the pair, at every tier. */
  lemma ReasonsAreTrue(digest: Document -> Digest, a: Ranked, b: Ranked, keys: seq<Key>, r: Reason)
    requires Injective(digest) && Lists(keys, PromptWeights(a.source), PromptWeights(b.source))
    requires var s := Compare(digest, a, b, keys); s.Some? && r in s.value.reasons
    ensures True(r, a, b)
  {
    hide Build, EvidenceOf, ScoreCandidate, SameFamily, SameRecipe, SameExact, SignalReasons, Lists, Shared;
    hide ShareAtom, Overlap, ShareIdentity, IsLora, SettingsProximity, Injective;
    var p, q, e := Build(digest, a.source), Build(digest, b.source), EvidenceOf(a, b, keys);
    ReasonsRestOn(p, q, e, r);
    match r
    case SameExactSignature | SameRecipeReason | SameGenerationFamily =>
      DigestsMeanEquality(digest, a.source, b.source);
      LayersNest(digest, a.source, b.source);
    case SamePrompt =>
      SamePromptMeansEqual(digest, a.source, b.source);
    case StrongPromptOverlap =>
      SharedAtoms(a, b, keys);
      HighScoreOverlaps(a, b, keys);
    case SimilarSettings =>
      SettingsEvidence(a, b, keys);
    case _ =>
      SignalsAreExact(a, b, keys, r);
  }

  lemma SettingsEvidence(a: Ranked, b: Ranked, keys: seq<Key>)
    ensures EvidenceOf(a, b, keys).settingsScore == SettingsProximity(a.source.settings, b.source.settings)
  {
  }

  /** Where signals are reported, none of those that are true is missing. */
  lemma SignalsAreComplete(digest: Document -> Digest, a: Ranked, b: Ranked, keys: seq<Key>, r: Reason)
    requires var s := Compare(digest, a, b, keys); s.Some? && s.value.tier in {60, 70}
    requires r in {SameModelHash, SameModelName, SharedLora, SharedResource, SharedWorkflowProperty} && True(r, a, b)
    ensures r in Compare(digest, a, b, keys).value.reasons
  {
    SignalsAreExact(a, b, keys, r);
    hide Build, EvidenceOf, SignalReasons, True;
  }

  /** Equal prompts that are not empty score 1. */
  lemma EqualPromptsScoreOne(a: Ranked, b: Ranked, keys: seq<Key>)
    requires Lists(keys, PromptWeights(a.source), PromptWeights(b.source))
    requires a.source.positive == b.source.positive && a.source.negative == b.source.negative
    requires a.source.positive != [] || a.source.negative != []
    ensures EvidenceOf(a, b, keys).promptScore == 1.0
  {
    var s := a.source;
    var k := if s.positive != [] then (true, s.positive[0].identity) else (false, s.negative[0].identity);
    assert (if k.0 then s.positive else s.negative)[0].identity == k.1;
    PromptWeightsAreOfAtoms(a.source, k);
    PromptWeightsAreOfAtoms(b.source, k);
    assert PromptWeights(a.source) == PromptWeights(b.source);
    JaccardIsSimilarity(PromptWeights(a.source), PromptWeights(b.source), keys);
  }

  /** Neither the roles of the two assets nor the listing of their atoms changes the score. */
  lemma CompareIsSymmetric(digest: Document -> Digest, a: Ranked, b: Ranked, keys: seq<Key>, other: seq<Key>)
    requires Lists(keys, PromptWeights(a.source), PromptWeights(b.source))
    requires Lists(other, PromptWeights(a.source), PromptWeights(b.source))
    ensures Compare(digest, a, b, keys) == Compare(digest, b, a, other)
  {
    var (v, w) := (PromptWeights(a.source), PromptWeights(b.source));
    PromptWeightsAreOfAtoms(a.source, (true, ""));
    PromptWeightsAreOfAtoms(b.source, (true, ""));
    JaccardIsSimilarity(v, w, other);
    ScoreIgnoresListing(v, w, keys, other);
    ProximityIsSimilarity(a.source.settings, b.source.settings);
    hide PromptWeights, WeightedJaccard, SettingsProximity, Recipe, Lists, Positive, EvidenceOf, Build, ScoreCandidate;
    EvidenceIsSymmetric(a, b, keys, other);
    ScoreIsSymmetric(Build(digest, a.source), Build(digest, b.source), EvidenceOf(a, b, keys));
  }

  lemma ScoreIsSymmetric(p: Payload, q: Payload, e: Evidence)
    ensures ScoreCandidate(p, q, e) == ScoreCandidate(q, p, e)
  {
    hide SignalReasons, Signal;
  }

  lemma EvidenceIsSymmetric(a: Ranked, b: Ranked, keys: seq<Key>, other: seq<Key>)
    requires var (v, w) := (PromptWeights(a.source), PromptWeights(b.source));
      WeightedJaccard(v, w, keys) == WeightedJaccard(w, v, other)
    requires var (s, u) := (a.source.settings, b.source.settings); SettingsProximity(s, u) == SettingsProximity(u, s)
    ensures EvidenceOf(a, b, keys) == EvidenceOf(b, a, other)
  {
    hide PromptWeights, WeightedJaccard, SettingsProximity, Recipe;
    var e, f := EvidenceOf(a, b, keys), EvidenceOf(b, a, other);
    assert e.shared == f.shared && e.sharedWorkflow == f.sharedWorkflow;
    assert e.meaningful == f.meaningful;
  }

  /** The tier is decided by the strongest digest the two share; without evidence of overlap there is no result. */
  lemma TierIsStrongest(digest: Document -> Digest, a: Ranked, b: Ranked, keys: seq<Key>)
    requires Injective(digest)
    ensures var p, q, s := Build(digest, a.source), Build(digest, b.source), Compare(digest, a, b, keys);
      && (s.Some? && s.value.tier == 100 <==> p.exact.Some? && SameExact(a.source, b.source))
      && (s.Some? && s.value.tier >= 90 <==> p.recipe.Some? && SameRecipe(a.source, b.source))
      && (s.Some? && s.value.tier >= 80 ==> SameFamily(a.source, b.source))
      && (s.Some? && s.value.tier <= 70 ==> ShareAtom(a.source, b.source))
  {
    DigestsMeanEquality(digest, a.source, b.source);
    LayersNest(digest, a.source, b.source);
    SharedAtoms(a, b, keys);
    hide Build, EvidenceOf, SignalReasons, ShareAtom, SameFamily, SameRecipe, SameExact;
  }

  /** One of the signals is true of the pair. */
  ghost predicate AnySignal(a: Ranked, b: Ranked) {
    || (a.source.modelHash.Some? && a.source.modelHash == b.source.modelHash)
    || (a.source.modelName.Some? && a.source.modelName == b.source.modelName)
    || ShareResource(a.source, b.source) || exists key :: key in a.workflow && key in b.workflow
  }

  /** The shared part of the prompts is not empty and, taken that often, at least the weight of both together. */
  ghost predicate OverlapTimes(a: Source, b: Source, keys: seq<Key>, times: real) {
    var (v, w) := (PromptWeights(a), PromptWeights(b));
    TotalSum(v, w, keys) > 0.0 && times * SharedSum(v, w, keys) >= TotalSum(v, w, keys)
  }

  /** What a pair must have for a tier. */
  ghost predicate Reaches(digest: Document -> Digest, a: Ranked, b: Ranked, keys: seq<Key>, tier: int) {
    var p := Build(digest, a.source);
    match tier
    case 100 => p.exact.Some? && SameExact(a.source, b.source)
    case 90 => p.recipe.Some? && SameRecipe(a.source, b.source)
    case 80 =>
      && p.family.Some? && SameFamily(a.source, b.source)
      && (ShareAtom(a.source, b.source) || ShareResource(a.source, b.source))
    case 70 =>
      && p.prompt.Some? && a.source.positive == b.source.positive && a.source.negative == b.source.negative
      && ShareAtom(a.source, b.source) && AnySignal(a, b)
    case 60 => OverlapTimes(a.source, b.source, keys, 5.0) && ShareAtom(a.source, b.source) && AnySignal(a, b)
    case 40 => OverlapTimes(a.source, b.source, keys, 10.0) && ShareAtom(a.source, b.source) && AnySignal(a, b)
    case _ => false
  }

  lemma SignalIff(a: Ranked, b: Ranked, keys: seq<Key>)
    ensures Signal(EvidenceOf(a, b, keys)) <==> AnySignal(a, b)
  {
    SharedResources(a, b, keys);
    SharedWorkflowKeys(a, b, keys);
    ModelFlags(a, b, keys);
    hide EvidenceOf, ShareResource, SharesLora, ShareLora;
  }

  lemma ScoreIff(x: real, y: real, q: real)
    requires 0.0 <= x <= y && q == if y == 0.0 then 0.0 else x / y
    ensures q >= 0.1 <==> y > 0.0 && 10.0 * x >= y
    ensures q >= 0.2 <==> y > 0.0 && 5.0 * x >= y
  {
    if y > 0.0 {
      QuotientTimes(x, y, q);
      AtLeastTimes(q, x, y, 0.1);
      AtLeastTimes(q, x, y, 0.2);
    }
  }

  lemma AtLeastTimes(q: real, x: real, y: real, least: real)
    requires q * y == x && y > 0.0
    ensures q >= least <==> x >= least * y
  {
    if q > least {
      RealMono(least, q, y);
    } else if q < least {
      RealMono(q, least, y);
    }
  }

  lemma OverlapIff(a: Ranked, b: Ranked, keys: seq<Key>)
    ensures EvidenceOf(a, b, keys).promptScore >= 0.1 <==> OverlapTimes(a.source, b.source, keys, 10.0)
    ensures EvidenceOf(a, b, keys).promptScore >= 0.2 <==> OverlapTimes(a.source, b.source, keys, 5.0)
  {
    var (v, w) := (PromptWeights(a.source), PromptWeights(b.source));
    PromptWeightsAreOfAtoms(a.source, (true, ""));
    PromptWeightsAreOfAtoms(b.source, (true, ""));
    SumsAreOrdered(v, w, keys);
    ScoreIff(SharedSum(v, w, keys), TotalSum(v, w, keys), WeightedJaccard(v, w, keys));
    hide PromptWeights, HasAtom, Positive, SharedSum, TotalSum, SettingsProximity;
  }

  lemma PromptLayerIff(digest: Document -> Digest, a: Source, b: Source)
    requires Injective(digest)
    ensures var p, q := Build(digest, a), Build(digest, b);
      Same(p.prompt, q.prompt) <==> p.prompt.Some? && a.positive == b.positive && a.negative == b.negative
  {
    if Same(Build(digest, a).prompt, Build(digest, b).prompt) {
      SamePromptMeansEqual(digest, a, b);
    }
  }

  predicate Evident(p: Payload, q: Payload, e: Evidence, tier: int) {
    match tier
    case 100 => Same(p.exact, q.exact)
    case 90 => Same(p.recipe, q.recipe)
    case 80 => Same(p.family, q.family) && (e.meaningful || e.shared != {})
    case 70 => Same(p.prompt, q.prompt) && e.meaningful && Signal(e)
    case 60 => e.promptScore >= 0.2 && e.meaningful && Signal(e)
    case 40 => e.promptScore >= 0.1 && e.meaningful && Signal(e)
    case _ => false
  }

  lemma HighestEvident(p: Payload, q: Payload, e: Evidence, tier: int)
    ensures var s := ScoreCandidate(p, q, e);
      s.Some? && s.value.tier == tier <==>
        Evident(p, q, e, tier) && forall higher :: tier < higher ==> !Evident(p, q, e, higher)
  {
    hide Same, Signal, SignalReasons;
    assert forall t :: Evident(p, q, e, t) ==> t in {40, 60, 70, 80, 90, 100};
    var s := ScoreCandidate(p, q, e);
    if s.Some? && tier < s.value.tier {
      assert Evident(p, q, e, s.value.tier);
    }
  }

  lemma ReachesEvidence(digest: Document -> Digest, a: Ranked, b: Ranked, keys: seq<Key>, tier: int)
    requires Injective(digest)
    ensures Reaches(digest, a, b, keys, tier) <==>
            Evident(Build(digest, a.source), Build(digest, b.source), EvidenceOf(a, b, keys), tier)
  {
    hide Injective, Build, EvidenceOf, SignalReasons, ShareAtom, ShareResource, SameFamily, SameRecipe, SameExact;
    hide OverlapTimes, AnySignal, Signal, Same, PromptWeights;
    match tier
    case 100 =>
      DigestsMeanEquality(digest, a.source, b.source);
    case 90 =>
      DigestsMeanEquality(digest, a.source, b.source);
    case 80 =>
      DigestsMeanEquality(digest, a.source, b.source);
      SharedAtoms(a, b, keys);
      SharedResources(a, b, keys);
    case 70 =>
      PromptLayerIff(digest, a.source, b.source);
      SharedAtoms(a, b, keys);
      SignalIff(a, b, keys);
    case 60 =>
      OverlapIff(a, b, keys);
      SharedAtoms(a, b, keys);
      SignalIff(a, b, keys);
    case 40 =>
      OverlapIff(a, b, keys);
      SharedAtoms(a, b, keys);
      SignalIff(a, b, keys);
    case _ =>
  }

  /** The tier of a pair is the highest that it reaches; a pair that reaches none is no result. */
  lemma TierIff(digest: Document -> Digest, a: Ranked, b: Ranked, keys: seq<Key>, tier: int)
    requires Injective(digest)
    ensures var s := Compare(digest, a, b, keys);
      s.Some? && s.value.tier == tier <==>
        && Reaches(digest, a, b, keys, tier)
        && forall higher :: tier < higher ==> !Reaches(digest, a, b, keys, higher)
  {
    HighestEvident(Build(digest, a.source), Build(digest, b.source), EvidenceOf(a, b, keys), tier);
    hide Reaches, Evident, Build, EvidenceOf, ScoreCandidate, Injective;
    forall t
      ensures Reaches(digest, a, b, keys, t) <==>
              Evident(Build(digest, a.source), Build(digest, b.source), EvidenceOf(a, b, keys), t)
    {
      ReachesEvidence(digest, a, b, keys, t);
    }
  }

  lemma ReasonsOf(p: Payload, q: Payload, e: Evidence)
    requires ScoreCandidate(p, q, e).Some?
    ensures var s := ScoreCandidate(p, q, e).value;
      && (s.tier == 100 ==> s.reasons == [SameExactSignature, SameRecipeReason, SameGenerationFamily])
      && (s.tier == 90 ==> s.reasons == [SameRecipeReason, SameGenerationFamily])
      && (s.tier == 80 ==> s.reasons == [SameGenerationFamily])
      && (s.tier == 70 ==> s.reasons == [SamePrompt] + SignalReasons(e))
      && (s.tier == 60 ==> s.reasons == [StrongPromptOverlap] + SignalReasons(e)
                                        + if e.settingsScore >= 0.65 then [SimilarSettings] else [])
      && (s.tier == 40 ==> s.reasons == [StrongPromptOverlap])
  {
    hide SignalReasons, Signal, Same;
  }

  lemma SimilarInReasons(e: Evidence)
    ensures SimilarSettings !in [SamePrompt] + SignalReasons(e)
    ensures var similar := if e.settingsScore >= 0.65 then [SimilarSettings] else [];
      SimilarSettings in [StrongPromptOverlap] + SignalReasons(e) + similar <==> e.settingsScore >= 0.65
  {
    SignalReasonsMean(e, SimilarSettings);
    var similar := if e.settingsScore >= 0.65 then [SimilarSettings] else [];
    hide SignalReasons;
    InOneOf([SamePrompt], SignalReasons(e), [], SimilarSettings);
    InOneOf([StrongPromptOverlap], SignalReasons(e), similar, SimilarSettings);
    assert [SamePrompt] + SignalReasons(e) + [] == [SamePrompt] + SignalReasons(e);
  }

  lemma InOneOf(a: seq<Reason>, b: seq<Reason>, c: seq<Reason>, r: Reason)
    ensures r in a + b + c <==> r in a || r in b || r in c
  {
  }

  /** The reasons of a tier: the layers it stands for, or the overlap with the signals and similar settings. */
  lemma ReasonsByTier(digest: Document -> Digest, a: Ranked, b: Ranked, keys: seq<Key>)
    requires Compare(digest, a, b, keys).Some?
    ensures var s := Compare(digest, a, b, keys).value;
      && (s.tier == 100 ==> s.reasons == [SameExactSignature, SameRecipeReason, SameGenerationFamily])
      && (s.tier == 90 ==> s.reasons == [SameRecipeReason, SameGenerationFamily])
      && (s.tier == 80 ==> s.reasons == [SameGenerationFamily])
      && (s.tier == 70 ==> |s.reasons| >= 1 && s.reasons[0] == SamePrompt && SimilarSettings !in s.reasons)
      && (s.tier == 60 ==>
            && |s.reasons| >= 1 && s.reasons[0] == StrongPromptOverlap
            && (SimilarSettings in s.reasons <==>
                  SettingsProximity(a.source.settings, b.source.settings) >= 0.65))
      && (s.tier == 40 ==> s.reasons == [StrongPromptOverlap])
  {
    var e := EvidenceOf(a, b, keys);
    SettingsEvidence(a, b, keys);
    SimilarInReasons(e);
    hide EvidenceOf, SignalReasons, SettingsProximity, ScoreCandidate, Build;
    ReasonsOf(Build(digest, a.source), Build(digest, b.source), e);
  }
}
