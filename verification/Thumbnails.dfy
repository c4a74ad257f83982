/**
 * Cascade rendering of backend/thumbnails.py: several variants of one image from one decode, each delivered
 * once, and each resized from the smallest image already at hand that is large enough.
 */
module Thumbnails {
  import opened Prelude

  // ---------------------------------------------------------------- resizing

  type Pixels = n: int | n >= 1 witness 1

  datatype Size = Size(width: Pixels, height: Pixels)

  function Long(s: Size): Pixels {
    if s.width >= s.height then s.width else s.height
  }

  function Abs(n: int): nat {
    if n < 0 then -n else n
  }

  function Ceiling(n: nat, d: Pixels): nat {
    if n % d == 0 then n / d else n / d + 1
  }

  /** The short edge of a portrait: n closest to edge * width / height, the lower one on a tie. */
  function PortraitEdge(w: Pixels, h: Pixels, edge: Pixels): Pixels {
    var low, high := edge * w / h, Ceiling(edge * w, h);
    var n := if Abs(w * edge - high * h) < Abs(w * edge - low * h) then high else low;
    if n < 1 then 1 else n
  }

  /** The short edge of a landscape: the aspect edge / n closest to width / height. */
  function LandscapeEdge(w: Pixels, h: Pixels, edge: Pixels): Pixels {
    var low, high := edge * h / w, Ceiling(edge * h, w);
    var n := if low != 0 && Abs(w * high - edge * h) * low < Abs(w * low - edge * h) * high then high else low;
    if n < 1 then 1 else n
  }

  /** The size an image shrinks to within edge x edge, or None when it already fits. */
  function ContainSize(w: Pixels, h: Pixels, edge: Pixels): Option<Size> {
    if edge >= w && edge >= h then None
    else if w <= h then Some(Size(PortraitEdge(w, h, edge), edge))
    else Some(Size(edge, LandscapeEdge(w, h, edge)))
  }

  function Contained(s: Size, edge: Pixels): Size {
    ContainSize(s.width, s.height, edge).GetOr(s)
  }

  /** Within less than `slack` pixels of s scaled to long edge e, in both dimensions. */
  ghost predicate Near(t: Size, s: Size, e: Pixels, slack: Pixels) {
    Abs(t.width * Long(s) - e * s.width) < slack * Long(s) && Abs(t.height * Long(s) - e * s.height) < slack * Long(s)
  }

  lemma MulMono(a: int, b: int, c: nat)
    requires a <= b
    ensures a * c <= b * c
  {
  }

  lemma MulBack(a: int, b: int, c: nat)
    requires a * c < b * c
    ensures a < b
  {
    if b <= a {
      MulMono(b, a, c);
      assert false;
    }
  }

  lemma DivisionBounds(n: nat, d: Pixels)
    ensures n / d * d + n % d == n && 0 <= n % d < d && n / d >= 0
    ensures Ceiling(n, d) == (if n % d == 0 then n / d else n / d + 1)
  {
  }

  /** Either neighbour of n / d, but at least 1, is within d of n and at most e. */
  lemma NeighbourIsNear(n: nat, d: Pixels, e: Pixels, pick: int)
    requires 1 <= n <= e * d && (pick == n / d || pick == Ceiling(n, d))
    ensures var x := if pick < 1 then 1 else pick; 1 <= x <= e && x * d - n < d && n - x * d < d
  {
    DivisionBounds(n, d);
    var q, r := n / d, n % d;
    if q == 0 {
      assert q * d == 0;
    }
    if pick != q {
      assert pick * d == q * d + d;
    }
    MulBack(pick - 1, e, d);
  }

  lemma PortraitIsNear(w: Pixels, h: Pixels, edge: Pixels)
    requires w <= h
    ensures PortraitEdge(w, h, edge) <= edge && Abs(PortraitEdge(w, h, edge) * h - edge * w) < h
  {
    MulMono(w, h, edge);
    MulMono(1, edge, w);
    var low, high := edge * w / h, Ceiling(edge * w, h);
    NeighbourIsNear(edge * w, h, edge, low);
    NeighbourIsNear(edge * w, h, edge, high);
    hide Ceiling;
  }

  lemma LandscapeIsNear(w: Pixels, h: Pixels, edge: Pixels)
    requires h <= w
    ensures LandscapeEdge(w, h, edge) <= edge && Abs(LandscapeEdge(w, h, edge) * w - edge * h) < w
  {
    MulMono(h, w, edge);
    MulMono(1, edge, h);
    var low, high := edge * h / w, Ceiling(edge * h, w);
    NeighbourIsNear(edge * h, w, edge, low);
    NeighbourIsNear(edge * h, w, edge, high);
    hide Ceiling;
  }

  /** Never an upscale: the long edge is exactly min(edge, source), and the other is within one pixel. */
  lemma ContainedIsExact(s: Size, edge: Pixels)
    ensures Long(Contained(s, edge)) == (if edge < Long(s) then edge else Long(s))
    ensures edge < Long(s) ==> Near(Contained(s, edge), s, edge, 1)
    ensures edge >= Long(s) ==> Contained(s, edge) == s
  {
    if edge < Long(s) {
      if s.width <= s.height {
        PortraitIsNear(s.width, s.height, edge);
      } else {
        LandscapeIsNear(s.width, s.height, edge);
      }
    }
  }

  lemma MultiplesAround(n: int, q: int, r: nat, d: Pixels)
    requires r < d
    ensures n <= q ==> q * d + r - n * d >= r
    ensures n > q ==> n * d - (q * d + r) >= d - r
  {
    if n <= q {
      MulMono(n, q, d);
    } else {
      MulMono(q + 1, n, d);
      assert (q + 1) * d == q * d + d;
    }
  }

  /** The portrait edge gives the closest aspect ratio of all. */
  lemma PortraitIsBest(w: Pixels, h: Pixels, edge: Pixels, n: Pixels)
    ensures Abs(PortraitEdge(w, h, edge) * h - edge * w) <= Abs(n * h - edge * w)
  {
    var total := edge * w;
    DivisionBounds(total, h);
    var q, r := total / h, total % h;
    MultiplesAround(n, q, r, h);
    var high := Ceiling(total, h);
    assert w * edge == total && high * h == (if r == 0 then q * h else q * h + h);
    var x := PortraitEdge(w, h, edge);
    assert x == q || x == q + 1;
    assert x * h == (if x == q then q * h else q * h + h);
  }

  /** Fractions a/p <= b/q <= c/r, multiplied out. */
  lemma FractionsChain(a: nat, p: Pixels, b: nat, q: Pixels, c: nat, r: Pixels)
    requires a * q <= b * p && b * r <= c * q
    ensures a * r <= c * p
  {
    MulMono(a * q, b * p, r);
    MulMono(b * r, c * q, p);
    assert (a * r) * q == (a * q) * r && (b * p) * r == (b * r) * p && (c * q) * p == (c * p) * q;
    if c * p < a * r {
      MulMono(c * p + 1, a * r, q);
    }
  }

  /** How far the height n of a landscape is from its ideal, t / w: n times the error of the aspect ratio. */
  function Misfit(w: Pixels, t: nat, n: nat): nat {
    Abs(w * n - t)
  }

  lemma BelowIsWorse(w: Pixels, t: nat, low: Pixels, n: Pixels)
    requires n <= low && w * low <= t
    ensures Misfit(w, t, low) * n <= Misfit(w, t, n) * low
  {
    MulMono(n, low, w);
    MulMono(n, low, t);
    assert (t - w * low) * n == t * n - w * low * n && (t - w * n) * low == t * low - w * n * low;
    assert w * low * n == w * n * low;
  }

  lemma AboveIsWorse(w: Pixels, t: nat, high: Pixels, n: Pixels)
    requires high <= n && t <= w * high
    ensures Misfit(w, t, high) * n <= Misfit(w, t, n) * high
  {
    MulMono(high, n, w);
    MulMono(high, n, t);
    assert (w * high - t) * n == w * high * n - t * n && (w * n - t) * high == w * n * high - t * high;
    assert w * high * n == w * n * high;
  }

  /** The landscape edge gives the closest aspect ratio of all: |w/h - edge/n| is least, here times h and both edges. */
  lemma LandscapeIsBest(w: Pixels, h: Pixels, edge: Pixels, n: Pixels)
    ensures Abs(w * LandscapeEdge(w, h, edge) - edge * h) * n <= Abs(w * n - edge * h) * LandscapeEdge(w, h, edge)
  {
    var t := edge * h;
    var low, high, x := t / w, Ceiling(t, w), LandscapeEdge(w, h, edge);
    DivisionBounds(t, w);
    assert w * low <= t <= w * high && high <= low + 1 by {
      assert w * (low + 1) == w * low + w;
    }
    if low == 0 {
      AboveIsWorse(w, t, 1, n);
    } else {
      LandscapePick(w, t, low, high, x, n);
    }
  }

  lemma LandscapePick(w: Pixels, t: nat, low: Pixels, high: Pixels, x: Pixels, n: Pixels)
    requires w * low <= t <= w * high && low <= high <= low + 1
    requires x == if Misfit(w, t, high) * low < Misfit(w, t, low) * high then high else low
    ensures Misfit(w, t, x) * n <= Misfit(w, t, n) * x
  {
    var (a, b, c) := (Misfit(w, t, low), Misfit(w, t, high), Misfit(w, t, n));
    if n <= low {
      BelowIsWorse(w, t, low, n);
      if x == high {
        FractionsChain(b, high, a, low, c, n);
      }
    } else {
      AboveIsWorse(w, t, high, n);
      if x == low {
        FractionsChain(a, low, b, high, c, n);
      }
    }
  }

  // ---------------------------------------------------------------- drift of a cascade

  lemma LargeStaysLarge(x: int, m: nat, bound: int)
    requires bound <= Abs(x)
    ensures bound * m <= Abs(x * m)
  {
    if x >= 0 {
      MulMono(bound, x, m);
    } else {
      MulMono(bound, -x, m);
      assert (-x) * m == -(x * m);
    }
  }

  lemma CancelPositive(x: int, m: Pixels, bound: int)
    requires Abs(x * m) < bound * m
    ensures Abs(x) < bound
  {
    if bound <= Abs(x) {
      LargeStaysLarge(x, m, bound);
      assert false;
    }
  }

  lemma ScaledBound(x: int, bound: nat, c: nat)
    requires Abs(x) <= bound
    ensures Abs(x * c) <= bound * c
  {
    MulMono(x, bound, c);
    MulMono(-x, bound, c);
    assert (-x) * c == -(x * c);
  }

  /** One dimension: halving at each step keeps the deviation from the ideal below two pixels. */
  lemma DriftStays(v: int, e: int, v': int, e': int, source: int, full: int)
    requires e >= 1 && e' >= 1 && full >= 1
    requires 2 * e' <= e && Abs(v * full - e * source) < 2 * full && Abs(v' * e - e' * v) < e
    ensures Abs(v' * full - e' * source) < 2 * full
  {
    var a, b, x := v' * e - e' * v, v * full - e * source, v' * full - e' * source;
    SplitDrift(v, e, v', e', source, full);
    ScaledBound(a, e - 1, full);
    ScaledBound(b, 2 * full, e');
    MulMono(2 * e', e, full);
    AddBounds(a * full, b * e', e * full, full);
    Rearranged(full, e);
    Rearranged(full, e');
    assert b * e' == e' * b;
    CancelPositive(x, e, 2 * full);
  }

  lemma Rearranged(f: int, e: int)
    ensures 2 * f * e == 2 * (e * f) == 2 * e * f && (e - 1) * f == e * f - f
  {
  }

  lemma AddBounds(p: int, q: int, bound: int, slack: int)
    ensures slack >= 1 && Abs(p) <= bound - slack && Abs(q) <= bound ==> Abs(p + q) < 2 * bound
  {
  }

  lemma SplitDrift(v: int, e: int, v': int, e': int, source: int, full: int)
    ensures (v' * e - e' * v) * full + e' * (v * full - e * source) == (v' * full - e' * source) * e
  {
    assert (v' * e - e' * v) * full == v' * e * full - e' * v * full;
    assert e' * (v * full - e * source) == e' * v * full - e' * e * source;
    assert (v' * full - e' * source) * e == v' * full * e - e' * source * e;
  }

  lemma CascadeStaysNear(base: Size, s: Size, edge: Pixels)
    requires 2 * edge <= Long(s) && Near(s, base, Long(s), 2)
    ensures Near(Contained(s, edge), base, edge, 2)
  {
    ContainedIsExact(s, edge);
    hide Contained, Abs;
    var t := Contained(s, edge);
    DriftStays(s.width, Long(s), t.width, edge, base.width, Long(base));
    DriftStays(s.height, Long(s), t.height, edge, base.height, Long(base));
  }

  lemma TwoPixels(t: int, d: int, target: int, full: int)
    requires full >= 1 && Abs(t * full - target) < 2 * full && Abs(d * full - target) < full
    ensures Abs(t - d) <= 2
  {
    assert (t - d) * full == (t * full - target) - (d * full - target);
    CancelPositive(t - d, full, 3);
  }

  /** No dimension is more than two pixels away from a direct resize. */
  lemma NearMeansTwoPixels(t: Size, base: Size, edge: Pixels)
    requires edge < Long(base) && Near(t, base, edge, 2)
    ensures var d := Contained(base, edge); Abs(t.width - d.width) <= 2 && Abs(t.height - d.height) <= 2
  {
    ContainedIsExact(base, edge);
    hide Contained;
    var d := Contained(base, edge);
    TwoPixels(t.width, d.width, edge * base.width, Long(base));
    TwoPixels(t.height, d.height, edge * base.height, Long(base));
  }

  // ---------------------------------------------------------------- choosing a source

  /** The first smallest image that is at least edge long; the decoded base when there is none. */
  function PickSource(produced: seq<Size>, edge: Pixels): Option<Size> {
    if produced == [] then None
    else
      var rest, last := PickSource(produced[..|produced| - 1], edge), produced[|produced| - 1];
      if Long(last) >= edge && (rest.None? || Long(last) < Long(rest.value)) then Some(last) else rest
  }

  lemma {:induction false} PickedIsSmallest(produced: seq<Size>, edge: Pixels)
    ensures match PickSource(produced, edge)
            case None => forall k :: 0 <= k < |produced| ==> Long(produced[k]) < edge
            case Some(s) =>
              && s in produced && Long(s) >= edge
              && forall k :: 0 <= k < |produced| && Long(produced[k]) >= edge ==> Long(s) <= Long(produced[k])
  {
    hide Long;
    if produced != [] {
      var front, last := produced[..|produced| - 1], produced[|produced| - 1];
      PickedIsSmallest(front, edge);
      assert produced == front + [last];
      forall k | 0 <= k < |produced|
        ensures produced[k] == last || (k < |front| && produced[k] == front[k])
      {
      }
    }
  }

  /** The configured edges: of any two, one is at least twice the other. */
  ghost predicate Halving(edges: seq<Pixels>) {
    forall i, j :: 0 <= i < |edges| && 0 <= j < |edges| && edges[i] < edges[j] ==> 2 * edges[i] <= edges[j]
  }

  lemma ConfiguredEdgesHalve()
    ensures Halving([1440, 512, 256, 128])
  {
  }

  /** An image in the cascade: the decoded base, or a variant whose long edge is its configured edge. */
  ghost predicate InCascade(s: Size, base: Size, edges: seq<Pixels>) {
    s == base || (Long(s) in edges && Long(s) < Long(base) && Near(s, base, Long(s), 2))
  }

  /** The variant for an edge: exact long edge, and a short edge within two pixels of a direct resize. */
  ghost predicate GoodVariant(t: Size, base: Size, edge: Pixels) {
    && Long(t) == (if edge < Long(base) then edge else Long(base))
    && Abs(t.width - Contained(base, edge).width) <= 2 && Abs(t.height - Contained(base, edge).height) <= 2
  }

  /** Resizing from whatever the cascade holds is as good as it was so far. */
  lemma NextVariantIsGood(produced: seq<Size>, base: Size, edges: seq<Pixels>, edge: Pixels)
    requires Halving(edges) && edge in edges && base in produced
    requires forall k :: 0 <= k < |produced| ==> InCascade(produced[k], base, edges)
    ensures var t := Contained(PickSource(produced, edge).GetOr(base), edge);
      GoodVariant(t, base, edge) && InCascade(t, base, edges)
  {
    PickedIsSmallest(produced, edge);
    var s := PickSource(produced, edge).GetOr(base);
    var t := Contained(s, edge);
    ContainedIsExact(s, edge);
    ContainedIsExact(base, edge);
    hide Contained, PickSource, Long;
    if s == base {
      if edge < Long(base) {
        NearMeansTwoPixels(t, base, edge);
      }
    } else {
      assert InCascade(s, base, edges);
      if edge < Long(s) {
        CascadeStaysNear(base, s, edge);
      }
      NearMeansTwoPixels(t, base, edge);
    }
  }

  // ---------------------------------------------------------------- delivery

  /** What happens when one variant is looked up in the cache, and when it is rendered. */
  datatype Lookup = KeyFails | CacheFails | Cached | Missing
  datatype Rendering = Renders | FitFails | SaveFails
  datatype Outcome = FromCache | Failed | Rendered(size: Size)

  predicate Before(edges: seq<Pixels>, primary: nat, i: nat, j: nat)
    requires i < |edges| && j < |edges|
  {
    if (i == primary) != (j == primary) then i == primary
    else if edges[i] != edges[j] then edges[i] > edges[j]
    else i < j
  }

  predicate AllBelow(order: seq<nat>, n: nat) {
    forall k :: 0 <= k < |order| ==> order[k] < n
  }

  function Insert(edges: seq<Pixels>, primary: nat, order: seq<nat>, i: nat): (r: seq<nat>)
    requires i < |edges| && AllBelow(order, |edges|)
    ensures AllBelow(r, |edges|)
  {
    if order == [] || Before(edges, primary, i, order[0]) then [i] + order
    else [order[0]] + Insert(edges, primary, order[1..], i)
  }

  /** sorted(pending): the primary variant first, then from the largest edge down. */
  function Order(edges: seq<Pixels>, primary: nat, pending: seq<nat>): (r: seq<nat>)
    requires AllBelow(pending, |edges|)
    ensures AllBelow(r, |edges|)
  {
    if pending == [] then []
    else Insert(edges, primary, Order(edges, primary, pending[..|pending| - 1]), pending[|pending| - 1])
  }

  ghost predicate Chained(edges: seq<Pixels>, primary: nat, order: seq<nat>)
    requires AllBelow(order, |edges|)
  {
    forall a, b :: 0 <= a < b < |order| ==> order[a] == order[b] || Before(edges, primary, order[a], order[b])
  }

  /** The primary variant leads, the others come by falling edge, and equal edges by rising index. */
  ghost predicate InOrder(edges: seq<Pixels>, primary: nat, order: seq<nat>)
    requires AllBelow(order, |edges|)
  {
    forall a, b :: 0 <= a < b < |order| ==>
      && (order[b] == primary ==> order[a] == primary)
      && (order[a] != primary ==>
            edges[order[a]] > edges[order[b]] || (edges[order[a]] == edges[order[b]] && order[a] <= order[b]))
  }

  lemma ChainedIsInOrder(edges: seq<Pixels>, primary: nat, order: seq<nat>)
    requires AllBelow(order, |edges|) && Chained(edges, primary, order)
    ensures InOrder(edges, primary, order)
  {
  }

  lemma BeforeIsTotal(edges: seq<Pixels>, primary: nat, i: nat, j: nat, k: nat)
    requires i < |edges| && j < |edges| && k < |edges|
    ensures i == j || Before(edges, primary, i, j) || Before(edges, primary, j, i)
    ensures Before(edges, primary, i, j) && Before(edges, primary, j, k) ==> Before(edges, primary, i, k)
  {
  }

  lemma {:induction false} InsertMembers(edges: seq<Pixels>, primary: nat, order: seq<nat>, i: nat, b: nat)
    requires i < |edges| && AllBelow(order, |edges|) && b < |Insert(edges, primary, order, i)|
    ensures Insert(edges, primary, order, i)[b] == i || Insert(edges, primary, order, i)[b] in order
  {
    hide Before;
    if order != [] && !Before(edges, primary, i, order[0]) && b > 0 {
      InsertMembers(edges, primary, order[1..], i, b - 1);
    }
  }

  lemma {:induction false} InsertKeepsMembers(edges: seq<Pixels>, primary: nat, order: seq<nat>, i: nat)
    requires i < |edges| && AllBelow(order, |edges|)
    ensures multiset(Insert(edges, primary, order, i)) == multiset(order) + multiset{i}
  {
    hide Before;
    if order != [] && !Before(edges, primary, i, order[0]) {
      InsertKeepsMembers(edges, primary, order[1..], i);
      assert order == [order[0]] + order[1..];
    }
  }

  predicate LeadsAll(edges: seq<Pixels>, primary: nat, x: nat, order: seq<nat>)
    requires x < |edges| && AllBelow(order, |edges|)
  {
    forall b :: 0 <= b < |order| ==> order[b] == x || Before(edges, primary, x, order[b])
  }

  lemma PrependKeepsOrder(edges: seq<Pixels>, primary: nat, order: seq<nat>, x: nat)
    requires x < |edges| && AllBelow(order, |edges|) && Chained(edges, primary, order)
             && LeadsAll(edges, primary, x, order)
    ensures Chained(edges, primary, [x] + order)
  {
    hide Before;
  }

  lemma HeadLeads(edges: seq<Pixels>, primary: nat, order: seq<nat>, i: nat)
    requires i < |edges| && order != [] && AllBelow(order, |edges|) && Chained(edges, primary, order)
    ensures LeadsAll(edges, primary, order[0], order[1..])
    ensures Before(edges, primary, i, order[0]) ==> LeadsAll(edges, primary, i, order)
  {
    hide Before;
    if Before(edges, primary, i, order[0]) {
      forall b | 0 <= b < |order|
        ensures order[b] == i || Before(edges, primary, i, order[b])
      {
        BeforeIsTotal(edges, primary, i, order[0], order[b]);
      }
    }
  }

  lemma {:induction false} InsertKeepsOrder(edges: seq<Pixels>, primary: nat, order: seq<nat>, i: nat)
    requires i < |edges| && AllBelow(order, |edges|) && Chained(edges, primary, order)
    ensures Chained(edges, primary, Insert(edges, primary, order, i))
  {
    hide Before;
    if order != [] {
      HeadLeads(edges, primary, order, i);
      if Before(edges, primary, i, order[0]) {
        PrependKeepsOrder(edges, primary, order, i);
      } else {
        var r := Insert(edges, primary, order[1..], i);
        InsertKeepsOrder(edges, primary, order[1..], i);
        BeforeIsTotal(edges, primary, i, order[0], i);
        forall b | 0 <= b < |r|
          ensures r[b] == order[0] || Before(edges, primary, order[0], r[b])
        {
          InsertMembers(edges, primary, order[1..], i, b);
        }
        PrependKeepsOrder(edges, primary, r, order[0]);
      }
    }
  }

  lemma {:induction false} OrderIsChained(edges: seq<Pixels>, primary: nat, pending: seq<nat>)
    requires AllBelow(pending, |edges|)
    ensures var r := Order(edges, primary, pending); multiset(r) == multiset(pending) && Chained(edges, primary, r)
  {
    if pending != [] {
      var front := pending[..|pending| - 1];
      OrderIsChained(edges, primary, front);
      InsertKeepsOrder(edges, primary, Order(edges, primary, front), pending[|pending| - 1]);
      InsertKeepsMembers(edges, primary, Order(edges, primary, front), pending[|pending| - 1]);
      assert pending == front + [pending[|pending| - 1]];
    }
  }

  /** The order is a permutation of the pending variants, primary first and then by falling edge. */
  lemma OrderIsSorted(edges: seq<Pixels>, primary: nat, pending: seq<nat>)
    requires AllBelow(pending, |edges|)
    ensures var r := Order(edges, primary, pending); multiset(r) == multiset(pending) && InOrder(edges, primary, r)
  {
    OrderIsChained(edges, primary, pending);
    ChainedIsInOrder(edges, primary, Order(edges, primary, pending));
  }

  type Delivery = seq<(nat, Outcome)>

  /** How often index i is delivered. */
  function Count(out: Delivery, i: nat): nat {
    if out == [] then 0 else Count(out[..|out| - 1], i) + if out[|out| - 1].0 == i then 1 else 0
  }

  lemma CountPush(out: Delivery, x: (nat, Outcome), i: nat)
    ensures Count(out + [x], i) == Count(out, i) + if x.0 == i then 1 else 0
  {
    assert (out + [x])[..|out|] == out;
  }

  /** The first lookup that raises. */
  ghost predicate IsFirstFailure(lookups: seq<Lookup>, f: nat) {
    f < |lookups| && lookups[f] in {KeyFails, CacheFails} && forall j :: 0 <= j < f ==> lookups[j] in {Cached, Missing}
  }

  /** The one variant that gets lost: its key was computed, then its cache lookup raised. */
  ghost predicate Dropped(limitsOk: bool, lookups: seq<Lookup>, i: nat) {
    limitsOk && IsFirstFailure(lookups, i) && lookups[i] == CacheFails
  }

  /** What the lookups of the first i variants have delivered and left pending. */
  ghost predicate Collected(lookups: seq<Lookup>, i: nat, pending: seq<nat>, out: Delivery)
    requires i <= |lookups|
  {
    && (forall k :: 0 <= k < i ==> lookups[k] in {Cached, Missing})
    && (forall k :: 0 <= k < |pending| ==> pending[k] < i && lookups[pending[k]] == Missing)
    && (forall j, k :: 0 <= j < k < |pending| ==> pending[j] < pending[k])
    && (forall k :: 0 <= k < i && lookups[k] == Missing ==> k in pending)
    && (forall k :: 0 <= k < i ==> Count(out, k) == if lookups[k] == Cached then 1 else 0)
    && (forall k :: k >= i ==> Count(out, k) == 0)
    && (forall k :: 0 <= k < |out| ==> out[k].1 == FromCache && out[k].0 < i && lookups[out[k].0] == Cached)
  }

  /** The lookup phase: cached variants are delivered at once; keyed says how many variants have a key. */
  method LookUp(limitsOk: bool, lookups: seq<Lookup>)
    returns (out: Delivery, pending: seq<nat>, keyed: nat, failed: bool)
    ensures !failed ==> limitsOk && Collected(lookups, |lookups|, pending, out)
    ensures failed && !limitsOk ==> keyed == 0 && Collected(lookups, 0, pending, out)
    ensures failed && limitsOk ==>
      exists f: nat :: IsFirstFailure(lookups, f) && Collected(lookups, f, pending, out)
                       && keyed == f + (if lookups[f] == CacheFails then 1 else 0)
  {
    out, pending, keyed, failed := [], [], 0, !limitsOk;
    if failed {
      return;
    }
    for i := 0 to |lookups|
      invariant Collected(lookups, i, pending, out) && keyed == i
    {
      if lookups[i] == KeyFails {
        assert IsFirstFailure(lookups, i);
        failed := true;
        return;
      }
      keyed := keyed + 1;
      if lookups[i] == CacheFails {
        assert IsFirstFailure(lookups, i);
        failed := true;
        return;
      }
      if lookups[i] == Cached {
        forall k: nat
          ensures Count(out + [(i, FromCache)], k) == Count(out, k) + if i == k then 1 else 0
        {
          CountPush(out, (i, FromCache), k);
        }
        out := out + [(i, FromCache)];
      } else {
        pending := pending + [i];
      }
    }
  }

  /** A failure before rendering is delivered to every variant without a key and to every pending one. */
  method DeliverFailure(n: nat, keyed: nat, pending: seq<nat>, before: Delivery) returns (out: Delivery)
    ensures forall k: nat :: Count(out, k) == Count(before, k) + if k < n && (k >= keyed || k in pending) then 1 else 0
    ensures |before| <= |out| && out[..|before|] == before && forall k :: |before| <= k < |out| ==> out[k].1 == Failed
  {
    out := before;
    for index := 0 to n
      invariant |before| <= |out| && out[..|before|] == before
      invariant forall k :: |before| <= k < |out| ==> out[k].1 == Failed
      invariant forall k: nat ::
                  Count(out, k) == Count(before, k) + if k < index && (k >= keyed || k in pending) then 1 else 0
    {
      if index >= keyed || index in pending {
        forall k: nat
          ensures Count(out + [(index, Failed)], k) == Count(out, k) + if index == k then 1 else 0
        {
          CountPush(out, (index, Failed), k);
        }
        out := out + [(index, Failed)];
      }
    }
  }

  /** Every rendered variant is a good one. */
  ghost predicate AllGood(out: Delivery, base: Size, edges: seq<Pixels>) {
    forall k :: 0 <= k < |out| && out[k].1.Rendered? ==>
        out[k].0 < |edges| && GoodVariant(out[k].1.size, base, edges[out[k].0])
  }

  /** After the earlier deliveries, exactly these variants follow, in this order. */
  ghost predicate Follows(out: Delivery, before: Delivery, order: seq<nat>) {
    && |out| == |before| + |order| && out[..|before|] == before
    && forall k :: 0 <= k < |order| ==> out[|before| + k].0 == order[k]
  }

  ghost predicate Delivers(out: Delivery, before: Delivery, order: seq<nat>) {
    Follows(out, before, order) && forall k: nat :: Count(out, k) == Count(before, k) + multiset(order)[k]
  }

  lemma OneMoreDelivered(out: Delivery, before: Delivery, order: seq<nat>, x: (nat, Outcome))
    requires Delivers(out, before, order)
    ensures Delivers(out + [x], before, order + [x.0])
  {
    forall k: nat
      ensures Count(out + [x], k) == Count(out, k) + if x.0 == k then 1 else 0
    {
      CountPush(out, x, k);
    }
  }

  lemma NoneDelivered(before: Delivery)
    ensures Delivers(before, before, [])
  {
  }

  /** The rendering phase: each pending variant once, in the given order, from the smallest image large enough. */
  method Render(edges: seq<Pixels>, base: Size, order: seq<nat>, renderings: seq<Rendering>, before: Delivery)
    returns (out: Delivery)
    requires |renderings| == |edges| && AllBelow(order, |edges|) && Halving(edges) && AllGood(before, base, edges)
    ensures AllGood(out, base, edges) && Delivers(out, before, order)
    ensures forall k :: |before| <= k < |out| ==>
              && out[k].0 < |renderings| && out[k].1 != FromCache
              && (out[k].1.Rendered? <==> renderings[out[k].0] == Renders)
  {
    out := before;
    NoneDelivered(before);
    var produced := [base];
    for at := 0 to |order|
      invariant base in produced && forall k :: 0 <= k < |produced| ==> InCascade(produced[k], base, edges)
      invariant AllGood(out, base, edges) && Delivers(out, before, order[..at]) && |out| == |before| + at
      invariant forall k :: |before| <= k < |out| ==>
                  && out[k].0 < |renderings| && out[k].1 != FromCache
                  && (out[k].1.Rendered? <==> renderings[out[k].0] == Renders)
    {
      var index := order[at];
      assert order[..at + 1] == order[..at] + [index];
      var source := PickSource(produced, edges[index]).GetOr(base);
      var fitted := Contained(source, edges[index]);
      NextVariantIsGood(produced, base, edges, edges[index]);
      hide InCascade, GoodVariant, PickSource, Contained, Delivers;
      if renderings[index] != FitFails && fitted != source {
        produced := produced + [fitted];
      }
      var result := if renderings[index] == Renders then Rendered(fitted) else Failed;
      OneMoreDelivered(out, before, order[..at], (index, result));
      out := out + [(index, result)];
    }
    assert order[..|order|] == order;
  }

  /** Every variant is delivered once, except the dropped one, and nothing else is delivered. */
  ghost predicate DeliveredOnce(limitsOk: bool, lookups: seq<Lookup>, out: Delivery) {
    forall i: nat :: Count(out, i) == if i < |lookups| && !Dropped(limitsOk, lookups, i) then 1 else 0
  }

  lemma FirstFailureIsUnique(lookups: seq<Lookup>, f: nat, i: nat)
    requires IsFirstFailure(lookups, f)
    ensures IsFirstFailure(lookups, i) <==> i == f
  {
  }

  lemma FailureDeliversOnce(
    lookups: seq<Lookup>, f: nat, keyed: nat, pending: seq<nat>, before: Delivery, out: Delivery)
    requires IsFirstFailure(lookups, f) && Collected(lookups, f, pending, before)
    requires keyed == f + if lookups[f] == CacheFails then 1 else 0
    requires forall k: nat ::
               Count(out, k) == Count(before, k) + if k < |lookups| && (k >= keyed || k in pending) then 1 else 0
    ensures DeliveredOnce(true, lookups, out)
  {
    hide Count;
    forall i: nat
      ensures Dropped(true, lookups, i) <==> i == f && lookups[f] == CacheFails
    {
      FirstFailureIsUnique(lookups, f, i);
    }
  }

  lemma AllLookedUpDeliversOnce(lookups: seq<Lookup>, pending: seq<nat>, before: Delivery, out: Delivery)
    requires Collected(lookups, |lookups|, pending, before)
    requires forall k: nat :: Count(out, k) == Count(before, k) + multiset(pending)[k]
    ensures DeliveredOnce(true, lookups, out)
  {
    hide Count;
    forall i: nat
      ensures multiset(pending)[i] == if i < |lookups| && lookups[i] == Missing then 1 else 0
    {
      assert Distinct(pending);
      DistinctCount(pending, i);
    }
  }

  /** The cached variants come first, then the rendered ones: the primary, and the rest from the largest edge down. */
  ghost predicate PrimaryFirst(edges: seq<Pixels>, primary: nat, lookups: seq<Lookup>, out: Delivery) {
    exists cached: Delivery, order :: IsSplit(edges, primary, lookups, out, cached, order)
  }

  ghost predicate IsSplit(
    edges: seq<Pixels>, primary: nat, lookups: seq<Lookup>, out: Delivery, cached: Delivery, order: seq<nat>) {
    && (forall k :: 0 <= k < |cached| ==> cached[k].1 == FromCache)
    && AllBelow(order, |edges|) && InOrder(edges, primary, order) && Follows(out, cached, order)
    && (forall k: nat :: k in order <==> k < |lookups| && lookups[k] == Missing)
  }

  /** A cached variant comes from the cache, a missing one is rendered unless its rendering fails. */
  ghost predicate OutcomesMatch(lookups: seq<Lookup>, renderings: seq<Rendering>, out: Delivery)
    requires |renderings| == |lookups|
  {
    forall k :: 0 <= k < |out| ==>
      (&& out[k].0 < |lookups|
       && (out[k].1 == FromCache <==> lookups[out[k].0] == Cached)
       && (out[k].1.Rendered? <==> lookups[out[k].0] == Missing && renderings[out[k].0] == Renders))
  }

  ghost predicate AllLookedUp(limitsOk: bool, lookups: seq<Lookup>) {
    limitsOk && forall i :: 0 <= i < |lookups| ==> lookups[i] in {Cached, Missing}
  }

  /** Only cached variants come from the cache, and nothing is rendered after a failed lookup or without a source. */
  ghost predicate NothingInvented(limitsOk: bool, lookups: seq<Lookup>, source: Option<Size>, out: Delivery) {
    && (forall k :: 0 <= k < |out| && out[k].1 == FromCache ==>
          out[k].0 < |lookups| && lookups[out[k].0] == Cached && limitsOk)
    && (source.None? || !AllLookedUp(limitsOk, lookups) ==> forall k :: 0 <= k < |out| ==> !out[k].1.Rendered?)
  }

  lemma FailureInventsNothing(
    limitsOk: bool, lookups: seq<Lookup>, source: Option<Size>, i: nat, pending: seq<nat>, before: Delivery,
    out: Delivery)
    requires i <= |lookups| && Collected(lookups, i, pending, before) && (limitsOk || i == 0)
    requires |before| <= |out| && out[..|before|] == before && forall k :: |before| <= k < |out| ==> out[k].1 == Failed
    ensures NothingInvented(limitsOk, lookups, source, out)
  {
    hide Count;
    assert forall k :: 0 <= k < |before| ==> out[..|before|][k] == out[k];
  }

  lemma MatchInventsNothing(
    limitsOk: bool, lookups: seq<Lookup>, renderings: seq<Rendering>, source: Option<Size>, out: Delivery)
    requires |renderings| == |lookups| && OutcomesMatch(lookups, renderings, out)
    requires limitsOk && source.Some? && forall i :: 0 <= i < |lookups| ==> lookups[i] in {Cached, Missing}
    ensures NothingInvented(limitsOk, lookups, source, out)
  {
  }

  lemma RenderedOutcomes(
    lookups: seq<Lookup>, renderings: seq<Rendering>, pending: seq<nat>, cached: Delivery, order: seq<nat>,
    out: Delivery)
    requires |renderings| == |lookups| && Collected(lookups, |lookups|, pending, cached) && Delivers(out, cached, order)
    requires multiset(order) == multiset(pending)
    requires forall k :: |cached| <= k < |out| ==>
               && out[k].0 < |renderings| && out[k].1 != FromCache
               && (out[k].1.Rendered? <==> renderings[out[k].0] == Renders)
    ensures OutcomesMatch(lookups, renderings, out)
  {
    hide Count;
    forall k | 0 <= k < |out|
      ensures out[k].0 < |lookups| && (k < |cached| ==> out[k] == cached[k])
              && (k >= |cached| ==> lookups[out[k].0] == Missing)
    {
      if k < |cached| {
        assert out[..|cached|][k] == cached[k];
      } else {
        assert out[k].0 == order[k - |cached|];
        assert out[k].0 in multiset(order);
        assert out[k].0 in multiset(pending);
      }
    }
  }

  lemma RenderedInOrder(
    edges: seq<Pixels>, primary: nat, lookups: seq<Lookup>, pending: seq<nat>, cached: Delivery, out: Delivery)
    requires AllBelow(pending, |edges|) && Collected(lookups, |lookups|, pending, cached)
             && Delivers(out, cached, Order(edges, primary, pending))
    ensures PrimaryFirst(edges, primary, lookups, out)
    ensures forall k: nat :: Count(out, k) == Count(cached, k) + multiset(pending)[k]
  {
    hide Count, Order, InOrder, Collected;
    var order := Order(edges, primary, pending);
    OrderIsSorted(edges, primary, pending);
    OrderedMembers(lookups, pending, cached, order);
    assert forall k :: 0 <= k < |cached| ==> cached[k].1 == FromCache by {
      CollectedFromCache(lookups, pending, cached);
    }
    assert IsSplit(edges, primary, lookups, out, cached, order);
  }

  lemma CollectedFromCache(lookups: seq<Lookup>, pending: seq<nat>, cached: Delivery)
    requires Collected(lookups, |lookups|, pending, cached)
    ensures forall k :: 0 <= k < |cached| ==> cached[k].1 == FromCache
  {
    hide Count;
  }

  lemma OrderedMembers(lookups: seq<Lookup>, pending: seq<nat>, cached: Delivery, order: seq<nat>)
    requires Collected(lookups, |lookups|, pending, cached) && multiset(order) == multiset(pending)
    ensures forall k: nat :: k in order <==> k < |lookups| && lookups[k] == Missing
  {
    hide Count;
    forall k: nat
      ensures k in order <==> k < |lookups| && lookups[k] == Missing
    {
      assert k in order <==> k in multiset(pending);
      assert k in multiset(pending) <==> k in pending;
    }
  }

  lemma PendingOnce(edges: seq<Pixels>, primary: nat, pending: seq<nat>)
    requires AllBelow(pending, |edges|) && Distinct(pending)
    ensures forall k: nat :: multiset(pending)[k] == if k < |edges| && k in Order(edges, primary, pending) then 1 else 0
  {
    OrderIsSorted(edges, primary, pending);
    forall k: nat
      ensures multiset(pending)[k] == if k < |edges| && k in Order(edges, primary, pending) then 1 else 0
    {
      DistinctCount(pending, k);
      assert k in pending <==> k in multiset(Order(edges, primary, pending));
    }
  }

  /**
   * Every variant is delivered exactly once, except the one whose cache lookup raised first; and every rendered
   * variant has its exact long edge and is within two pixels of a direct resize, whichever variant is primary.
   */
  method RenderDerivatives(
    edges: seq<Pixels>, primary: nat, limitsOk: bool, lookups: seq<Lookup>, source: Option<Size>,
    renderings: seq<Rendering>)
    returns (out: Delivery)
    requires |lookups| == |renderings| == |edges| && Halving(edges)
    ensures DeliveredOnce(limitsOk, lookups, out)
    ensures source.Some? ==> AllGood(out, source.value, edges)
    ensures NothingInvented(limitsOk, lookups, source, out)
    ensures source.Some? && AllLookedUp(limitsOk, lookups) ==>
              PrimaryFirst(edges, primary, lookups, out) && OutcomesMatch(lookups, renderings, out)
  {
    var pending, keyed, failed;
    out, pending, keyed, failed := LookUp(limitsOk, lookups);
    ghost var collected := out;
    hide NothingInvented, DeliveredOnce, Collected;
    if failed {
      out := DeliverFailure(|edges|, keyed, pending, out);
      FailureOutcome(limitsOk, lookups, source, keyed, pending, collected, out);
      return;
    }
    PendingIsOrdered(lookups, pending, collected);
    var order := Order(edges, primary, pending);
    OrderIsSorted(edges, primary, pending);
    PendingOnce(edges, primary, pending);
    hide Count, Order, AllGood, InOrder, Dropped, Delivers, PrimaryFirst, OutcomesMatch, Follows;
    if source.None? {
      out := DeliverFailure(|edges|, |edges|, order, out);
      FailureInventsNothing(limitsOk, lookups, source, |lookups|, pending, collected, out);
    } else {
      out := Render(edges, source.value, order, renderings, out);
      RenderedInOrder(edges, primary, lookups, pending, collected, out);
      RenderedOutcomes(lookups, renderings, pending, collected, order, out);
      MatchInventsNothing(limitsOk, lookups, renderings, source, out);
    }
    AllLookedUpDeliversOnce(lookups, pending, collected, out);
  }

  lemma FailureOutcome(
    limitsOk: bool, lookups: seq<Lookup>, source: Option<Size>, keyed: nat, pending: seq<nat>, before: Delivery,
    out: Delivery)
    requires !limitsOk ==> keyed == 0 && Collected(lookups, 0, pending, before)
    requires limitsOk ==>
               exists f: nat :: IsFirstFailure(lookups, f) && Collected(lookups, f, pending, before)
                                && keyed == f + (if lookups[f] == CacheFails then 1 else 0)
    requires forall k: nat ::
               Count(out, k) == Count(before, k) + if k < |lookups| && (k >= keyed || k in pending) then 1 else 0
    requires |before| <= |out| && out[..|before|] == before && forall k :: |before| <= k < |out| ==> out[k].1 == Failed
    ensures DeliveredOnce(limitsOk, lookups, out) && NothingInvented(limitsOk, lookups, source, out)
    ensures !AllLookedUp(limitsOk, lookups)
    ensures forall k :: 0 <= k < |out| ==> !out[k].1.Rendered?
  {
    if limitsOk {
      var f: nat :| IsFirstFailure(lookups, f) && Collected(lookups, f, pending, before)
        && keyed == f + (if lookups[f] == CacheFails then 1 else 0);
      assert !AllLookedUp(limitsOk, lookups);
      hide Collected, Count, DeliveredOnce;
      FailureDeliversOnce(lookups, f, keyed, pending, before, out);
      FailureInventsNothing(limitsOk, lookups, source, f, pending, before, out);
    } else {
      FailureInventsNothing(limitsOk, lookups, source, 0, pending, before, out);
    }
  }

  lemma PendingIsOrdered(lookups: seq<Lookup>, pending: seq<nat>, out: Delivery)
    requires Collected(lookups, |lookups|, pending, out)
    ensures AllBelow(pending, |lookups|) && Distinct(pending)
    ensures forall i :: 0 <= i < |lookups| ==> lookups[i] in {Cached, Missing}
  {
  }

  predicate Once(out: Delivery, i: nat) {
    Count(out, i) == 1
  }

  /** All variants are delivered iff the first lookup that raises, if any, raises before its key is known. */
  lemma AllDeliveredIff(limitsOk: bool, lookups: seq<Lookup>, out: Delivery)
    requires DeliveredOnce(limitsOk, lookups, out)
    ensures (forall i: nat | i < |lookups| :: Once(out, i)) <==>
            !(exists f: nat :: limitsOk && IsFirstFailure(lookups, f) && lookups[f] == CacheFails)
  {
    if f: nat :| limitsOk && IsFirstFailure(lookups, f) && lookups[f] == CacheFails {
      assert Dropped(limitsOk, lookups, f) && !Once(out, f);
    } else {
      forall i: nat | i < |lookups|
        ensures Once(out, i)
      {
        assert !Dropped(limitsOk, lookups, i);
      }
    }
  }

  /** A cache lookup that raises between two missing variants: both are delivered, the variant itself never is. */
  lemma RaisingCacheDropsVariant(out: Delivery)
    requires DeliveredOnce(true, [Missing, CacheFails, Missing], out)
    ensures Once(out, 0) && Once(out, 2) && Count(out, 1) == 0
  {
    var lookups := [Missing, CacheFails, Missing];
    assert IsFirstFailure(lookups, 1);
    assert Dropped(true, lookups, 1) && !Dropped(true, lookups, 0) && !Dropped(true, lookups, 2);
  }
}
