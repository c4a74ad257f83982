/**
 * Perceptual-hash index (backend/visual_fingerprints.py): two 64-bit difference hashes per image,
 * cut into eight 16-bit bands, looked up at Hamming distance 0 and 1 per band.
 */
module VisualFingerprints {
  import opened BitMath
  import opened Ordering
  import opened Prelude
  import SearchIndexer

  const MAX_DISTANCE := 16
  const MAX_COLOR_DISTANCE := 40.0
  const MAX_ASPECT_DISTANCE := 0.08
  const CANDIDATE_LIMIT := 500

  type Hash = x: nat | x < 0x1_0000_0000_0000_0000

  datatype Kind = Horizontal | Vertical

  // ---------------------------------------------------------------- difference hashes

  function RightNeighbour(pixels: seq<int>, i: nat): bool
    requires |pixels| == 72 && i < 64
  {
    pixels[i / 8 * 9 + i % 8] > pixels[i / 8 * 9 + i % 8 + 1]
  }

  function LowerNeighbour(pixels: seq<int>, i: nat): bool
    requires |pixels| == 72 && i < 64
  {
    pixels[i / 8 * 8 + i % 8] > pixels[(i / 8 + 1) * 8 + i % 8]
  }

  lemma RowAndColumn(y: nat, x: nat)
    requires x < 8
    ensures (8 * y + x) / 8 == y && (8 * y + x) % 8 == x
  {
  }

  /** The grey 9x8 thumbnail read row by row: one bit per pixel that is brighter than its right neighbour. */
  method DhashHorizontal(pixels: seq<int>) returns (value: Hash)
    requires |pixels| == 72
    ensures forall i :: 0 <= i < 64 ==> Bit(value, 63 - i) == RightNeighbour(pixels, i)
  {
    var v := 0;
    ghost var bits: seq<bool> := [];
    for y := 0 to 8
      invariant |bits| == 8 * y && v == FromBits(bits)
      invariant forall i :: 0 <= i < |bits| ==> bits[i] == RightNeighbour(pixels, i)
    {
      for x := 0 to 8
        invariant |bits| == 8 * y + x && v == FromBits(bits)
        invariant forall i :: 0 <= i < |bits| ==> bits[i] == RightNeighbour(pixels, i)
      {
        var b := pixels[y * 9 + x] > pixels[y * 9 + x + 1];
        v := v * 2 + if b then 1 else 0;
        RowAndColumn(y, x);
        assert (bits + [b])[..|bits|] == bits;
        bits := bits + [b];
      }
    }
    FromBitsMeaning(bits, 0);
    Pow2Of64();
    value := v;
    forall i | 0 <= i < 64
      ensures Bit(value, 63 - i) == RightNeighbour(pixels, i)
    {
      FromBitsMeaning(bits, i);
    }
  }

  /** The grey 8x9 thumbnail: one bit per pixel that is brighter than the pixel below it. */
  method DhashVertical(pixels: seq<int>) returns (value: Hash)
    requires |pixels| == 72
    ensures forall i :: 0 <= i < 64 ==> Bit(value, 63 - i) == LowerNeighbour(pixels, i)
  {
    var v := 0;
    ghost var bits: seq<bool> := [];
    for y := 0 to 8
      invariant |bits| == 8 * y && v == FromBits(bits)
      invariant forall i :: 0 <= i < |bits| ==> bits[i] == LowerNeighbour(pixels, i)
    {
      for x := 0 to 8
        invariant |bits| == 8 * y + x && v == FromBits(bits)
        invariant forall i :: 0 <= i < |bits| ==> bits[i] == LowerNeighbour(pixels, i)
      {
        var b := pixels[y * 8 + x] > pixels[(y + 1) * 8 + x];
        v := v * 2 + if b then 1 else 0;
        RowAndColumn(y, x);
        assert (bits + [b])[..|bits|] == bits;
        bits := bits + [b];
      }
    }
    FromBitsMeaning(bits, 0);
    Pow2Of64();
    value := v;
    forall i | 0 <= i < 64
      ensures Bit(value, 63 - i) == LowerNeighbour(pixels, i)
    {
      FromBitsMeaning(bits, i);
    }
  }

  // ---------------------------------------------------------------- bands

  function Band(value: nat, k: nat): nat
    requires k < 4
  {
    LowBits(ShiftRight(value, 48 - 16 * k), 16)
  }

  lemma BandBound(value: nat, k: nat)
    requires k < 4
    ensures Band(value, k) < 0x1_0000
  {
    Pow2Of16();
    ShiftAndMask(ShiftRight(value, 48 - 16 * k), 16);
  }

  /** The four bands are the digits of the hash to the base of 65536, highest first. */
  lemma BandsAreDigits(value: nat)
    requires value < 0x1_0000_0000_0000_0000
    ensures value == ((Band(value, 0) * 0x1_0000 + Band(value, 1)) * 0x1_0000 + Band(value, 2)) * 0x1_0000
                     + Band(value, 3)
  {
    Pow2Of16();
    Pow2Of64();
    hide Pow2, ShiftRight, LowBits;
    ShiftAndMask(value, 16);
    ShiftAndMask(ShiftRight(value, 16), 16);
    ShiftAndMask(ShiftRight(value, 32), 16);
    ShiftAndMask(ShiftRight(value, 48), 16);
    ShiftCompose(value, 16, 16);
    ShiftCompose(value, 32, 16);
    ShiftCompose(value, 48, 16);
    ShiftOut(value, 64);
    ShiftNone(value);
  }

  lemma ShiftNone(value: nat)
    ensures ShiftRight(value, 0) == value
  {
  }

  function Bands(value: nat): seq<nat> {
    [Band(value, 0), Band(value, 1), Band(value, 2), Band(value, 3)]
  }

  function BandDistance(v: nat, w: nat, k: nat): nat
    requires k < 4
  {
    Distance(Band(v, k), Band(w, k))
  }

  /** The distance of two hashes is the sum of the distances of their bands. */
  lemma DistanceByBand(v: Hash, w: Hash)
    ensures Distance(v, w) == BandDistance(v, w, 0) + BandDistance(v, w, 1) + BandDistance(v, w, 2)
            + BandDistance(v, w, 3)
  {
    DistanceSplit(v, w, 16);
    DistanceSplit(ShiftRight(v, 16), ShiftRight(w, 16), 16);
    DistanceSplit(ShiftRight(v, 32), ShiftRight(w, 32), 16);
    DistanceSplit(ShiftRight(v, 48), ShiftRight(w, 48), 16);
    ShiftBy16(v);
    ShiftBy16(w);
    DistanceZero(0, 0);
  }

  lemma ShiftBy16(v: Hash)
    ensures ShiftRight(ShiftRight(v, 16), 16) == ShiftRight(v, 32)
    ensures ShiftRight(ShiftRight(v, 32), 16) == ShiftRight(v, 48)
    ensures ShiftRight(ShiftRight(v, 48), 16) == 0
  {
    ShiftCompose(v, 16, 16);
    ShiftCompose(v, 32, 16);
    ShiftCompose(v, 48, 16);
    Pow2Of64();
    ShiftOut(v, 64);
  }

  // ---------------------------------------------------------------- stored tables

  datatype Fingerprint = Fingerprint(
    libraryId: int, mtimeNs: int, size: int, role: string,
    derivativeVersion: int, algorithmVersion: int,
    horizontal: Hash, vertical: Hash, colorGrid: seq<nat>)
  {
    function HashOf(kind: Kind): Hash {
      if kind.Horizontal? then horizontal else vertical
    }
  }

  /** Primary key and payload of a row of asset_visual_hash_bands. */
  datatype BandKey = BandKey(asset: int, kind: Kind, band: nat)
  datatype BandRow = BandRow(libraryId: int, value: nat)

  datatype Tables = Tables(fingerprints: map<int, Fingerprint>, bands: map<BandKey, BandRow>)

  /** The active image row of the catalog an invalidation looks at. */
  datatype ActiveAsset = ActiveAsset(libraryId: int, mtimeNs: int, size: int)

  datatype Op =
    | Persist(asset: int, payload: Option<Fingerprint>)
    | DerivativeReady(asset: int, active: Option<ActiveAsset>, derivativeVersion: int, algorithmVersion: int)

  function WithoutAsset(t: Tables, asset: int): Tables {
    Tables(t.fingerprints - {asset}, map key | key in t.bands && key.asset != asset :: t.bands[key])
  }

  function InsertBands(
    bands: map<BandKey, BandRow>, asset: int, libraryId: int, kind: Kind, values: seq<nat>): map<BandKey, BandRow>
  {
    if values == [] then bands
    else
      var n := |values| - 1;
      InsertBands(bands, asset, libraryId, kind, values[..n])[BandKey(asset, kind, n) := BandRow(libraryId, values[n])]
  }

  function Insert(t: Tables, asset: int, fp: Fingerprint): Tables {
    Tables(t.fingerprints[asset := fp],
           InsertBands(
             InsertBands(t.bands, asset, fp.libraryId, Horizontal, Bands(fp.horizontal)),
             asset, fp.libraryId, Vertical, Bands(fp.vertical)))
  }

  predicate IsCurrent(t: Tables, asset: int, active: ActiveAsset, derivativeVersion: int, algorithmVersion: int) {
    asset in t.fingerprints &&
    var fp := t.fingerprints[asset];
    fp.mtimeNs == active.mtimeNs && fp.size == active.size &&
    fp.derivativeVersion == derivativeVersion && fp.algorithmVersion == algorithmVersion
  }

  function Apply(t: Tables, op: Op): Tables {
    match op
    case Persist(asset, None) => WithoutAsset(t, asset)
    case Persist(asset, Some(fp)) => Insert(WithoutAsset(t, asset), asset, fp)
    case DerivativeReady(asset, None, _, _) => t
    case DerivativeReady(asset, Some(active), dv, av) =>
      if IsCurrent(t, asset, active, dv, av) then t else WithoutAsset(t, asset)
  }

  function Run(t: Tables, ops: seq<Op>): Tables
    decreases |ops|
  {
    if ops == [] then t else Run(Apply(t, ops[0]), ops[1..])
  }

  /** The band table holds exactly the eight bands of every stored fingerprint. */
  ghost predicate Projected(t: Tables) {
    && (forall key :: key in t.bands <==> key.asset in t.fingerprints && key.band < 4)
    && (forall key :: key in t.bands ==>
          var fp := t.fingerprints[key.asset];
          t.bands[key] == BandRow(fp.libraryId, Band(fp.HashOf(key.kind), key.band)))
  }

  lemma {:induction false} InsertBandsMeaning(
    bands: map<BandKey, BandRow>, asset: int, libraryId: int, kind: Kind, values: seq<nat>)
    ensures var r := InsertBands(bands, asset, libraryId, kind, values);
      && (forall key :: key in r <==> key in bands || (key.asset == asset && key.kind == kind && key.band < |values|))
      && (forall key :: key in r ==>
            r[key] == (if key.asset == asset && key.kind == kind && key.band < |values|
                       then BandRow(libraryId, values[key.band]) else bands[key]))
  {
    if values != [] {
      InsertBandsMeaning(bands, asset, libraryId, kind, values[..|values| - 1]);
    }
  }

  lemma WithoutAssetKeepsProjection(t: Tables, asset: int)
    requires Projected(t)
    ensures Projected(WithoutAsset(t, asset))
  {
  }

  /** The band row that fingerprint fp has at a key of its asset. */
  function BandRowOf(fp: Fingerprint, key: BandKey): BandRow
    requires key.band < 4
  {
    var hash := if key.kind.Horizontal? then fp.horizontal else fp.vertical;
    BandRow(fp.libraryId, LowBits(ShiftRight(hash, 48 - 16 * key.band), 16))
  }

  /** after has fp and its eight band rows for the asset, or nothing when fp is missing, and is otherwise before. */
  ghost predicate Replaces(before: Tables, asset: int, fp: Option<Fingerprint>, after: Tables) {
    && after.fingerprints ==
         (if fp.Some? then before.fingerprints[asset := fp.value] else before.fingerprints - {asset})
    && (forall key: BandKey :: key.asset == asset ==> (key in after.bands <==> fp.Some? && key.band < 4))
    && (forall key: BandKey :: key.asset == asset && key in after.bands ==>
          after.bands[key] == BandRowOf(fp.value, key))
    && (forall key: BandKey :: key.asset != asset ==> (key in after.bands <==> key in before.bands))
    && (forall key: BandKey :: key.asset != asset && key in after.bands ==> after.bands[key] == before.bands[key])
  }

  lemma PersistReplaces(t: Tables, asset: int, payload: Option<Fingerprint>)
    ensures Replaces(t, asset, payload, Apply(t, Persist(asset, payload)))
    ensures Replaces(t, asset, None, WithoutAsset(t, asset))
  {
    if payload.Some? {
      var u, fp := WithoutAsset(t, asset), payload.value;
      assert u.fingerprints[asset := fp] == t.fingerprints[asset := fp];
      hide Insert, InsertBands, Band;
      forall key: BandKey
        ensures var bands := Insert(u, asset, fp).bands;
          if key.asset == asset
          then
            && (key in bands <==> key.band < 4)
            && (key.band < 4 ==> bands[key] == BandRow(fp.libraryId, Band(fp.HashOf(key.kind), key.band)))
          else (key in bands <==> key in u.bands) && (key in bands ==> bands[key] == u.bands[key])
      {
        InsertedRow(u, asset, fp, key);
      }
      InsertedFingerprint(u, asset, fp);
      BandRows(fp);
    }
  }

  lemma InsertedFingerprint(t: Tables, asset: int, fp: Fingerprint)
    ensures Insert(t, asset, fp).fingerprints == t.fingerprints[asset := fp]
  {
  }

  lemma BandRows(fp: Fingerprint)
    ensures forall key: BandKey :: key.band < 4 ==>
              BandRowOf(fp, key) == BandRow(fp.libraryId, Band(fp.HashOf(key.kind), key.band))
  {
  }

  /** The step removes the fingerprint fp of the asset, or replaces it. */
  predicate Touches(op: Op, asset: int, fp: Fingerprint) {
    match op
    case Persist(a, _) => a == asset
    case DerivativeReady(a, active, derivativeVersion, algorithmVersion) =>
      && a == asset && active.Some?
      && (fp.mtimeNs, fp.size, fp.derivativeVersion, fp.algorithmVersion)
         != (active.value.mtimeNs, active.value.size, derivativeVersion, algorithmVersion)
  }

  /** fp was persisted for the asset by step i, and no later step touched it. */
  ghost predicate LastPersisted(ops: seq<Op>, i: int, asset: int, fp: Fingerprint) {
    0 <= i < |ops| && ops[i] == Persist(asset, Some(fp)) && forall j :: i < j < |ops| ==> !Touches(ops[j], asset, fp)
  }

  lemma StepKeepsUntouched(t: Tables, op: Op, asset: int, fp: Fingerprint)
    ensures asset in Apply(t, op).fingerprints && Apply(t, op).fingerprints[asset] == fp <==>
              || op == Persist(asset, Some(fp))
              || (asset in t.fingerprints && t.fingerprints[asset] == fp && !Touches(op, asset, fp))
  {
    if op.Persist? {
      PersistReplaces(t, op.asset, op.payload);
    } else {
      PersistReplaces(t, op.asset, None);
    }
    hide Insert, BandRowOf;
  }

  lemma {:induction false} RunLast(t: Tables, ops: seq<Op>, op: Op)
    ensures Run(t, ops + [op]) == Apply(Run(t, ops), op)
    decreases |ops|
  {
    if ops == [] {
      assert [] + [op] == [op] && [op][1..] == [];
    } else {
      assert (ops + [op])[1..] == ops[1..] + [op] && (ops + [op])[0] == ops[0];
      RunLast(Apply(t, ops[0]), ops[1..], op);
    }
  }

  /** Over every run a fingerprint is stored for an asset iff it was the last one persisted and nothing touched it. */
  lemma {:induction false} StoredIsLastPersisted(ops: seq<Op>, asset: int, fp: Fingerprint)
    ensures var t := Run(Tables(map[], map[]), ops);
      asset in t.fingerprints && t.fingerprints[asset] == fp <==> exists i :: LastPersisted(ops, i, asset, fp)
  {
    var start := Tables(map[], map[]);
    if ops != [] {
      var front, last := ops[..|ops| - 1], ops[|ops| - 1];
      assert ops == front + [last];
      RunLast(start, front, last);
      StoredIsLastPersisted(front, asset, fp);
      StepKeepsUntouched(Run(start, front), last, asset, fp);
      hide Run, Apply, Touches;
      LastPersistedStep(front, last, asset, fp);
    }
  }

  lemma LastPersistedStep(front: seq<Op>, last: Op, asset: int, fp: Fingerprint)
    ensures (exists i :: LastPersisted(front + [last], i, asset, fp)) <==>
            || last == Persist(asset, Some(fp))
            || ((exists i :: LastPersisted(front, i, asset, fp)) && !Touches(last, asset, fp))
  {
    var ops := front + [last];
    hide Touches;
    if i :| LastPersisted(ops, i, asset, fp) {
      assert ops[|front|] == last;
      if i < |front| {
        assert forall j :: i < j < |front| ==> front[j] == ops[j];
        assert LastPersisted(front, i, asset, fp);
      }
    }
    if last == Persist(asset, Some(fp)) {
      assert LastPersisted(ops, |front|, asset, fp);
    } else if i :| LastPersisted(front, i, asset, fp) {
      assert !Touches(last, asset, fp) ==> LastPersisted(ops, i, asset, fp);
    }
  }

  lemma InsertKeepsProjection(t: Tables, asset: int, fp: Fingerprint)
    requires Projected(t) && asset !in t.fingerprints
    ensures Projected(Insert(t, asset, fp))
  {
    var r := Insert(t, asset, fp);
    forall key
      ensures key in r.bands <==> key.asset in r.fingerprints && key.band < 4
      ensures key in r.bands ==>
                r.bands[key] == BandRow(r.fingerprints[key.asset].libraryId,
                                        Band(r.fingerprints[key.asset].HashOf(key.kind), key.band))
    {
      InsertedRow(t, asset, fp, key);
    }
  }

  lemma InsertedRow(t: Tables, asset: int, fp: Fingerprint, key: BandKey)
    requires forall k :: k in t.bands ==> k.asset != asset
    ensures var bands := Insert(t, asset, fp).bands;
      if key.asset == asset
      then
        && (key in bands <==> key.band < 4)
        && (key.band < 4 ==> bands[key] == BandRow(fp.libraryId, Band(fp.HashOf(key.kind), key.band)))
      else (key in bands <==> key in t.bands) && (key in t.bands ==> bands[key] == t.bands[key])
  {
    var hs, vs := Bands(fp.horizontal), Bands(fp.vertical);
    InsertBandsMeaning(t.bands, asset, fp.libraryId, Horizontal, hs);
    InsertBandsMeaning(InsertBands(t.bands, asset, fp.libraryId, Horizontal, hs), asset, fp.libraryId, Vertical, vs);
  }

  lemma ApplyKeepsProjection(t: Tables, op: Op)
    requires Projected(t)
    ensures Projected(Apply(t, op))
  {
    WithoutAssetKeepsProjection(t, op.asset);
    if op.Persist? && op.payload.Some? {
      InsertKeepsProjection(WithoutAsset(t, op.asset), op.asset, op.payload.value);
    }
  }

  /** Every run of persist and invalidate steps keeps the band table the projection of the fingerprints. */
  lemma {:induction false} RunKeepsProjection(t: Tables, ops: seq<Op>)
    requires Projected(t)
    ensures Projected(Run(t, ops))
    decreases |ops|
  {
    if ops != [] {
      ApplyKeepsProjection(t, ops[0]);
      RunKeepsProjection(Apply(t, ops[0]), ops[1..]);
    }
  }

  /** The two tables as the writer mutates them, and the extraction rows of the visual index. */
  class FingerprintStore {
    var fingerprints: map<int, Fingerprint>
    var bands: map<BandKey, BandRow>
    var extractions: SearchIndexer.Extractions

    ghost function State(): Tables
      reads `fingerprints, `bands
    {
      Tables(fingerprints, bands)
    }

    constructor ()
      ensures State() == Tables(map[], map[]) && Projected(State()) && extractions == map[]
    {
      fingerprints, bands, extractions := map[], map[], map[];
    }

    method DeleteAsset(asset: int)
      modifies `fingerprints, `bands
      ensures State() == WithoutAsset(old(State()), asset)
      ensures Replaces(old(State()), asset, None, State())
    {
      fingerprints := fingerprints - {asset};
      bands := map key | key in bands && key.asset != asset :: bands[key];
    }

    method InsertHash(asset: int, libraryId: int, kind: Kind, value: Hash)
      modifies `bands
      ensures bands == InsertBands(old(bands), asset, libraryId, kind, Bands(value))
    {
      var values := Bands(value);
      ghost var before := bands;
      for n := 0 to |values|
        invariant bands == InsertBands(before, asset, libraryId, kind, values[..n])
      {
        bands := bands[BandKey(asset, kind, n) := BandRow(libraryId, values[n])];
        assert values[..n + 1][..n] == values[..n];
      }
      assert values[..|values|] == values;
    }

    method PersistFingerprint(asset: int, payload: Option<Fingerprint>)
      modifies `fingerprints, `bands
      ensures State() == Apply(old(State()), Persist(asset, payload))
      ensures Replaces(old(State()), asset, payload, State())
      ensures old(Projected(State())) ==> Projected(State())
    {
      ghost var before := State();
      PersistReplaces(before, asset, payload);
      DeleteAsset(asset);
      if payload.Some? {
        var fp := payload.value;
        fingerprints := fingerprints[asset := fp];
        InsertHash(asset, fp.libraryId, Horizontal, fp.horizontal);
        InsertHash(asset, fp.libraryId, Vertical, fp.vertical);
      }
      if Projected(before) {
        ApplyKeepsProjection(before, Persist(asset, payload));
      }
    }

    /**
     * Returns the library whose backfill has to be scheduled, if the stored hash was out of date. Then fingerprint,
     * bands and extraction row of the asset are gone, so the backfill's missing-only listing wants it again.
     */
    method NotifyDerivativeReady(asset: int, active: Option<ActiveAsset>, derivativeVersion: int, algorithmVersion: int)
      returns (library: Option<int>)
      modifies this
      ensures State() == Apply(old(State()), DerivativeReady(asset, active, derivativeVersion, algorithmVersion))
      ensures old(Projected(State())) ==> Projected(State())
      ensures library.Some? <==>
                active.Some? && !(asset in old(fingerprints) && old(fingerprints)[asset].mtimeNs == active.value.mtimeNs
                  && old(fingerprints)[asset].size == active.value.size
                  && old(fingerprints)[asset].derivativeVersion == derivativeVersion
                  && old(fingerprints)[asset].algorithmVersion == algorithmVersion)
      ensures if library.Some? then Replaces(old(State()), asset, None, State()) else State() == old(State())
      ensures extractions == old(extractions) - if library.Some? then {asset} else {}
      ensures library.Some? ==> library.value == active.value.libraryId && asset !in fingerprints
      ensures library.Some? ==> SearchIndexer.Wanted(extractions, true, asset)
    {
      ghost var before := State();
      if active.None? {
        return None;
      }
      if asset in fingerprints {
        var fp := fingerprints[asset];
        if fp.mtimeNs == active.value.mtimeNs && fp.size == active.value.size
           && fp.derivativeVersion == derivativeVersion && fp.algorithmVersion == algorithmVersion {
          return None;
        }
      }
      DeleteAsset(asset);
      extractions := extractions - {asset};
      library := Some(active.value.libraryId);
      if Projected(before) {
        ApplyKeepsProjection(before, DerivativeReady(asset, active, derivativeVersion, algorithmVersion));
      }
    }
  }

  // ---------------------------------------------------------------- multi-probe lookup

  datatype Probe = Probe(kind: Kind, band: nat, value: nat, distance: nat)

  function Flips(kind: Kind, k: nat, value: nat, n: nat): seq<Probe> {
    if n == 0 then [] else Flips(kind, k, value, n - 1) + [Probe(kind, k, Xor(value, Pow2(n - 1)), 1)]
  }

  function BandProbes(kind: Kind, k: nat, value: nat): seq<Probe> {
    [Probe(kind, k, value, 0)] + Flips(kind, k, value, 16)
  }

  function HashProbes(kind: Kind, value: nat, n: nat): seq<Probe>
    requires n <= 4
  {
    if n == 0 then [] else HashProbes(kind, value, n - 1) + BandProbes(kind, n - 1, Band(value, n - 1))
  }

  function Probes(reference: Fingerprint): seq<Probe> {
    HashProbes(Horizontal, reference.horizontal, 4) + HashProbes(Vertical, reference.vertical, 4)
  }

  method ProbeValues(kind: Kind, value: nat) returns (probes: seq<Probe>)
    ensures probes == HashProbes(kind, value, 4)
  {
    probes := [];
    for k := 0 to 4
      invariant probes == HashProbes(kind, value, k)
    {
      var band := ProbeBand(kind, k, Bands(value)[k]);
      assert Bands(value)[k] == Band(value, k);
      probes := probes + band;
    }
  }

  method ProbeBand(kind: Kind, k: nat, value: nat) returns (probes: seq<Probe>)
    ensures probes == BandProbes(kind, k, value)
  {
    probes := [Probe(kind, k, value, 0)];
    for bit := 0 to 16
      invariant probes == [Probe(kind, k, value, 0)] + Flips(kind, k, value, bit)
    {
      probes := probes + [Probe(kind, k, Xor(value, Pow2(bit)), 1)];
    }
  }

  lemma {:induction false} FlipsAt(kind: Kind, k: nat, value: nat, n: nat, i: nat)
    requires i < n
    ensures |Flips(kind, k, value, n)| == n
    ensures Flips(kind, k, value, n)[i] == Probe(kind, k, Xor(value, Pow2(i)), 1)
  {
    if n > 1 {
      FlipsAt(kind, k, value, n - 1, if i < n - 1 then i else 0);
    }
  }

  lemma FlipIsFar(value: nat, i: nat)
    ensures Distance(value, Xor(value, Pow2(i))) == 1
  {
    XorInvolution(value, Pow2(i));
    BitCountPow2(i);
  }

  lemma ProbeAt(kind: Kind, k: nat, value: nat, i: nat)
    requires i < 17
    ensures |BandProbes(kind, k, value)| == 17
    ensures BandProbes(kind, k, value)[i]
         == if i == 0 then Probe(kind, k, value, 0) else Probe(kind, k, Xor(value, Pow2(i - 1)), 1)
    ensures BandProbes(kind, k, value)[i].distance == Distance(value, BandProbes(kind, k, value)[i].value) <= 1
  {
    FlipsAt(kind, k, value, 16, if i == 0 then 0 else i - 1);
    if i == 0 {
      DistanceZero(value, value);
    } else {
      FlipIsFar(value, i - 1);
    }
  }

  /** The seventeen probe values of a band are pairwise distinct. */
  lemma ProbesDistinct(kind: Kind, k: nat, value: nat, i: nat, j: nat)
    requires i < j < 17
    ensures |BandProbes(kind, k, value)| == 17
    ensures BandProbes(kind, k, value)[i].value != BandProbes(kind, k, value)[j].value
  {
    ProbeAt(kind, k, value, i);
    ProbeAt(kind, k, value, j);
    if i > 0 {
      Pow2Strict(i - 1, j - 1);
      XorInvolution(value, Pow2(i - 1));
      XorInvolution(value, Pow2(j - 1));
    }
  }

  /** A 16-bit value is probed iff it lies within distance one of the band. */
  lemma ProbesCover(kind: Kind, k: nat, value: nat, w: nat)
    requires value < 0x1_0000 && w < 0x1_0000
    ensures |BandProbes(kind, k, value)| == 17
    ensures (exists i :: 0 <= i < 17 && BandProbes(kind, k, value)[i].value == w) <==> Distance(value, w) <= 1
  {
    var ps := BandProbes(kind, k, value);
    ProbeAt(kind, k, value, 0);
    DistanceZero(value, w);
    if Distance(value, w) == 0 {
      assert ps[0].value == w;
    } else if Distance(value, w) == 1 {
      Pow2Of16();
      var b := FlippedBit(value, w, 16);
      ProbeAt(kind, k, value, b + 1);
      assert ps[b + 1].value == w;
    } else {
      forall i | 0 <= i < 17
        ensures ps[i].value != w
      {
        ProbeAt(kind, k, value, i);
      }
    }
  }

  /** JOIN condition of a probe with the band rows of one asset (scope: the library filter, if any). */
  predicate Matches(p: Probe, t: Tables, scope: Option<int>, asset: int) {
    var key := BandKey(asset, p.kind, p.band);
    key in t.bands && t.bands[key].value == p.value && (scope.Some? ==> t.bands[key].libraryId == scope.value)
  }

  /** count(*) of the join for one asset. */
  function BandHits(probes: seq<Probe>, t: Tables, scope: Option<int>, asset: int): nat {
    if probes == [] then 0
    else
      var last := if Matches(probes[|probes| - 1], t, scope, asset) then 1 else 0;
      BandHits(probes[..|probes| - 1], t, scope, asset) + last
  }

  /** min(probe_distance) of the join for one asset. */
  function ProbeDistance(probes: seq<Probe>, t: Tables, scope: Option<int>, asset: int): Option<nat> {
    if probes == [] then None
    else
      var best := ProbeDistance(probes[..|probes| - 1], t, scope, asset);
      var p := probes[|probes| - 1];
      if !Matches(p, t, scope, asset) then best
      else if best.Some? && best.value <= p.distance then best else Some(p.distance)
  }

  lemma {:induction false} HitsConcat(a: seq<Probe>, b: seq<Probe>, t: Tables, scope: Option<int>, asset: int)
    ensures BandHits(a + b, t, scope, asset) == BandHits(a, t, scope, asset) + BandHits(b, t, scope, asset)
  {
    if b == [] {
      assert a + b == a;
    } else {
      assert (a + b)[..|a + b| - 1] == a + b[..|b| - 1];
      HitsConcat(a, b[..|b| - 1], t, scope, asset);
    }
  }

  /** With at most one matching probe the count is that probe's indicator. */
  lemma {:induction false} HitsOfOne(ps: seq<Probe>, t: Tables, scope: Option<int>, asset: int)
    requires forall i, j :: 0 <= i < j < |ps| ==> !(Matches(ps[i], t, scope, asset) && Matches(ps[j], t, scope, asset))
    ensures BandHits(ps, t, scope, asset) ==
            if exists i :: 0 <= i < |ps| && Matches(ps[i], t, scope, asset) then 1 else 0
  {
    if ps != [] {
      var rest := ps[..|ps| - 1];
      HitsOfOne(rest, t, scope, asset);
      if exists i :: 0 <= i < |rest| && Matches(rest[i], t, scope, asset) {
        var i :| 0 <= i < |rest| && Matches(rest[i], t, scope, asset);
        assert Matches(ps[i], t, scope, asset);
      }
    }
  }

  predicate InScope(scope: Option<int>, c: Fingerprint) {
    scope.Some? ==> c.libraryId == scope.value
  }

  function Near(v: nat, w: nat, k: nat): nat
    requires k < 4
  {
    if BandDistance(v, w, k) <= 1 then 1 else 0
  }

  function NearBandsOf(v: nat, w: nat): nat {
    Near(v, w, 0) + Near(v, w, 1) + Near(v, w, 2) + Near(v, w, 3)
  }

  /** How many of the eight bands of two fingerprints lie within distance one. */
  function NearBands(r: Fingerprint, c: Fingerprint): nat {
    NearBandsOf(r.horizontal, c.horizontal) + NearBandsOf(r.vertical, c.vertical)
  }

  lemma BandHitsOfBand(kind: Kind, k: nat, value: nat, t: Tables, scope: Option<int>, asset: int)
    requires k < 4
    requires Projected(t) && asset in t.fingerprints && InScope(scope, t.fingerprints[asset])
    ensures BandHits(BandProbes(kind, k, Band(value, k)), t, scope, asset)
         == Near(value, t.fingerprints[asset].HashOf(kind), k)
  {
    var v, c := Band(value, k), Band(t.fingerprints[asset].HashOf(kind), k);
    BandBound(value, k);
    BandBound(t.fingerprints[asset].HashOf(kind), k);
    var ps := BandProbes(kind, k, v);
    ProbeAt(kind, k, v, 0);
    assert BandKey(asset, kind, k) in t.bands;
    forall i | 0 <= i < 17
      ensures Matches(ps[i], t, scope, asset) <==> ps[i].value == c
    {
      ProbeAt(kind, k, v, i);
    }
    forall i, j | 0 <= i < j < 17
      ensures !(Matches(ps[i], t, scope, asset) && Matches(ps[j], t, scope, asset))
    {
      ProbesDistinct(kind, k, v, i, j);
    }
    HitsOfOne(ps, t, scope, asset);
    ProbesCover(kind, k, v, c);
  }

  lemma HashHits(kind: Kind, value: Hash, t: Tables, scope: Option<int>, asset: int)
    requires Projected(t) && asset in t.fingerprints && InScope(scope, t.fingerprints[asset])
    ensures BandHits(HashProbes(kind, value, 4), t, scope, asset)
         == NearBandsOf(value, t.fingerprints[asset].HashOf(kind))
  {
    HashHitsStep(kind, value, 1, t, scope, asset);
    HashHitsStep(kind, value, 2, t, scope, asset);
    HashHitsStep(kind, value, 3, t, scope, asset);
    HashHitsStep(kind, value, 4, t, scope, asset);
  }

  lemma HashHitsStep(kind: Kind, value: Hash, n: nat, t: Tables, scope: Option<int>, asset: int)
    requires 1 <= n <= 4
    requires Projected(t) && asset in t.fingerprints && InScope(scope, t.fingerprints[asset])
    ensures BandHits(HashProbes(kind, value, n), t, scope, asset)
         == BandHits(HashProbes(kind, value, n - 1), t, scope, asset)
             + Near(value, t.fingerprints[asset].HashOf(kind), n - 1)
  {
    var k := n - 1;
    BandHitsOfBand(kind, k, value, t, scope, asset);
    HitsConcat(HashProbes(kind, value, k), BandProbes(kind, k, Band(value, k)), t, scope, asset);
  }

  /** band_hits counts exactly the bands within distance one. */
  lemma BandHitsExact(t: Tables, r: Fingerprint, scope: Option<int>, asset: int)
    requires Projected(t) && asset in t.fingerprints && InScope(scope, t.fingerprints[asset])
    ensures BandHits(Probes(r), t, scope, asset) == NearBands(r, t.fingerprints[asset])
  {
    HitsConcat(HashProbes(Horizontal, r.horizontal, 4), HashProbes(Vertical, r.vertical, 4), t, scope, asset);
    HashHits(Horizontal, r.horizontal, t, scope, asset);
    HashHits(Vertical, r.vertical, t, scope, asset);
  }

  lemma {:induction false} ProbeDistanceMeaning(probes: seq<Probe>, t: Tables, scope: Option<int>, asset: int)
    ensures var d := ProbeDistance(probes, t, scope, asset);
      && (forall p :: p in probes && Matches(p, t, scope, asset) ==> d.Some? && d.value <= p.distance)
      && (d.Some? ==> exists p :: p in probes && Matches(p, t, scope, asset) && p.distance == d.value)
  {
    if probes != [] {
      var rest, last := probes[..|probes| - 1], probes[|probes| - 1];
      assert probes == rest + [last];
      ProbeDistanceMeaning(rest, t, scope, asset);
    }
  }

  lemma {:induction false} ExactProbes(kind: Kind, value: nat, n: nat, p: Probe)
    requires n <= 4
    ensures p.distance == 0 ==>
              (p in HashProbes(kind, value, n) <==> p.kind == kind && p.band < n && p.value == Band(value, p.band))
    ensures p in HashProbes(kind, value, n) ==> p.distance <= 1
  {
    if n > 0 {
      ExactProbes(kind, value, n - 1, p);
      var band := BandProbes(kind, n - 1, Band(value, n - 1));
      ProbeAt(kind, n - 1, Band(value, n - 1), 0);
      assert band[0] in band;
      if p in band {
        var i :| 0 <= i < |band| && band[i] == p;
        ProbeAt(kind, n - 1, Band(value, n - 1), i);
      }
    }
  }

  ghost predicate SharesBand(r: Fingerprint, c: Fingerprint) {
    exists kind: Kind, k: nat :: k < 4 && Band(r.HashOf(kind), k) == Band(c.HashOf(kind), k)
  }

  /** probe_distance is 0 iff the two fingerprints share a whole band. */
  lemma ProbeDistanceZero(t: Tables, r: Fingerprint, scope: Option<int>, asset: int)
    requires Projected(t) && asset in t.fingerprints && InScope(scope, t.fingerprints[asset])
    ensures ProbeDistance(Probes(r), t, scope, asset) == Some(0) <==> SharesBand(r, t.fingerprints[asset])
  {
    var c := t.fingerprints[asset];
    var probes := Probes(r);
    ProbeDistanceMeaning(probes, t, scope, asset);
    if kind: Kind, k: nat :| k < 4 && Band(r.HashOf(kind), k) == Band(c.HashOf(kind), k) {
      var p := Probe(kind, k, Band(r.HashOf(kind), k), 0);
      ExactProbes(kind, r.HashOf(kind), 4, p);
      assert BandKey(asset, kind, k) in t.bands;
      assert p in probes && Matches(p, t, scope, asset);
    }
    if ProbeDistance(probes, t, scope, asset) == Some(0) {
      var p :| p in probes && Matches(p, t, scope, asset) && p.distance == 0;
      ExactProbes(Horizontal, r.horizontal, 4, p);
      ExactProbes(Vertical, r.vertical, 4, p);
      assert BandKey(asset, p.kind, p.band) in t.bands;
      assert Band(r.HashOf(p.kind), p.band) == Band(c.HashOf(p.kind), p.band);
    }
  }

  // ---------------------------------------------------------------- completeness and its limit

  function CombinedDistance(r: Fingerprint, c: Fingerprint): nat {
    Distance(r.horizontal, c.horizontal) + Distance(r.vertical, c.vertical)
  }

  /** The shape of every accepted pair the index cannot see: each of the eight bands differs in two bits. */
  predicate TwoBitsInEveryBand(r: Fingerprint, c: Fingerprint) {
    TwoBits(r.horizontal, c.horizontal) && TwoBits(r.vertical, c.vertical)
  }

  predicate TwoBits(v: nat, w: nat) {
    BandDistance(v, w, 0) == BandDistance(v, w, 1) == BandDistance(v, w, 2) == BandDistance(v, w, 3) == 2
  }

  /** Pigeonhole over eight bands, with the exact limit at the accepted distance 16. */
  lemma MissedExactly(r: Fingerprint, c: Fingerprint)
    requires CombinedDistance(r, c) <= MAX_DISTANCE
    ensures NearBands(r, c) == 0 <==> TwoBitsInEveryBand(r, c)
    ensures TwoBitsInEveryBand(r, c) ==> CombinedDistance(r, c) == MAX_DISTANCE
  {
    DistanceByBand(r.horizontal, c.horizontal);
    DistanceByBand(r.vertical, c.vertical);
    hide BandDistance, Distance;
  }

  /** Up to combined distance 15 the lookup misses nothing. */
  lemma CompleteToFifteen(t: Tables, r: Fingerprint, scope: Option<int>, asset: int)
    requires Projected(t) && asset in t.fingerprints && InScope(scope, t.fingerprints[asset])
    requires CombinedDistance(r, t.fingerprints[asset]) <= 15
    ensures BandHits(Probes(r), t, scope, asset) > 0
  {
    MissedExactly(r, t.fingerprints[asset]);
    BandHitsExact(t, r, scope, asset);
  }

  const TWO_LOW_BITS: nat := 0x0003_0003_0003_0003

  function FarTwinHash(v: Hash): (w: Hash) {
    Pow2Of64();
    XorBound(v, TWO_LOW_BITS, 64);
    Xor(v, TWO_LOW_BITS)
  }

  function FarTwin(r: Fingerprint): Fingerprint {
    r.(horizontal := FarTwinHash(r.horizontal), vertical := FarTwinHash(r.vertical))
  }

  lemma FarTwinBand(v: Hash, k: nat)
    requires k < 4
    ensures BandDistance(v, FarTwinHash(v), k) == 2
  {
    XorBand(v, TWO_LOW_BITS, k);
    MaskBand(k);
    hide Band;
    TwoFlipped(Band(v, k));
  }

  lemma XorBand(v: nat, m: nat, k: nat)
    requires k < 4
    ensures Band(Xor(v, m), k) == Xor(Band(v, k), Band(m, k))
  {
    hide Xor, ShiftRight, LowBits;
    var n := 48 - 16 * k;
    XorShift(v, m, n);
    XorLowBits(ShiftRight(v, n), ShiftRight(m, n), 16);
  }

  lemma TwoFlipped(x: nat)
    ensures Distance(x, Xor(x, 3)) == 2
  {
    XorInvolution(x, 3);
    hide Xor;
    assert BitCount(3) == 2;
  }

  lemma SplitAt16(x: nat, high: nat, low: nat)
    requires x == high * 65536 + low && low < 65536
    ensures ShiftRight(x, 16) == high && LowBits(x, 16) == low
  {
    Pow2Of16();
    ShiftAndMask(x, 16);
  }

  lemma MaskBand(k: nat)
    requires k < 4
    ensures Band(TWO_LOW_BITS, k) == 3
  {
    MaskShift(TWO_LOW_BITS, 48 - 16 * k);
  }

  lemma MaskShift(m: nat, n: nat)
    requires m == TWO_LOW_BITS && n in {0, 16, 32, 48}
    ensures LowBits(ShiftRight(m, n), 16) == 3
  {
    SplitAt16(m, 0x0003_0003_0003, 3);
    if n > 0 {
      MaskTail(ShiftRight(m, 16), n - 16);
      ShiftCompose(m, 16, n - 16);
    }
  }

  lemma MaskTail(m: nat, n: nat)
    requires m == 0x0003_0003_0003 && n in {0, 16, 32}
    ensures LowBits(ShiftRight(m, n), 16) == 3
  {
    SplitAt16(m, 0x0003_0003, 3);
    if n > 0 {
      var m' := ShiftRight(m, 16);
      ShiftCompose(m, 16, n - 16);
      SplitAt16(m', 3, 3);
      if n == 32 {
        SplitAt16(ShiftRight(m', 16), 0, 3);
      }
    }
  }

  /** The threshold is sharp: every fingerprint has an accepted neighbour at distance 16 that no probe finds. */
  lemma MissedAtSixteen(t: Tables, r: Fingerprint, scope: Option<int>, asset: int)
    requires Projected(t) && asset in t.fingerprints && t.fingerprints[asset] == FarTwin(r)
             && InScope(scope, FarTwin(r))
    ensures CombinedDistance(r, FarTwin(r)) == MAX_DISTANCE
    ensures BandHits(Probes(r), t, scope, asset) == 0
  {
    var c := FarTwin(r);
    forall k: nat | k < 4
      ensures BandDistance(r.horizontal, c.horizontal, k) == 2 && BandDistance(r.vertical, c.vertical, k) == 2
    {
      FarTwinBand(r.horizontal, k);
      FarTwinBand(r.vertical, k);
    }
    DistanceByBand(r.horizontal, c.horizontal);
    DistanceByBand(r.vertical, c.vertical);
    BandHitsExact(t, r, scope, asset);
  }

  // ---------------------------------------------------------------- the query against a linear scan

  function AbsDiff(a: nat, b: nat): nat {
    if a < b then b - a else a - b
  }

  function ChannelSum(left: seq<nat>, right: seq<nat>): nat
    requires |left| == |right|
  {
    if left == [] then 0 else AbsDiff(left[0], right[0]) + ChannelSum(left[1..], right[1..])
  }

  /** Mean absolute channel difference of the two 4x4 colour grids. */
  function ColorDistance(left: seq<nat>, right: seq<nat>): real
    requires |left| == |right| > 0
  {
    ChannelSum(left, right) as real / |left| as real
  }

  /** The filter of query_visual_variants; aspect is the log-ratio distance of the image shapes. */
  predicate Accepts(r: Fingerprint, c: Fingerprint, aspect: real)
    requires |r.colorGrid| == |c.colorGrid| > 0
  {
    var distance := CombinedDistance(r, c);
    && distance <= MAX_DISTANCE
    && !(distance > 4 && (ColorDistance(r.colorGrid, c.colorGrid) > MAX_COLOR_DISTANCE || aspect > MAX_ASPECT_DISTANCE))
  }

  /** What a request compares: the reference, the library filter, the eligible assets and their shapes. */
  datatype Request = Request(
    self: int, reference: Fingerprint, scope: Option<int>, eligible: set<int>, aspect: map<int, real>)

  ghost predicate Comparable(t: Tables, q: Request) {
    && q.eligible <= t.fingerprints.Keys && q.eligible <= q.aspect.Keys
    && forall a :: a in q.eligible ==> |t.fingerprints[a].colorGrid| == |q.reference.colorGrid| > 0
  }

  ghost predicate Accepted(t: Tables, q: Request, a: int)
    requires Comparable(t, q)
  {
    a in q.eligible && a != q.self && Accepts(q.reference, t.fingerprints[a], q.aspect[a])
  }

  ghost function LinearScan(t: Tables, q: Request): set<int>
    requires Comparable(t, q)
  {
    set a | a in q.eligible && Accepted(t, q, a) && InScope(q.scope, t.fingerprints[a])
  }

  /** The assets of the join: at least one band row meets a probe. */
  ghost function Hits(t: Tables, q: Request): set<int> {
    set a | a in q.eligible && a != q.self && BandHits(Probes(q.reference), t, q.scope, a) > 0
  }

  /** ORDER BY probe_distance, band_hits DESC, asset_id */
  predicate Precedes(t: Tables, q: Request, a: int, b: int) {
    var probes := Probes(q.reference);
    var (da, db) := (ProbeDistance(probes, t, q.scope, a).GetOr(0), ProbeDistance(probes, t, q.scope, b).GetOr(0));
    var (ha, hb) := (BandHits(probes, t, q.scope, a), BandHits(probes, t, q.scope, b));
    if da != db then da < db else if ha != hb then ha > hb else a < b
  }

  function CandidateOrder(t: Tables, q: Request): (int, int) -> bool {
    (a, b) => Precedes(t, q, a, b)
  }

  /** The groups of the join in any order, each once. */
  ghost predicate Lists(listing: seq<int>, t: Tables, q: Request) {
    Distinct(listing) && forall a :: a in listing <==> a in Hits(t, q)
  }

  /** The candidate rows: sorted, then cut. */
  function CandidateRows(listing: seq<int>, t: Tables, q: Request): seq<int> {
    var rows := Sort(CandidateOrder(t, q), listing);
    rows[..if |rows| < CANDIDATE_LIMIT then |rows| else CANDIDATE_LIMIT]
  }

  /** What query_visual_variants has to rank: the candidate rows that pass its filter. */
  ghost function IndexedQuery(listing: seq<int>, t: Tables, q: Request): set<int>
    requires Comparable(t, q)
  {
    set a | a in CandidateRows(listing, t, q) && Accepted(t, q, a)
  }

  /** How many hit assets come before this one. */
  ghost function Rank(t: Tables, q: Request, a: int): nat {
    |set b | b in Hits(t, q) && Precedes(t, q, b, a)|
  }

  /** Accepted are copies up to distance 4 whatever they look like, and up to 16 those alike in colour and shape. */
  lemma AcceptsIff(r: Fingerprint, c: Fingerprint, aspect: real)
    requires |r.colorGrid| == |c.colorGrid| > 0
    ensures Accepts(r, c, aspect) <==>
            var d := Distance(r.horizontal, c.horizontal) + Distance(r.vertical, c.vertical);
            d <= 4 || (d <= 16 && aspect <= 0.08
                       && ChannelSum(r.colorGrid, c.colorGrid) <= 40 * |r.colorGrid|)
  {
    MeanAtMost(ChannelSum(r.colorGrid, c.colorGrid), |r.colorGrid|);
    hide Distance, ChannelSum;
  }

  lemma MeanAtMost(total: nat, n: nat)
    requires n > 0
    ensures total as real / n as real <= 40.0 <==> total <= 40 * n
  {
    var (x, y) := (total as real, n as real);
    QuotientTimes(x, y);
    AtMostTimes(x / y, x, y);
  }

  lemma AtMostTimes(q: real, x: real, y: real)
    requires q * y == x && y > 0.0
    ensures q <= 40.0 <==> x <= 40.0 * y
  {
    Monotone(40.0, q, y);
    Monotone(q, 40.0, y);
  }

  lemma QuotientTimes(x: real, y: real)
    requires y > 0.0
    ensures x / y * y == x
  {
  }

  lemma Monotone(a: real, b: real, c: real)
    requires c > 0.0
    ensures a < b ==> a * c < b * c
  {
  }

  /** Changing one channel changes the sum by the change of that channel's difference, and equal grids differ by 0. */
  lemma {:induction false} ChannelChanges(left: seq<nat>, right: seq<nat>, i: nat, x: nat)
    requires |left| == |right| && i < |right|
    ensures ChannelSum(left, right) + (if left[i] >= x then left[i] - x else x - left[i])
         == ChannelSum(left, right[i := x]) + (if left[i] >= right[i] then left[i] - right[i] else right[i] - left[i])
    ensures ChannelSum(left, left) == 0
  {
    if i > 0 {
      ChannelChanges(left[1..], right[1..], i - 1, x);
      assert right[i := x][1..] == right[1..][i - 1 := x];
    } else {
      assert right[i := x][1..] == right[1..];
      if |left| > 1 {
        ChannelChanges(left[1..], right[1..], 0, x);
      }
    }
  }

  lemma HitIsNear(t: Tables, q: Request, a: int)
    requires Projected(t) && Comparable(t, q) && a in Hits(t, q)
    ensures InScope(q.scope, t.fingerprints[a]) && BandHits(Probes(q.reference), t, q.scope, a)
         == NearBands(q.reference, t.fingerprints[a])
    ensures ProbeDistance(Probes(q.reference), t, q.scope, a) ==
            Some(if SharesBand(q.reference, t.fingerprints[a]) then 0 else 1)
  {
    if !InScope(q.scope, t.fingerprints[a]) {
      OutOfScopeMisses(Probes(q.reference), t, q.scope, a);
    }
    BandHitsExact(t, q.reference, q.scope, a);
    ProbeDistanceZero(t, q.reference, q.scope, a);
    hide NearBands, SharesBand, InScope, Projected, BandHits, ProbeDistance, Probes;
    ProbeDistanceIsSmall(t, q.reference, q.scope, a);
  }

  lemma ProbeDistanceIsSmall(t: Tables, r: Fingerprint, scope: Option<int>, asset: int)
    requires BandHits(Probes(r), t, scope, asset) > 0
    ensures ProbeDistance(Probes(r), t, scope, asset) in {Some(0), Some(1)}
  {
    hide ProbeDistance, BandHits, Probes, Matches;
    SomeProbeMatches(Probes(r), t, scope, asset);
    ProbeDistanceMeaning(Probes(r), t, scope, asset);
    forall p
      ensures p in Probes(r) ==> p.distance <= 1
    {
      ProbeIsNear(r, p);
    }
  }

  lemma ProbeIsNear(r: Fingerprint, p: Probe)
    ensures p in Probes(r) ==> p.distance <= 1
  {
    ExactProbes(Horizontal, r.horizontal, 4, p);
    ExactProbes(Vertical, r.vertical, 4, p);
    hide HashProbes;
  }

  lemma {:induction false} SomeProbeMatches(probes: seq<Probe>, t: Tables, scope: Option<int>, asset: int)
    requires BandHits(probes, t, scope, asset) > 0
    ensures ProbeDistance(probes, t, scope, asset).Some?
  {
    if !Matches(probes[|probes| - 1], t, scope, asset) {
      SomeProbeMatches(probes[..|probes| - 1], t, scope, asset);
    }
  }

  /** Hits are ordered by a shared band first, then by the number of near bands, then by id. */
  lemma HitOrderIff(t: Tables, q: Request, a: int, b: int)
    requires Projected(t) && Comparable(t, q) && a in Hits(t, q) && b in Hits(t, q)
    ensures var (x, y) := (t.fingerprints[a], t.fingerprints[b]);
      var (sx, sy) := (SharesBand(q.reference, x), SharesBand(q.reference, y));
      var (nx, ny) := (NearBands(q.reference, x), NearBands(q.reference, y));
      Precedes(t, q, a, b) <==> (sx && !sy) || (sx == sy && nx > ny) || (sx == sy && nx == ny && a < b)
  {
    HitIsNear(t, q, a);
    HitIsNear(t, q, b);
    hide Projected, Comparable, Hits, SharesBand, NearBands, ProbeDistance, BandHits, Probes;
  }

  /** End to end: a copy that is persisted for an eligible asset in scope is hit in all eight bands. */
  lemma PersistedCopyIsHit(t: Tables, q: Request, a: int, fp: Fingerprint)
    requires Projected(t) && a in q.eligible && a != q.self && InScope(q.scope, fp)
    requires fp.horizontal == q.reference.horizontal && fp.vertical == q.reference.vertical
    ensures var u := Apply(t, Persist(a, Some(fp)));
      && BandHits(Probes(q.reference), u, q.scope, a) == 8
      && a in Hits(u, q)
  {
    var u := Apply(t, Persist(a, Some(fp)));
    PersistReplaces(t, a, Some(fp));
    ApplyKeepsProjection(t, Persist(a, Some(fp)));
    BandHitsExact(u, q.reference, q.scope, a);
    forall k: nat | k < 4
      ensures BandDistance(fp.horizontal, fp.horizontal, k) == 0 && BandDistance(fp.vertical, fp.vertical, k) == 0
    {
      DistanceZero(Band(fp.horizontal, k), Band(fp.horizontal, k));
      DistanceZero(Band(fp.vertical, k), Band(fp.vertical, k));
    }
    hide BandDistance, Projected, Apply, BandHits, Probes;
  }

  lemma OutOfScopeMisses(probes: seq<Probe>, t: Tables, scope: Option<int>, asset: int)
    requires Projected(t) && asset in t.fingerprints && !InScope(scope, t.fingerprints[asset])
    ensures BandHits(probes, t, scope, asset) == 0
  {
  }

  /** Before the cut: the accepted hits are the linear scan without exactly the pairs two bits apart in each band. */
  lemma HitsAreScan(t: Tables, q: Request)
    requires Projected(t) && Comparable(t, q)
    ensures (set a | a in Hits(t, q) && Accepted(t, q, a)) ==
            set a | a in LinearScan(t, q) && !TwoBitsInEveryBand(q.reference, t.fingerprints[a])
  {
    forall a | a in q.eligible && Accepted(t, q, a)
      ensures a in Hits(t, q) <==>
              InScope(q.scope, t.fingerprints[a]) && !TwoBitsInEveryBand(q.reference, t.fingerprints[a])
    {
      MissedExactly(q.reference, t.fingerprints[a]);
      if InScope(q.scope, t.fingerprints[a]) {
        BandHitsExact(t, q.reference, q.scope, a);
      } else {
        OutOfScopeMisses(Probes(q.reference), t, q.scope, a);
      }
    }
  }

  lemma CandidateOrderIsTotal(t: Tables, q: Request)
    ensures TotalOrder(CandidateOrder(t, q))
  {
    hide ProbeDistance, BandHits, Probes;
  }

  /** The cut keeps a hit asset iff fewer than 500 hit assets come before it. */
  lemma CutByRank(listing: seq<int>, t: Tables, q: Request, a: int)
    requires Lists(listing, t, q)
    ensures a in CandidateRows(listing, t, q) <==> a in Hits(t, q) && Rank(t, q, a) < CANDIDATE_LIMIT
    ensures |CandidateRows(listing, t, q)| <= CANDIDATE_LIMIT
  {
    var less := CandidateOrder(t, q);
    CandidateOrderIsTotal(t, q);
    SortIsStrict(less, listing);
    SortPermutes(less, listing);
    RankInRows(listing, t, q, a);
    hide Precedes, Hits, Rank, Sort, CandidateOrder, Below;
    PrefixByRank(less, Sort(less, listing), CANDIDATE_LIMIT, a);
  }

  lemma RankInRows(listing: seq<int>, t: Tables, q: Request, a: int)
    requires Lists(listing, t, q)
    ensures var less := CandidateOrder(t, q); Rank(t, q, a) == |Below(less, Sort(less, listing), a)|
  {
    var less := CandidateOrder(t, q);
    SortPermutes(less, listing);
    hide Precedes, Hits, Sort;
    var rows := Sort(less, listing);
    assert forall b :: less(b, a) == Precedes(t, q, b, a);
    assert (set b | b in Hits(t, q) && Precedes(t, q, b, a)) == Below(less, rows, a);
  }

  /** An asset is returned iff it is accepted, is hit, and ranks among the first 500 hits. */
  lemma ReturnedIff(listing: seq<int>, t: Tables, q: Request, a: int)
    requires Comparable(t, q) && Lists(listing, t, q)
    ensures a in IndexedQuery(listing, t, q) <==>
            Accepted(t, q, a) && a in Hits(t, q) && Rank(t, q, a) < CANDIDATE_LIMIT
  {
    CutByRank(listing, t, q, a);
  }

  /**
   * The banded lookup returns the linear scan without exactly the pairs that differ by two bits in each band, iff no
   * accepted hit falls behind the first 500 hits.
   */
  lemma IndexAgreesWithScanIff(listing: seq<int>, t: Tables, q: Request)
    requires Projected(t) && Comparable(t, q) && Lists(listing, t, q)
    ensures IndexedQuery(listing, t, q) ==
            (set a | a in LinearScan(t, q) && !TwoBitsInEveryBand(q.reference, t.fingerprints[a]))
      <==> forall a :: a in Hits(t, q) && Accepted(t, q, a) ==> Rank(t, q, a) < CANDIDATE_LIMIT
  {
    HitsAreScan(t, q);
    var accepted := set a | a in Hits(t, q) && Accepted(t, q, a);
    hide Accepted, LinearScan, TwoBitsInEveryBand, Rank, Lists;
    forall a
      ensures a in IndexedQuery(listing, t, q) <==> a in accepted && Rank(t, q, a) < CANDIDATE_LIMIT
    {
      ReturnedIff(listing, t, q, a);
    }
    assert IndexedQuery(listing, t, q) == accepted <==> forall a :: a in accepted ==> Rank(t, q, a) < CANDIDATE_LIMIT;
  }

  /** Up to 500 hit assets the cut loses nothing. */
  lemma FewHitsSuffice(listing: seq<int>, t: Tables, q: Request)
    requires Projected(t) && Comparable(t, q) && Lists(listing, t, q) && |Hits(t, q)| <= CANDIDATE_LIMIT
    ensures IndexedQuery(listing, t, q) ==
            set a | a in LinearScan(t, q) && !TwoBitsInEveryBand(q.reference, t.fingerprints[a])
  {
    forall a | a in Hits(t, q)
      ensures Rank(t, q, a) < CANDIDATE_LIMIT
    {
      var before := set b | b in Hits(t, q) && Precedes(t, q, b, a);
      assert before <= Hits(t, q) - {a};
      SmallerSubset(before, Hits(t, q) - {a});
    }
    IndexAgreesWithScanIff(listing, t, q);
  }

  // ---------------------------------------------------------------- more than 500 copies of one image

  /** Assets 1 to n, all with the same fingerprint. */
  function Copies(fp: Fingerprint, n: nat): Tables {
    if n == 0 then Tables(map[], map[]) else Insert(Copies(fp, n - 1), n, fp)
  }

  lemma EmptyIsProjected()
    ensures Projected(Tables(map[], map[]))
  {
  }

  lemma {:induction false} CopiesMeaning(fp: Fingerprint, n: nat)
    ensures var t := Copies(fp, n);
      && Projected(t) && (forall a :: a in t.fingerprints <==> 1 <= a <= n)
      && (forall a :: 1 <= a <= n ==> t.fingerprints[a] == fp)
  {
    EmptyIsProjected();
    hide Projected, InsertBands;
    if n > 0 {
      CopiesMeaning(fp, n - 1);
      InsertKeepsProjection(Copies(fp, n - 1), n, fp);
    }
  }

  function CopiesRequest(fp: Fingerprint, n: nat): Request {
    var eligible := UpTo(n);
    Request(0, fp, None, eligible, map a | a in eligible :: 0.0)
  }

  lemma CopyIsAccepted(t: Tables, q: Request, a: int)
    requires Comparable(t, q) && a in q.eligible && a != q.self && q.aspect[a] == 0.0
    requires t.fingerprints[a] == q.reference
    ensures Accepted(t, q, a)
  {
    DistanceZero(q.reference.horizontal, q.reference.horizontal);
    DistanceZero(q.reference.vertical, q.reference.vertical);
    hide Distance;
  }

  lemma CopiesAreScanned(fp: Fingerprint, n: nat)
    requires |fp.colorGrid| > 0
    ensures var t, q := Copies(fp, n), CopiesRequest(fp, n);
      Projected(t) && Comparable(t, q) && LinearScan(t, q) == UpTo(n)
  {
    var t, q := Copies(fp, n), CopiesRequest(fp, n);
    CopiesMeaning(fp, n);
    hide Copies, Accepts, Projected, Accepted;
    forall a | a in q.eligible
      ensures Accepted(t, q, a)
    {
      CopyIsAccepted(t, q, a);
    }
    assert LinearScan(t, q) == q.eligible;
  }

  /** More than 500 exact copies of the reference: the scan accepts them all, the lookup returns at most 500. */
  lemma CutLosesCopies(fp: Fingerprint, n: nat, listing: seq<int>)
    requires |fp.colorGrid| > 0 && n > CANDIDATE_LIMIT
    requires Lists(listing, Copies(fp, n), CopiesRequest(fp, n))
    ensures var t, q := Copies(fp, n), CopiesRequest(fp, n);
      Comparable(t, q) && |LinearScan(t, q)| == n && |IndexedQuery(listing, t, q)| <= CANDIDATE_LIMIT
  {
    var t, q := Copies(fp, n), CopiesRequest(fp, n);
    CopiesAreScanned(fp, n);
    CutByRank(listing, t, q, 0);
    hide Copies, CopiesRequest, Comparable, Accepted, CandidateRows, Lists, Projected, LinearScan;
    var rows := CandidateRows(listing, t, q);
    ValuesOf(rows);
    SmallerSubset(IndexedQuery(listing, t, q), set a | a in rows);
  }
}
