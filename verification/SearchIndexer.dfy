/**
 * The search-index job loop: backend/search_indexer.py over the fenced job writes of
 * backend/metadata_store/search_index_store.py. Cancellation, lease lapse, claim loss, and every failure of
 * extraction or persistence may strike between any two database operations.
 */
module SearchIndexer {
  import opened Prelude

  const MAX_BATCH := 200

  datatype JobState = Running | CancelRequested | Succeeded | Failed | Cancelled

  datatype Status = Ready | NotApplicable | SkippedStatus | FailedStatus

  /** An extraction row; current says that its fingerprint and extractor version are those of today. */
  datatype Extraction = Extraction(status: Status, current: bool)

  type Extractions = map<int, Extraction>

  /** What the missing-only listing wants: no row, an outdated or failed one, or a skipped visual fingerprint. */
  predicate Wanted(ex: Extractions, visual: bool, id: int) {
    id !in ex || !ex[id].current || ex[id].status == FailedStatus || (visual && ex[id].status == SkippedStatus)
  }

  /** What a listing asks for: everything, or only what is wanted. */
  predicate Listed(ex: Extractions, missing: bool, visual: bool, id: int) {
    missing ==> Wanted(ex, visual, id)
  }

  function Matching(catalog: seq<int>, cursor: int, missing: bool, visual: bool, ex: Extractions): seq<int> {
    if catalog == [] then []
    else
      var rest, id := Matching(catalog[..|catalog| - 1], cursor, missing, visual, ex), catalog[|catalog| - 1];
      if id > cursor && Listed(ex, missing, visual, id) then rest + [id] else rest
  }

  ghost predicate Ascending(ids: seq<int>) {
    forall i, j :: 0 <= i < j < |ids| ==> ids[i] < ids[j]
  }

  /** The next keyset batch, in id order. */
  function Batch(catalog: seq<int>, cursor: int, missing: bool, visual: bool, ex: Extractions, limit: int): seq<int> {
    var all := Matching(catalog, cursor, missing, visual, ex);
    var n := if limit < 1 then 1 else if limit > MAX_BATCH then MAX_BATCH else limit;
    all[..if n < |all| then n else |all|]
  }

  lemma {:induction false} MatchingIsExact(catalog: seq<int>, cursor: int, missing: bool, visual: bool, ex: Extractions)
    requires Ascending(catalog)
    ensures var m := Matching(catalog, cursor, missing, visual, ex);
      Ascending(m) && forall id :: id in m <==> id in catalog && id > cursor && Listed(ex, missing, visual, id)
  {
    if catalog != [] {
      var front, last := catalog[..|catalog| - 1], catalog[|catalog| - 1];
      assert catalog == front + [last];
      MatchingIsExact(front, cursor, missing, visual, ex);
      var m := Matching(front, cursor, missing, visual, ex);
      forall i | 0 <= i < |m|
        ensures m[i] < last
      {
        assert m[i] in m;
      }
    }
  }

  lemma PrefixHoldsSmaller(m: seq<int>, n: nat, id: int)
    requires Ascending(m) && n <= |m| && (n == 0 ==> m == []) && id in m && (n > 0 ==> id <= m[n - 1])
    ensures id in m[..n]
  {
    var i :| 0 <= i < |m| && m[i] == id;
    assert m[..n][i] == id;
  }

  /** A batch is ascending and beyond the cursor; up to its last id it has exactly the assets the listing asks for. */
  lemma BatchIsExact(catalog: seq<int>, cursor: int, missing: bool, visual: bool, ex: Extractions, limit: int)
    requires Ascending(catalog)
    ensures var b := Batch(catalog, cursor, missing, visual, ex, limit);
      && Ascending(b) && |b| <= MAX_BATCH && (forall id :: id in b ==> id in catalog && id > cursor)
      && (forall id :: id in catalog && id > cursor && (b == [] || id <= b[|b| - 1]) ==>
          (id in b <==> Listed(ex, missing, visual, id)))
  {
    MatchingIsExact(catalog, cursor, missing, visual, ex);
    var m, b := Matching(catalog, cursor, missing, visual, ex), Batch(catalog, cursor, missing, visual, ex, limit);
    hide Matching, Batch;
    PrefixIsAscending(m, |b|);
    forall id | id in catalog && id > cursor && (b == [] || id <= b[|b| - 1]) && id in m
      ensures id in b
    {
      PrefixHoldsSmaller(m, |b|, id);
    }
  }

  /** A batch holds as many assets as the limit, cut off at 1 and 200, or all that the listing asks for. */
  lemma BatchSize(catalog: seq<int>, cursor: int, missing: bool, visual: bool, ex: Extractions, limit: int)
    requires Ascending(catalog)
    ensures var (b, n) := (Batch(catalog, cursor, missing, visual, ex, limit), Between(1, limit, 200));
      |b| == n || (|b| < n && forall id :: id in catalog && id > cursor && Listed(ex, missing, visual, id) ==> id in b)
  {
    MatchingIsExact(catalog, cursor, missing, visual, ex);
    hide Matching, Listed;
    var all := Matching(catalog, cursor, missing, visual, ex);
    assert all[..|all|] == all;
  }

  function Between(low: int, n: int, high: int): (r: nat)
    requires 0 <= low <= high
    ensures low <= r <= high && (low <= n <= high ==> r == n) && (n < low ==> r == low) && (n > high ==> r == high)
  {
    if n < low then low else if n > high then high else n
  }

  /** A listing passes over an asset iff only the missing are wanted and its row, of today, needs no second try. */
  lemma PassedOverIff(ex: Extractions, missing: bool, visual: bool, id: int)
    ensures !Listed(ex, missing, visual, id) <==>
              && missing && id in ex && ex[id].current
              && ex[id].status in (if visual then {Ready, NotApplicable} else {Ready, NotApplicable, SkippedStatus})
  {
  }

  lemma PrefixIsAscending(m: seq<int>, n: nat)
    requires Ascending(m) && n <= |m|
    ensures Ascending(m[..n]) && forall id :: id in m[..n] ==> id in m
  {
    forall i, j | 0 <= i < j < n
      ensures m[..n][i] < m[..n][j]
    {
      assert m[i] < m[j];
    }
  }

  /** How many assets lie beyond the cursor. */
  function Above(catalog: seq<int>, cursor: int): nat {
    if catalog == [] then 0
    else Above(catalog[..|catalog| - 1], cursor) + if catalog[|catalog| - 1] > cursor then 1 else 0
  }

  lemma {:induction false} AboveShrinks(catalog: seq<int>, cursor: int, next: int)
    requires cursor <= next
    ensures Above(catalog, next) <= Above(catalog, cursor)
    ensures next in catalog && cursor < next ==> Above(catalog, next) < Above(catalog, cursor)
  {
    if catalog != [] {
      assert catalog == catalog[..|catalog| - 1] + [catalog[|catalog| - 1]];
      AboveShrinks(catalog[..|catalog| - 1], cursor, next);
    }
  }

  /** Every asset beyond the id has an extraction row. */
  ghost predicate CoveredBeyond(catalog: seq<int>, ex: Extractions, low: int) {
    forall id :: id in catalog && low < id ==> id in ex
  }

  function Lookup(ex: Extractions, id: int): Option<Extraction> {
    if id in ex then Some(ex[id]) else None
  }

  /** The upsert of one recording: a failure never replaces an earlier good result. */
  function Upserted(ex: Extractions, id: int, status: Status): Extractions {
    if status == FailedStatus && id in ex && ex[id].status != FailedStatus then ex
    else ex[id := Extraction(status, true)]
  }

  /** A result is written, unless it is a failure and the row of the asset is not. */
  lemma UpsertedIs(ex: Extractions, id: int, status: Status)
    ensures var after := Upserted(ex, id, status);
      && after.Keys == ex.Keys + {id} && (forall other :: other in ex && other != id ==> after[other] == ex[other])
      && (status != FailedStatus ==> after[id] == Extraction(status, true))
      && (status == FailedStatus && id in ex && ex[id].status in {Ready, NotApplicable, SkippedStatus} ==>
            after[id] == ex[id])
      && (status == FailedStatus && (id !in ex || ex[id].status == FailedStatus) ==>
            after[id] == Extraction(FailedStatus, true))
  {
  }

  type Log = seq<(nat, int)>

  /** Of the assets between the ids, pass p recorded those its listing asked for, judged by the rows at its start. */
  ghost predicate RecordedListed(
    catalog: seq<int>, log: Log, p: nat, low: int, high: int, missing: bool, visual: bool, before: Extractions)
  {
    forall id :: id in catalog && low < id <= high ==> ((p, id) in log <==> Listed(before, missing, visual, id))
  }

  /** The same for all assets beyond the id: the pass went through to the end. */
  ghost predicate PassComplete(
    catalog: seq<int>, log: Log, p: nat, low: int, missing: bool, visual: bool, before: Extractions) {
    forall id :: id in catalog && low < id ==> ((p, id) in log <==> Listed(before, missing, visual, id))
  }

  /** Rows change only where the log of this pass says so, and a recorded asset has a row. */
  ghost predicate ChangedOnlyLogged(log: Log, p: nat, before: Extractions, after: Extractions) {
    && (forall id :: (p, id) !in log ==> Lookup(after, id) == Lookup(before, id))
    && (forall id :: (p, id) in log ==> id in after)
  }

  /** Recorded assets ascend strictly within each pass, so none is recorded twice in a pass. */
  ghost predicate OncePerPass(log: Log) {
    forall i, j :: 0 <= i < j < |log| ==> log[i].0 < log[j].0 || (log[i].0 == log[j].0 && log[i].1 < log[j].1)
  }

  /** All entries belong to earlier passes, or to pass p up to the cursor. */
  ghost predicate LogUpTo(log: Log, p: nat, cursor: int) {
    OncePerPass(log) && forall i :: 0 <= i < |log| ==> log[i].0 < p || (log[i].0 == p && log[i].1 <= cursor)
  }

  lemma LogGrows(log: Log, p: nat, cursor: int, id: int)
    requires LogUpTo(log, p, cursor) && cursor < id
    ensures LogUpTo(log + [(p, id)], p, id)
  {
  }

  lemma LogIsOnce(log: Log, p: nat, cursor: int)
    requires LogUpTo(log, p, cursor)
    ensures OncePerPass(log)
  {
  }

  /** A new pass starts with nothing logged, at any cursor, and judges by the rows it finds. */
  lemma PassStarts(catalog: seq<int>, log: Log, p: nat, low: int, missing: bool, visual: bool, ex: Extractions)
    requires OncePerPass(log) && forall i :: 0 <= i < |log| ==> log[i].0 < p
    ensures LogUpTo(log, p, low) && RecordedListed(catalog, log, p, low, low, missing, visual, ex)
    ensures ChangedOnlyLogged(log, p, ex, ex)
  {
  }

  lemma NextPassStarts(catalog: seq<int>, log: Log, p: nat, cursor: int, visual: bool, ex: Extractions)
    requires LogUpTo(log, p, cursor)
    ensures LogUpTo(log, p + 1, 0) && RecordedListed(catalog, log, p + 1, 0, 0, true, visual, ex)
    ensures ChangedOnlyLogged(log, p + 1, ex, ex)
  {
    PassStarts(catalog, log, p + 1, 0, true, visual, ex);
  }

  /** Recording one more asset keeps the log and the rows in step. */
  lemma UpsertIsLogged(log: Log, p: nat, before: Extractions, ex: Extractions, id: int, status: Status)
    requires ChangedOnlyLogged(log, p, before, ex)
    ensures ChangedOnlyLogged(log + [(p, id)], p, before, Upserted(ex, id, status))
  {
    var more, after := log + [(p, id)], Upserted(ex, id, status);
    assert more[|log|] == (p, id);
    forall x
      ensures (p, x) in more <==> (p, x) in log || x == id
    {
      if (p, x) in log {
        var i :| 0 <= i < |log| && log[i] == (p, x);
        assert more[i] == (p, x);
      }
    }
  }

  /** What a batch adds to the log. */
  function Logged(p: nat, batch: seq<int>): Log {
    seq(|batch|, i requires 0 <= i < |batch| => (p, batch[i]))
  }

  lemma LoggedMembers(p: nat, batch: seq<int>, q: nat, id: int)
    ensures (q, id) in Logged(p, batch) <==> q == p && id in batch
  {
    if id in batch {
      var i :| 0 <= i < |batch| && batch[i] == id;
      assert Logged(p, batch)[i] == (p, id);
    }
  }

  lemma MissesNothing(
    catalog: seq<int>, log: Log, p: nat, low: int, cursor: int, missing: bool, visual: bool, before: Extractions,
    ex: Extractions, limit: int)
    requires Ascending(catalog) && RecordedListed(catalog, log, p, low, cursor, missing, visual, before)
    requires LogUpTo(log, p, cursor) && ChangedOnlyLogged(log, p, before, ex)
             && Batch(catalog, cursor, missing, visual, ex, limit) == []
    ensures PassComplete(catalog, log, p, low, missing, visual, before)
  {
    BatchIsExact(catalog, cursor, missing, visual, ex, limit);
    hide Batch;
    forall id | id in catalog && low < id && id > cursor
      ensures (p, id) !in log && !Listed(before, missing, visual, id)
    {
      NotYetLogged(log, p, cursor, id);
      assert Lookup(ex, id) == Lookup(before, id);
    }
  }

  lemma NotYetLogged(log: Log, p: nat, cursor: int, id: int)
    requires LogUpTo(log, p, cursor) && cursor < id
    ensures (p, id) !in log
  {
  }

  /** A recorded batch carries the pass on to the last id of the batch. */
  lemma BatchCarriesOn(
    catalog: seq<int>, log: Log, p: nat, low: int, cursor: int, missing: bool, visual: bool, before: Extractions,
    ex: Extractions, limit: int)
    requires Ascending(catalog) && RecordedListed(catalog, log, p, low, cursor, missing, visual, before)
    requires LogUpTo(log, p, cursor) && ChangedOnlyLogged(log, p, before, ex)
             && Batch(catalog, cursor, missing, visual, ex, limit) != []
    ensures var b := Batch(catalog, cursor, missing, visual, ex, limit);
      RecordedListed(catalog, log + Logged(p, b), p, low, b[|b| - 1], missing, visual, before)
  {
    BatchIsExact(catalog, cursor, missing, visual, ex, limit);
    var b := Batch(catalog, cursor, missing, visual, ex, limit);
    hide Batch, Logged;
    forall id | id in catalog && low < id <= b[|b| - 1]
      ensures (p, id) in log + Logged(p, b) <==> Listed(before, missing, visual, id)
    {
      LoggedMembers(p, b, p, id);
      if id > cursor {
        NotYetLogged(log, p, cursor, id);
        assert Lookup(ex, id) == Lookup(before, id);
      } else {
        assert id !in b;
      }
    }
  }

  /** A later pass does not touch what an earlier one recorded. */
  lemma EarlierPassStands(
    catalog: seq<int>, log: Log, more: Log, p: nat, low: int, missing: bool, visual: bool, before: Extractions,
    after: Extractions)
    requires PassComplete(catalog, log, p, low, missing, visual, before) && ChangedOnlyLogged(log, p, before, after)
    requires forall x :: x in more ==> x.0 != p
    ensures PassComplete(catalog, log + more, p, low, missing, visual, before)
    ensures ChangedOnlyLogged(log + more, p, before, after)
  {
    forall id
      ensures (p, id) in log + more <==> (p, id) in log
    {
      assert (p, id) !in more;
    }
  }

  /** Complete passes leave a row for every asset they cover. */
  lemma CompleteCovers(
    catalog: seq<int>, log: Log, p: nat, low: int, missing: bool, visual: bool, before: Extractions, after: Extractions)
    requires PassComplete(catalog, log, p, low, missing, visual, before) && ChangedOnlyLogged(log, p, before, after)
    ensures CoveredBeyond(catalog, after, low)
  {
    forall id | id in catalog && low < id
      ensures id in after
    {
      if (p, id) !in log {
        assert !Listed(before, missing, visual, id) && Lookup(after, id) == Lookup(before, id);
      }
    }
  }

  /** Every asset beyond the id was recorded in the pass. */
  ghost predicate AllRecorded(catalog: seq<int>, log: Log, p: nat, low: int) {
    forall id :: id in catalog && low < id ==> (p, id) in log
  }

  /** A rebuild leaves nothing out. */
  lemma RebuildRecordsAll(catalog: seq<int>, log: Log, low: int, visual: bool, before: Extractions)
    ensures PassComplete(catalog, log, 0, low, false, visual, before) ==> AllRecorded(catalog, log, 0, low)
  {
  }

  lemma LoggedPass(p: nat, batch: seq<int>)
    ensures forall x :: x in Logged(p, batch) ==> x.0 == p
  {
  }

  /** How a recording attempt ends. */
  datatype Attempt = Recorded | ClaimLost | Raised

  /** A run ends by itself, by losing its claim, or, when even the failure write raises, by an exception. */
  datatype Ending = Finished | LostClaim | Propagated

  class IndexJob {
    const catalog: seq<int>
    const visual: bool
    const repairs: bool
    var state: JobState
    var owned: bool
    var live: bool
    var extractions: Extractions
    ghost var pass: nat
    ghost var recorded: Log
    ghost var atRepair: Extractions
    ghost var terminalWrites: nat
    ghost var faulted: bool
    ghost var cancelAsked: bool

    /** The job as claimed: running, under this worker's token, with a fresh lease. */
    constructor (catalog: seq<int>, visual: bool, repairs: bool, extractions: Extractions)
      ensures this.catalog == catalog && this.visual == visual && this.repairs == repairs
              && this.extractions == extractions
      ensures state == Running && owned && live && pass == 0 && recorded == [] && terminalWrites == 0
      ensures !faulted && !cancelAsked
    {
      this.catalog, this.visual, this.repairs, this.extractions := catalog, visual, repairs, extractions;
      state, owned, live := Running, true, true;
      pass, recorded, terminalWrites, atRepair, faulted, cancelAsked := 0, [], 0, map[], false, false;
    }

    ghost predicate Active()
      reads `owned, `state, `terminalWrites, `cancelAsked
    {
      && (owned ==> state in {Running, CancelRequested})
      && (state == CancelRequested ==> cancelAsked)
      && terminalWrites == 0
    }

    /** Other processes: cancellation may be requested, the lease may lapse, the claim may be taken. */
    method Interfere()
      requires Active()
      modifies `state, `owned, `live, `cancelAsked
      ensures Active() && (owned ==> old(owned)) && (live ==> old(live))
      ensures old(cancelAsked) ==> cancelAsked
    {
      if * {
        live := false;
      }
      if * {
        owned := false;
      }
      if * {
        if state == Running {
          state, cancelAsked := CancelRequested, true;
        }
      }
    }

    /** Extends the lease of a claim that is still owned, unless the database raises. */
    method RenewLease() returns (renewed: bool, raised: bool)
      requires Active()
      modifies `state, `owned, `live, `faulted, `cancelAsked
      ensures Active() && (owned ==> old(owned))
      ensures !raised ==> renewed == owned && (renewed ==> live)
      ensures faulted == (old(faulted) || raised)
    {
      Interfere();
      renewed, raised := owned, false;
      if * {
        raised, faulted := true, true;
        return;
      }
      live := live || owned;
    }

    /** The state under an exact live claim, or None, unless the database raises. */
    method ControlState() returns (s: Option<JobState>, raised: bool)
      requires Active()
      modifies `state, `owned, `live, `faulted, `cancelAsked
      ensures Active() && (owned ==> old(owned)) && (live ==> old(live))
      ensures !raised ==> s == if owned && live then Some(state) else None
      ensures faulted == (old(faulted) || raised) && (s == Some(CancelRequested) ==> cancelAsked)
    {
      Interfere();
      s, raised := if owned && live then Some(state) else None, false;
      if * {
        raised, faulted := true, true;
      }
    }

    /** The fenced terminal transition: without a live claim it has no effect, and neither when the database raises. */
    method Finish(terminal: JobState) returns (raised: bool)
      requires Active() && terminal in {Succeeded, Failed, Cancelled}
      modifies `state, `owned, `live, `faulted, `cancelAsked, `terminalWrites
      ensures raised ==> Active()
      ensures !raised ==> (terminalWrites == 1 && state == terminal) || (terminalWrites == 0 && !(owned && live))
      ensures faulted == (old(faulted) || raised) && (old(cancelAsked) ==> cancelAsked)
    {
      Interfere();
      raised := false;
      if * {
        raised, faulted := true, true;
      } else if owned && live {
        state, owned, live := terminal, false, false;
        terminalWrites := terminalWrites + 1;
      }
    }

    /** A terminal write inside the guarded block: when it raises, the job is failed instead. */
    method Conclude(terminal: JobState) returns (ending: Ending)
      requires Active() && terminal in {Succeeded, Failed, Cancelled}
      modifies `state, `owned, `live, `faulted, `cancelAsked, `terminalWrites
      ensures ending == Finished ==>
              (terminalWrites == 1 && state in {terminal, Failed}) || (terminalWrites == 0 && !(owned && live))
      ensures ending == Finished || (ending == Propagated && Active() && faulted)
      ensures (old(cancelAsked) ==> cancelAsked) && (old(faulted) ==> faulted)
      ensures terminalWrites == 1 && state != terminal ==> faulted
    {
      var raised := Finish(terminal);
      if raised && terminal != Failed {
        raised := Finish(Failed);
      }
      ending := if raised then Propagated else Finished;
    }

    /** One fenced recording; a failure never replaces an earlier good result. */
    method Record(id: int, status: Status) returns (r: Attempt)
      requires Active()
      modifies `state, `owned, `live, `faulted, `cancelAsked, `extractions, `recorded
      ensures Active() && (owned ==> old(owned))
      ensures r == Recorded ==>
              recorded == old(recorded) + [(pass, id)] && extractions == Upserted(old(extractions), id, status)
      ensures r != Recorded ==> extractions == old(extractions) && recorded == old(recorded)
      ensures r == ClaimLost ==> !(owned && live)
      ensures faulted == (old(faulted) || r == Raised)
    {
      Interfere();
      if !(owned && live) {
        return ClaimLost;
      }
      if * {
        faulted := true;
        return Raised;
      }
      if !(status == FailedStatus && id in extractions && extractions[id].status != FailedStatus) {
        extractions := extractions[id := Extraction(status, true)];
      }
      recorded := recorded + [(pass, id)];
      r := Recorded;
    }

    /**
     * Records what extraction gave. When the source changed, persisting raises or the write itself raises, a failure is
     * recorded instead; a result that cannot be persisted is never recorded under its own status.
     */
    method ProcessAsset(id: int, extracted: Status, persists: bool) returns (r: Attempt, retried: bool)
      requires Active()
      modifies `state, `owned, `live, `faulted, `cancelAsked, `extractions, `recorded
      ensures Active() && (owned ==> old(owned))
      ensures r == Recorded ==> recorded == old(recorded) + [(pass, id)]
      ensures r == Recorded ==>
              extractions == Upserted(old(extractions), id, if retried then FailedStatus else extracted)
      ensures extracted != FailedStatus && !persists ==> retried
      ensures r == Raised ==> retried
      ensures r != Recorded ==> extractions == old(extractions) && recorded == old(recorded)
      ensures r == ClaimLost ==> !(owned && live)
      ensures r == Raised ==> faulted
    {
      retried := false;
      if extracted == FailedStatus || persists {
        r := Record(id, extracted);
        if r != Raised {
          return;
        }
      }
      retried := true;
      r := Record(id, FailedStatus);
    }

    /** One batch: Recorded means that each of its assets, and nothing else, was recorded in the present pass. */
    method ProcessBatch(batch: seq<int>, start: int, ghost before: Extractions)
      returns (r: Attempt, cancelRequested: bool)
      requires Active() && Ascending(batch) && forall id :: id in batch ==> id > start
      requires LogUpTo(recorded, pass, start) && ChangedOnlyLogged(recorded, pass, before, extractions)
      modifies `state, `owned, `live, `faulted, `cancelAsked, `extractions, `recorded
      ensures Active() && OncePerPass(recorded)
      ensures r == Recorded && !cancelRequested ==>
                && recorded == old(recorded) + Logged(pass, batch)
                && LogUpTo(recorded, pass, if batch == [] then start else batch[|batch| - 1])
                && ChangedOnlyLogged(recorded, pass, before, extractions)
      ensures r == ClaimLost ==> !(owned && live)
      ensures (r == Raised ==> faulted) && (cancelRequested ==> cancelAsked)
    {
      hide ChangedOnlyLogged, LogUpTo, OncePerPass, Upserted;
      r, cancelRequested := Recorded, false;
      LogIsOnce(recorded, pass, start);
      var cursor := start;
      for i := 0 to |batch|
        invariant Active() && r == Recorded && !cancelRequested
        invariant cursor == (if i == 0 then start else batch[i - 1])
        invariant LogUpTo(recorded, pass, cursor) && OncePerPass(recorded)
        invariant recorded == old(recorded) + Logged(pass, batch[..i])
        invariant ChangedOnlyLogged(recorded, pass, before, extractions)
      {
        var control, raised := ControlState();
        if raised {
          return Raised, false;
        }
        if control == Some(CancelRequested) {
          cancelRequested := true;
          return;
        }
        var extracted :| extracted in {Ready, NotApplicable, SkippedStatus, FailedStatus};
        var persists := *;
        assert batch[i] in batch;
        ghost var log, ex := recorded, extractions;
        LogGrows(log, pass, cursor, batch[i]);
        LogIsOnce(log + [(pass, batch[i])], pass, batch[i]);
        UpsertIsLogged(log, pass, before, ex, batch[i], extracted);
        UpsertIsLogged(log, pass, before, ex, batch[i], FailedStatus);
        var attempt, retried := ProcessAsset(batch[i], extracted, persists);
        if attempt != Recorded {
          return attempt, false;
        }
        assert Logged(pass, batch[..i + 1]) == Logged(pass, batch[..i]) + [(pass, batch[i])];
        cursor := batch[i];
      }
      assert batch[..|batch|] == batch;
    }

    /** One terminal transition, which failed only on a fault and was cancelled only on request, or none at all. */
    ghost predicate EndsWith(ending: Ending)
      reads `state, `owned, `live, `terminalWrites, `faulted, `cancelAsked
    {
      match ending
      case Finished =>
        || (terminalWrites == 0 && !(owned && live))
        || (terminalWrites == 1 && state == Succeeded)
        || (terminalWrites == 1 && state == Failed && faulted)
        || (terminalWrites == 1 && state == Cancelled && cancelAsked)
      case LostClaim => terminalWrites == 0 && !(owned && live)
      case Propagated => terminalWrites == 0 && faulted
    }

    /** Before every batch: the claim holds, is not to be cancelled, and its lease is extended; or the run is over. */
    method MayGoOn() returns (over: Option<Ending>)
      requires Active()
      modifies `state, `owned, `live, `faulted, `cancelAsked, `terminalWrites
      ensures over == None ==> Active()
      ensures over.Some? ==> EndsWith(over.value) && (terminalWrites == 1 ==> state != Succeeded)
    {
      var ending;
      var control, raised := ControlState();
      if !raised && control == None {
        return Some(LostClaim);
      }
      if !raised && control == Some(CancelRequested) {
        ending := Conclude(Cancelled);
        return Some(ending);
      }
      if !raised {
        var renewed;
        renewed, raised := RenewLease();
        if !raised && !renewed {
          return Some(LostClaim);
        }
      }
      // The batch listing that follows may raise too.
      if !raised {
        raised := *;
      }
      if raised {
        faulted := true;
        ending := Conclude(Failed);
        return Some(ending);
      }
      over := None;
    }

    /**
     * The whole job. It ends, in at most two passes, each recording an asset at most once. It makes one effective
     * terminal transition, or has lost its claim, or its last failure write raised. Success means that the first pass
     * recorded exactly the assets beyond the resume point that it asks for, all of them in a rebuild, and a repair pass
     * exactly the assets still wanted when it began.
     */
    method RunOnce(missing: bool, resumeAt: int, limit: int) returns (ending: Ending)
      requires Ascending(catalog) && forall id :: id in catalog ==> id > 0
      requires state == Running && owned && live && pass == 0 && recorded == [] && terminalWrites == 0
      requires !faulted && !cancelAsked
      modifies this
      ensures pass <= 1 && OncePerPass(recorded)
      ensures EndsWith(ending)
      ensures terminalWrites == 1 && state == Succeeded ==>
                && PassComplete(catalog, recorded, 0, resumeAt, missing, visual, old(extractions))
                && CoveredBeyond(catalog, extractions, if repairs then 0 else resumeAt)
                && (!missing ==> AllRecorded(catalog, recorded, 0, resumeAt))
      ensures terminalWrites == 1 && state == Succeeded && !repairs ==>
                ChangedOnlyLogged(recorded, 0, old(extractions), extractions)
      ensures terminalWrites == 1 && state == Succeeded && repairs ==>
                && ChangedOnlyLogged(recorded, 0, old(extractions), atRepair)
                && PassComplete(catalog, recorded, 1, 0, true, visual, atRepair)
                && ChangedOnlyLogged(recorded, 1, atRepair, extractions)
    {
      hide Batch, Above, ChangedOnlyLogged, LogUpTo, OncePerPass, RecordedListed, PassComplete;
      hide CoveredBeyond, AllRecorded;
      hide Ascending, Logged, Matching, Listed, Wanted, Upserted, Lookup;
      var onlyMissing, cursor, repaired := missing, resumeAt, false;
      ghost var low, before := resumeAt, extractions;
      StartIsOnce();
      PassStarts(catalog, recorded, 0, resumeAt, missing, visual, extractions);
      while true
        invariant Active() && pass == (if repaired then 1 else 0) && LogUpTo(recorded, pass, cursor)
        invariant RecordedListed(catalog, recorded, pass, low, cursor, onlyMissing, visual, before)
        invariant ChangedOnlyLogged(recorded, pass, before, extractions)
        invariant !repaired ==> before == old(extractions) && onlyMissing == missing && low == resumeAt
        invariant repaired ==> repairs && onlyMissing && before == atRepair && low == 0
        invariant repaired ==> PassComplete(catalog, recorded, 0, resumeAt, missing, visual, old(extractions))
        invariant repaired ==> ChangedOnlyLogged(recorded, 0, old(extractions), atRepair)
        decreases if repaired then 0 else 1, Above(catalog, cursor)
      {
        LogIsOnce(recorded, pass, cursor);
        var over := MayGoOn();
        if over.Some? {
          return over.value;
        }
        var batch := Batch(catalog, cursor, onlyMissing, visual, extractions, limit);
        if batch == [] {
          MissesNothing(catalog, recorded, pass, low, cursor, onlyMissing, visual, before, extractions, limit);
          if repairs && !repaired {
            NextPassStarts(catalog, recorded, pass, cursor, visual, extractions);
            repaired, onlyMissing, cursor := true, true, 0;
            low, before, atRepair, pass := 0, extractions, extractions, 1;
            continue;
          }
          CompleteCovers(catalog, recorded, pass, low, onlyMissing, visual, before, extractions);
          RebuildRecordsAll(catalog, recorded, resumeAt, visual, old(extractions));
          ending := Conclude(Succeeded);
          return;
        }
        BatchIsExact(catalog, cursor, onlyMissing, visual, extractions, limit);
        var last := batch[|batch| - 1];
        assert last in batch;
        AboveShrinks(catalog, cursor, last);
        BatchCarriesOn(catalog, recorded, pass, low, cursor, onlyMissing, visual, before, extractions, limit);
        if repaired {
          LoggedPass(1, batch);
          ghost var more := Logged(1, batch);
          EarlierPassStands(catalog, recorded, more, 0, resumeAt, missing, visual, old(extractions), atRepair);
        }
        var r, cancelRequested := ProcessBatch(batch, cursor, before);
        if cancelRequested {
          ending := Conclude(Cancelled);
          return;
        }
        if r == ClaimLost {
          return LostClaim;
        }
        if r == Raised {
          ending := Conclude(Failed);
          return;
        }
        cursor := last;
      }
    }

    lemma StartIsOnce()
      requires recorded == []
      ensures OncePerPass(recorded) && forall i :: 0 <= i < |recorded| ==> recorded[i].0 < 0
    {
    }
  }
}
