/**
 * Recovery of abandoned derivative jobs, backend/integrity_checker.py: rows are collected on a snapshot, their
 * files are checked outside the database, and each row is then repaired by writes fenced on the row's own state.
 */
module IntegrityChecker {
  import opened Prelude

  const MAX_ATTEMPTS := 3

  datatype JobState = Queued | Running | Done | Failed | Skipped

  datatype ResultCode = AssetInactive | SourceMissing | SourceChanged | AttemptsExhausted

  datatype Job = Job(
    state: JobState, token: Option<int>, lease: Option<int>, result: Option<ResultCode>,
    started: Option<int>, completed: Option<int>)

  /** derivative_jobs by id, and the status column of asset_derivatives by id. */
  datatype Tables = Tables(jobs: map<int, Job>, status: map<int, JobState>)

  datatype Asset = Asset(path: string, image: bool, deleted: bool, offline: bool, mtime: Option<int>, size: Option<int>)

  /** A running job with an expired lease, as the snapshot saw it. */
  datatype Row = Row(
    job: int, derivative: int, attempts: int, token: Option<int>, sourceMtime: int, sourceSize: int,
    asset: Option<Asset>)

  /** A collected row and the clock when its write is made. */
  datatype Turn = Turn(row: Row, now: int)

  /** File identities read after the snapshot: modification time and size, or nothing for a missing file. */
  type Stats = map<string, Option<(int, int)>>

  function Inapplicable(r: Row, stats: Stats): Option<ResultCode> {
    if r.asset.None? || r.asset.value.deleted || r.asset.value.offline || !r.asset.value.image then Some(AssetInactive)
    else
      var a := r.asset.value;
      if a.path !in stats || stats[a.path].None? then Some(SourceMissing)
      else
        var (mtime, size) := stats[a.path].value;
        if a.mtime.None? || a.size.None? then Some(SourceChanged)
        else if mtime != r.sourceMtime || size != r.sourceSize then Some(SourceChanged)
        else if a.mtime.value != r.sourceMtime || a.size.value != r.sourceSize then Some(SourceChanged)
        else None
  }

  /** Where the job goes: skipped when its source is gone or changed, failed when attempts ran out, else retried. */
  function Verdict(r: Row, stats: Stats): (v: (JobState, Option<ResultCode>))
    ensures v.0 in {Queued, Skipped, Failed}
  {
    var code := Inapplicable(r, stats);
    if code.Some? then (Skipped, code)
    else if r.attempts >= MAX_ATTEMPTS then (Failed, Some(AttemptsExhausted))
    else (Queued, None)
  }

  /** The fence of the write: still running, under the snapshotted token, with the lease still expired. */
  predicate Abandoned(t: Tables, x: Turn) {
    var id := x.row.job;
    && id in t.jobs && t.jobs[id].state == Running && t.jobs[id].token == x.row.token
    && (t.jobs[id].lease.None? || t.jobs[id].lease.value <= x.now)
  }

  function Moved(j: Job, x: Turn, stats: Stats): Job {
    var (state, code) := Verdict(x.row, stats);
    if state == Queued then Job(state, None, None, code, None, None)
    else Job(state, None, None, code, j.started, Some(x.now))
  }

  datatype Counts = Counts(requeued: nat, skipped: nat, failed: nat)

  function Counted(c: Counts, state: JobState): Counts {
    if state == Queued then c.(requeued := c.requeued + 1)
    else if state == Skipped then c.(skipped := c.skipped + 1)
    else c.(failed := c.failed + 1)
  }

  function Plus(a: Counts, b: Counts): Counts {
    Counts(a.requeued + b.requeued, a.skipped + b.skipped, a.failed + b.failed)
  }

  function Step(t: Tables, x: Turn, stats: Stats): Tables {
    var r := x.row;
    if Abandoned(t, x)
    then
      Tables(t.jobs[r.job := Moved(t.jobs[r.job], x, stats)],
             if r.derivative in t.status then t.status[r.derivative := Verdict(r, stats).0] else t.status)
    else t
  }

  /** One pass over the collected rows: the new tables and the transitions made. */
  function Pass(t: Tables, turns: seq<Turn>, stats: Stats): (Tables, Counts) {
    if turns == [] then (t, Counts(0, 0, 0))
    else
      var (s, c) := Pass(t, turns[..|turns| - 1], stats);
      var x := turns[|turns| - 1];
      (Step(s, x, stats), if Abandoned(s, x) then Counted(c, Verdict(x.row, stats).0) else c)
  }

  ghost predicate DistinctJobs(turns: seq<Turn>) {
    forall i, j :: 0 <= i < j < |turns| ==> turns[i].row.job != turns[j].row.job
  }

  /** A job is applicable for a retry iff its asset is live and neither file nor catalog has moved on. */
  lemma RetriedIff(r: Row, stats: Stats)
    ensures Verdict(r, stats).0 == Queued <==>
              && r.attempts < 3 && r.asset.Some?
              && var a := r.asset.value;
              && a.image && !a.deleted && !a.offline
              && a.path in stats && stats[a.path] == Some((r.sourceMtime, r.sourceSize))
              && a.mtime == Some(r.sourceMtime) && a.size == Some(r.sourceSize)
  {
    if r.asset.Some? && r.asset.value.path in stats && stats[r.asset.value.path].Some? {
      var identity := stats[r.asset.value.path].value;
      assert identity == (identity.0, identity.1);
    }
  }

  predicate IsLiveImage(r: Row) {
    r.asset.Some? && r.asset.value.image && !r.asset.value.deleted && !r.asset.value.offline
  }

  predicate HasFile(r: Row, stats: Stats) {
    IsLiveImage(r) && r.asset.value.path in stats && stats[r.asset.value.path].Some?
  }

  /** File and catalog are still what the job was made for. */
  predicate IsApplicable(r: Row, stats: Stats) {
    && HasFile(r, stats) && stats[r.asset.value.path].value == (r.sourceMtime, r.sourceSize)
    && r.asset.value.mtime == Some(r.sourceMtime) && r.asset.value.size == Some(r.sourceSize)
  }

  /** Each of the five verdicts is passed in exactly one situation; the first missing condition gives the code. */
  lemma VerdictIs(r: Row, stats: Stats)
    ensures Verdict(r, stats) == (Skipped, Some(AssetInactive)) <==> !IsLiveImage(r)
    ensures Verdict(r, stats) == (Skipped, Some(SourceMissing)) <==> IsLiveImage(r) && !HasFile(r, stats)
    ensures Verdict(r, stats) == (Skipped, Some(SourceChanged)) <==> HasFile(r, stats) && !IsApplicable(r, stats)
    ensures Verdict(r, stats) == (Failed, Some(AttemptsExhausted)) <==> IsApplicable(r, stats) && r.attempts >= 3
    ensures Verdict(r, stats) == (Queued, None) <==> IsApplicable(r, stats) && r.attempts < 3
  {
    if HasFile(r, stats) {
      var identity := stats[r.asset.value.path].value;
      assert identity == (identity.0, identity.1);
    }
  }

  /** A job that is not abandoned stays as it is; an abandoned one is retried, failed or skipped, without its claim. */
  predicate Settles(before: Job, x: Turn, stats: Stats, after: Job) {
    var (r, now) := (x.row, Some(x.now));
    if before.state != Running || before.token != r.token || (before.lease.Some? && before.lease.value > x.now)
    then after == before
    else if !IsLiveImage(r) then after == Job(Skipped, None, None, Some(AssetInactive), before.started, now)
    else if !HasFile(r, stats) then after == Job(Skipped, None, None, Some(SourceMissing), before.started, now)
    else if !IsApplicable(r, stats) then after == Job(Skipped, None, None, Some(SourceChanged), before.started, now)
    else if r.attempts >= 3 then after == Job(Failed, None, None, Some(AttemptsExhausted), before.started, now)
    else after == Job(Queued, None, None, None, None, None)
  }

  lemma PassSettles(t: Tables, turns: seq<Turn>, stats: Stats, k: nat)
    requires DistinctJobs(turns) && k < |turns| && turns[k].row.job in t.jobs
    ensures var u, job := Pass(t, turns, stats).0, turns[k].row.job;
      job in u.jobs && Settles(t.jobs[job], turns[k], stats, u.jobs[job])
  {
    StaleSnapshotIsSafe(t, turns, stats, k);
    VerdictIs(turns[k].row, stats);
    hide Pass, Verdict, IsApplicable, HasFile, IsLiveImage;
  }

  /** What a pass makes of every listed job. */
  ghost predicate AllSettled(before: map<int, Job>, turns: seq<Turn>, stats: Stats, after: map<int, Job>) {
    forall k :: 0 <= k < |turns| && turns[k].row.job in before ==>
      var job := turns[k].row.job; job in after && Settles(before[job], turns[k], stats, after[job])
  }

  lemma PassSettlesAll(t: Tables, turns: seq<Turn>, stats: Stats)
    ensures DistinctJobs(turns) ==> AllSettled(t.jobs, turns, stats, Pass(t, turns, stats).0.jobs)
  {
    hide Pass, Settles;
    if DistinctJobs(turns) {
      forall k | 0 <= k < |turns| && turns[k].row.job in t.jobs
        ensures var u, job := Pass(t, turns, stats).0, turns[k].row.job;
          job in u.jobs && Settles(t.jobs[job], turns[k], stats, u.jobs[job])
      {
        PassSettles(t, turns, stats, k);
      }
    }
  }

  lemma {:induction false} OthersUntouched(t: Tables, turns: seq<Turn>, stats: Stats, job: int, derivative: int)
    ensures var u := Pass(t, turns, stats).0;
      && u.jobs.Keys == t.jobs.Keys && u.status.Keys == t.status.Keys
      && ((forall k :: 0 <= k < |turns| ==> turns[k].row.job != job) && job in t.jobs ==> u.jobs[job] == t.jobs[job])
      && ((forall k :: 0 <= k < |turns| ==> turns[k].row.derivative != derivative) && derivative in t.status ==>
            u.status[derivative] == t.status[derivative])
  {
    if turns != [] {
      OthersUntouched(t, turns[..|turns| - 1], stats, job, derivative);
    }
  }

  lemma {:induction false} FenceStands(t: Tables, turns: seq<Turn>, stats: Stats, x: Turn)
    requires forall k :: 0 <= k < |turns| ==> turns[k].row.job != x.row.job
    ensures Abandoned(Pass(t, turns, stats).0, x) == Abandoned(t, x)
  {
    OthersUntouched(t, turns, stats, x.row.job, 0);
  }

  /**
   * Whatever happened since the snapshot, a job changes iff it is listed and is at this moment running under the
   * listed token with an expired lease; then it gets the verdict and loses its claim.
   */
  lemma {:induction false} StaleSnapshotIsSafe(t: Tables, turns: seq<Turn>, stats: Stats, k: nat)
    requires DistinctJobs(turns) && k < |turns| && turns[k].row.job in t.jobs
    ensures var u, job := Pass(t, turns, stats).0, turns[k].row.job;
      && job in u.jobs
      && (u.jobs[job] != t.jobs[job] <==> Abandoned(t, turns[k]))
      && (Abandoned(t, turns[k]) ==>
            && u.jobs[job] == Moved(t.jobs[job], turns[k], stats)
            && u.jobs[job].state != Running && u.jobs[job].token.None?)
  {
    var front, last := turns[..|turns| - 1], turns[|turns| - 1];
    OthersUntouched(t, front, stats, turns[k].row.job, 0);
    if k < |turns| - 1 {
      StaleSnapshotIsSafe(t, front, stats, k);
      assert front[k] == turns[k];
    } else {
      FenceStands(t, front, stats, last);
    }
  }

  function CountAbandoned(t: Tables, turns: seq<Turn>): nat {
    if turns == [] then 0
    else CountAbandoned(t, turns[..|turns| - 1]) + if Abandoned(t, turns[|turns| - 1]) then 1 else 0
  }

  function CountVerdict(t: Tables, turns: seq<Turn>, stats: Stats, state: JobState): nat {
    if turns == [] then 0
    else
      var x := turns[|turns| - 1];
      CountVerdict(t, turns[..|turns| - 1], stats, state)
      + if Abandoned(t, x) && Verdict(x.row, stats).0 == state then 1 else 0
  }

  /** The counters are exactly the transitions: the listed jobs that were abandoned, by verdict. */
  lemma {:induction false} CountsAreTransitions(t: Tables, turns: seq<Turn>, stats: Stats)
    requires DistinctJobs(turns)
    ensures var c := Pass(t, turns, stats).1;
      && c.requeued == CountVerdict(t, turns, stats, Queued)
      && c.skipped == CountVerdict(t, turns, stats, Skipped)
      && c.failed == CountVerdict(t, turns, stats, Failed)
      && c.requeued + c.skipped + c.failed == CountAbandoned(t, turns)
  {
    hide Verdict, Moved;
    if turns != [] {
      var front, last := turns[..|turns| - 1], turns[|turns| - 1];
      CountsAreTransitions(t, front, stats);
      FenceStands(t, front, stats, last);
    }
  }

  /** The verdict of the last abandoned listed job of one derivative. */
  function LastVerdict(t: Tables, turns: seq<Turn>, stats: Stats, derivative: int): Option<JobState> {
    if turns == [] then None
    else
      var x := turns[|turns| - 1];
      if x.row.derivative == derivative && Abandoned(t, x) then Some(Verdict(x.row, stats).0)
      else LastVerdict(t, turns[..|turns| - 1], stats, derivative)
  }

  /** A derivative ends with the last verdict passed on it, and keeps its status when there is none. */
  lemma {:induction false} StatusIsLastVerdict(t: Tables, turns: seq<Turn>, stats: Stats, derivative: int)
    requires DistinctJobs(turns) && derivative in t.status
    ensures derivative in Pass(t, turns, stats).0.status
    ensures Pass(t, turns, stats).0.status[derivative] ==
            LastVerdict(t, turns, stats, derivative).GetOr(t.status[derivative])
  {
    if turns != [] {
      var front, last := turns[..|turns| - 1], turns[|turns| - 1];
      StatusIsLastVerdict(t, front, stats, derivative);
      FenceStands(t, front, stats, last);
    }
  }

  /** After the pass the job and its derivative are in the same state. */
  ghost predicate Agree(u: Tables, r: Row) {
    r.job in u.jobs && r.derivative in u.status && u.jobs[r.job].state == u.status[r.derivative]
  }

  /** An abandoned job agrees with its derivative iff the last verdict on the derivative is its own. */
  lemma JobAndDerivativeAgreeIff(t: Tables, turns: seq<Turn>, stats: Stats, k: nat)
    requires DistinctJobs(turns) && k < |turns| && Abandoned(t, turns[k]) && turns[k].row.derivative in t.status
    ensures Agree(Pass(t, turns, stats).0, turns[k].row) <==>
            LastVerdict(t, turns, stats, turns[k].row.derivative) == Some(Verdict(turns[k].row, stats).0)
  {
    StaleSnapshotIsSafe(t, turns, stats, k);
    StatusIsLastVerdict(t, turns, stats, turns[k].row.derivative);
    var last := SomeVerdict(t, turns, stats, k);
  }

  /** A derivative with an abandoned job has a last verdict, and it is that of an abandoned job of the derivative. */
  lemma {:induction false} SomeVerdict(t: Tables, turns: seq<Turn>, stats: Stats, k: nat) returns (last: nat)
    requires k < |turns| && Abandoned(t, turns[k])
    ensures last < |turns| && Abandoned(t, turns[last]) && turns[last].row.derivative == turns[k].row.derivative
    ensures LastVerdict(t, turns, stats, turns[k].row.derivative) == Some(Verdict(turns[last].row, stats).0)
  {
    var x := turns[|turns| - 1];
    if x.row.derivative == turns[k].row.derivative && Abandoned(t, x) {
      last := |turns| - 1;
    } else {
      last := SomeVerdict(t, turns[..|turns| - 1], stats, k);
    }
  }

  /** Abandoned jobs of one derivative get the same verdict. */
  ghost predicate OneVerdictEach(t: Tables, turns: seq<Turn>, stats: Stats) {
    forall i, j :: 0 <= i < |turns| && 0 <= j < |turns| && Abandoned(t, turns[i]) && Abandoned(t, turns[j])
      && turns[i].row.derivative == turns[j].row.derivative && turns[i].row.derivative in t.status
      ==> Verdict(turns[i].row, stats).0 == Verdict(turns[j].row, stats).0
  }

  /** The pass leaves every abandoned job beside its derivative iff it passes one verdict on each derivative. */
  lemma AllAgreeIff(t: Tables, turns: seq<Turn>, stats: Stats)
    requires DistinctJobs(turns)
    ensures OneVerdictEach(t, turns, stats) <==>
            forall k :: 0 <= k < |turns| && Abandoned(t, turns[k]) && turns[k].row.derivative in t.status ==>
              Agree(Pass(t, turns, stats).0, turns[k].row)
  {
    forall k | 0 <= k < |turns| && Abandoned(t, turns[k]) && turns[k].row.derivative in t.status
      ensures OneVerdictEach(t, turns, stats) ==> Agree(Pass(t, turns, stats).0, turns[k].row)
      ensures Agree(Pass(t, turns, stats).0, turns[k].row) ==>
        LastVerdict(t, turns, stats, turns[k].row.derivative) == Some(Verdict(turns[k].row, stats).0)
    {
      JobAndDerivativeAgreeIff(t, turns, stats, k);
      var last := SomeVerdict(t, turns, stats, k);
    }
    hide Pass, Verdict, Abandoned, LastVerdict, Agree;
  }

  const TWO_CLAIMS := map[
    1 := Job(Running, None, None, None, None, None),
    2 := Job(Running, None, None, None, None, None)]

  /** Two abandoned jobs of one derivative, the first out of attempts: a failed job beside a requeued derivative. */
  lemma SharedDerivativeDisagrees(asset: Asset)
    requires asset.image && !asset.deleted && !asset.offline && asset.mtime == Some(5) && asset.size == Some(9)
    ensures var t, stats: Stats := Tables(TWO_CLAIMS, map[7 := Running]), map[asset.path := Some((5, 9))];
      var turns := [Turn(Row(1, 7, 3, None, 5, 9, Some(asset)), 0), Turn(Row(2, 7, 0, None, 5, 9, Some(asset)), 0)];
      !Agree(Pass(t, turns, stats).0, turns[0].row) && Agree(Pass(t, turns, stats).0, turns[1].row)
  {
    var t, stats: Stats := Tables(TWO_CLAIMS, map[7 := Running]), map[asset.path := Some((5, 9))];
    var turns := [Turn(Row(1, 7, 3, None, 5, 9, Some(asset)), 0), Turn(Row(2, 7, 0, None, 5, 9, Some(asset)), 0)];
    assert LastVerdict(t, turns, stats, 7) == Some(Queued);
    JobAndDerivativeAgreeIff(t, turns, stats, 0);
    JobAndDerivativeAgreeIff(t, turns, stats, 1);
  }

  lemma {:induction false} PassOfParts(t: Tables, a: seq<Turn>, b: seq<Turn>, stats: Stats)
    ensures var (s, c) := Pass(t, a, stats);
      var (u, d) := Pass(s, b, stats);
      Pass(t, a + b, stats) == (u, Plus(c, d))
  {
    if b == [] {
      assert a + b == a;
    } else {
      hide Pass, Step, Verdict, Abandoned;
      var front, x := b[..|b| - 1], b[|b| - 1];
      PassOfParts(t, a, front, stats);
      assert (a + b)[..|a + b| - 1] == a + front && (a + b)[|a + b| - 1] == x;
      PassUnfolds(t, a + b, stats);
      PassUnfolds(Pass(t, a, stats).0, b, stats);
    }
  }

  lemma PassUnfolds(t: Tables, turns: seq<Turn>, stats: Stats)
    requires turns != []
    ensures var (s, c) := Pass(t, turns[..|turns| - 1], stats);
      var x := turns[|turns| - 1];
      Pass(t, turns, stats) == (Step(s, x, stats), if Abandoned(s, x) then Counted(c, Verdict(x.row, stats).0) else c)
  {
  }

  /** One writer operation: the tables it found, its turns, the tables it left and what it counted. */
  datatype Operation = Operation(before: Tables, turns: seq<Turn>, after: Tables, counts: Counts)

  /** Each operation is one pass over its own rows, from the tables it found. */
  predicate Performs(op: Operation, stats: Stats) {
    (op.after, op.counts) == Pass(op.before, op.turns, stats)
  }

  /** The tables when the operations are over. */
  function End(ops: seq<Operation>, start: Tables): Tables {
    if ops == [] then start else ops[|ops| - 1].after
  }

  /** Nobody else wrote before the first operation or between two of them. */
  predicate Quiet(ops: seq<Operation>, start: Tables) {
    ops == [] || (Quiet(ops[..|ops| - 1], start) && ops[|ops| - 1].before == End(ops[..|ops| - 1], start))
  }

  function AllTurns(ops: seq<Operation>): seq<Turn> {
    if ops == [] then [] else AllTurns(ops[..|ops| - 1]) + ops[|ops| - 1].turns
  }

  function AllCounts(ops: seq<Operation>): Counts {
    if ops == [] then Counts(0, 0, 0) else Plus(AllCounts(ops[..|ops| - 1]), ops[|ops| - 1].counts)
  }

  /** Undisturbed operations make together one pass over all rows. */
  lemma {:induction false} QuietIsOnePass(ops: seq<Operation>, start: Tables, stats: Stats)
    requires Quiet(ops, start) && forall op :: op in ops ==> Performs(op, stats)
    ensures Pass(start, AllTurns(ops), stats) == (End(ops, start), AllCounts(ops))
  {
    if ops != [] {
      var front, last := ops[..|ops| - 1], ops[|ops| - 1];
      assert last in ops;
      QuietIsOnePass(front, start, stats);
      PassOfParts(start, AllTurns(front), last.turns, stats);
    }
  }

  /** The turns serve exactly these rows in their order, and the clock does not run back. */
  ghost predicate Serves(turns: seq<Turn>, rows: seq<Row>, low: int, high: int) {
    && |turns| == |rows|
    && (forall k :: 0 <= k < |rows| ==> turns[k].row == rows[k] && low <= turns[k].now <= high)
    && (forall i, j :: 0 <= i < j < |turns| ==> turns[i].now <= turns[j].now)
  }

  lemma ServesJoin(a: seq<Turn>, b: seq<Turn>, ra: seq<Row>, rb: seq<Row>, low: int, middle: int, other: int, high: int)
    requires Serves(a, ra, low, middle) && Serves(b, rb, other, high) && low <= middle <= other <= high
    ensures Serves(a + b, ra + rb, low, high)
  {
  }

  lemma ServesNext(turns: seq<Turn>, rows: seq<Row>, low: int, high: int, x: Turn)
    requires Serves(turns, rows, low, high) && low <= high <= x.now
    ensures Serves(turns + [x], rows + [x.row], low, x.now)
  {
  }

  class DerivativeStore {
    var jobs: map<int, Job>
    var status: map<int, JobState>
    var clock: int

    function Rows(): Tables
      reads `jobs, `status
    {
      Tables(jobs, status)
    }

    /** Time passes. */
    method Tick()
      modifies `clock
      ensures old(clock) <= clock
    {
      var later :| clock <= later;
      clock := later;
    }

    /** Between two operations other writers may change both tables in any way. */
    method Interfere()
      modifies this
      ensures old(clock) <= clock
    {
      jobs, status := *, *;
      Tick();
    }

    /** One writer operation over some of the collected rows; each row is judged by the clock at its own write. */
    method CheckAbandonedJobs(rows: seq<Row>, stats: Stats) returns (counts: Counts, ghost turns: seq<Turn>)
      modifies this
      ensures old(clock) <= clock && Serves(turns, rows, old(clock), clock)
      ensures (Rows(), counts) == Pass(old(Rows()), turns, stats)
      ensures DistinctJobs(turns) ==> AllSettled(old(jobs), turns, stats, jobs)
    {
      counts, turns := Counts(0, 0, 0), [];
      for i := 0 to |rows|
        invariant old(clock) <= clock && Serves(turns, rows[..i], old(clock), clock)
        invariant (Rows(), counts) == Pass(old(Rows()), turns, stats)
      {
        hide Pass, Serves, Inapplicable;
        ghost var reached := clock;
        Tick();
        var r := rows[i];
        var (state, code) := Verdict(r, stats);
        ghost var x := Turn(r, clock);
        ServesNext(turns, rows[..i], old(clock), reached, x);
        PassUnfolds(old(Rows()), turns + [x], stats);
        assert (turns + [x])[..|turns + [x]| - 1] == turns && rows[..i] + [r] == rows[..i + 1];
        if Abandoned(Rows(), Turn(r, clock)) {
          var retried := state == Queued;
          jobs := jobs[r.job := Job(state, None, None, code,
            if retried then None else jobs[r.job].started, if retried then None else Some(clock))];
          status := if r.derivative in status then status[r.derivative := state] else status;
          counts := Counted(counts, state);
        }
        turns := turns + [x];
      }
      assert rows[..|rows|] == rows;
      PassSettlesAll(old(Rows()), turns, stats);
    }

    /**
     * The same repair in bounded transactions with other writers in between. Every collected row is served once, in
     * order, by one operation of at most chunkSize rows, judged by the tables and the clock of that moment; the totals
     * are those of the operations; and when nobody else writes, the whole is one pass.
     */
    method ApplyInChunks(rows: seq<Row>, stats: Stats, chunkSize: nat)
      returns (totals: Counts, ghost ops: seq<Operation>)
      requires chunkSize >= 1
      modifies this
      ensures forall op :: op in ops ==> Performs(op, stats) && 0 < |op.turns| <= chunkSize
      ensures old(clock) <= clock && Serves(AllTurns(ops), rows, old(clock), clock)
      ensures totals == AllCounts(ops)
      ensures Rows() == End(ops, old(Rows()))
      ensures Quiet(ops, old(Rows())) ==> (Rows(), totals) == Pass(old(Rows()), AllTurns(ops), stats)
    {
      hide Quiet;
      totals, ops := Counts(0, 0, 0), [];
      var start := 0;
      while start < |rows|
        invariant 0 <= start <= |rows| && old(clock) <= clock
        invariant forall op :: op in ops ==> Performs(op, stats) && 0 < |op.turns| <= chunkSize
        invariant Serves(AllTurns(ops), rows[..start], old(clock), clock)
        invariant totals == AllCounts(ops)
        invariant Rows() == End(ops, old(Rows()))
      {
        hide Pass, Serves, Verdict, Abandoned;
        ghost var reached := clock;
        Interfere();
        var end := if start + chunkSize <= |rows| then start + chunkSize else |rows|;
        ghost var before, began := Rows(), clock;
        var counts, turns := CheckAbandonedJobs(rows[start..end], stats);
        ServedRows(turns, rows[start..end], began, clock);
        ServesJoin(AllTurns(ops), turns, rows[..start], rows[start..end], old(clock), reached, began, clock);
        assert rows[..start] + rows[start..end] == rows[..end];
        ghost var op := Operation(before, turns, Rows(), counts);
        assert (ops + [op])[..|ops|] == ops;
        ops := ops + [op];
        totals := Plus(totals, counts);
        start := end;
      }
      assert rows[..|rows|] == rows;
      if Quiet(ops, old(Rows())) {
        QuietIsOnePass(ops, old(Rows()), stats);
      }
    }

    lemma ServedRows(turns: seq<Turn>, rows: seq<Row>, low: int, high: int)
      requires Serves(turns, rows, low, high)
      ensures |turns| == |rows|
    {
    }
  }
}
