/**
 * The durable metadata job protocol: the worker of backend/indexer.py over the claim, lease and
 * recovery writes of backend/metadata_store/metadata_queue.py. Every writer operation is one atomic
 * step; steps of any number of worker threads, heartbeats, the supervisor and dispatch interleave freely.
 */
module MetadataStore {
  import opened Ordering
  import opened Prelude

  const LEASE: int := 300
  const MAX_ATTEMPTS := 3

  type Path = string
  type Token = nat

  datatype JobState = Queued | Running | Done | Failed | Stale | Skipped

  /**
   * A row of metadata_index_jobs; version stands for the (mtime, size) identity of the file. The queue serves lower
   * priority numbers first.
   */
  datatype Row = Row(
    version: int, state: JobState, attempts: nat, token: Option<Token>, lease: Option<int>, dueAt: Option<int>,
    priority: int, queuedAt: int)

  type Rows = map<Path, Row>

  /** A claim as a worker holds it in memory. */
  datatype Job = Job(path: Path, version: int, attempts: nat, token: Token)

  predicate Owns(rows: Rows, j: Job) {
    j.path in rows && rows[j.path].state == Running && rows[j.path].token == Some(j.token)
  }

  /** The guard of a terminal write: the claim and the file identity. */
  predicate Fenced(rows: Rows, j: Job) {
    Owns(rows, j) && rows[j.path].version == j.version
  }

  function Unclaimed(r: Row, state: JobState): Row {
    r.(state := state, token := None, lease := None, dueAt := None)
  }

  function ClaimedRow(r: Row, token: Token, now: int): Row {
    r.(state := Running, attempts := r.attempts + 1, token := Some(token), lease := Some(now + LEASE), dueAt := None)
  }

  function RenewRow(rows: Rows, j: Job, until: int): Rows {
    if Owns(rows, j) then rows[j.path := rows[j.path].(lease := Some(until))] else rows
  }

  function ReleaseRow(rows: Rows, j: Job): Rows {
    if Owns(rows, j)
    then
      var r := rows[j.path];
      rows[j.path := Unclaimed(r, Queued).(attempts := if r.attempts == 0 then 0 else r.attempts - 1)]
    else rows
  }

  function ReleaseAll(rows: Rows, jobs: seq<Job>): Rows {
    if jobs == [] then rows else ReleaseRow(ReleaseAll(rows, jobs[..|jobs| - 1]), jobs[|jobs| - 1])
  }

  predicate Expired(r: Row, now: int) {
    r.token.None? || r.lease.None? || r.lease.value <= now
  }

  predicate Recoverable(r: Row, expiredOnly: bool, now: int) {
    r.state == Running && (expiredOnly ==> Expired(r, now))
  }

  function RecoveredRow(r: Row): Row {
    Unclaimed(r, if r.attempts >= MAX_ATTEMPTS then Failed else Queued)
  }

  function Recover(rows: Rows, expiredOnly: bool, now: int): Rows {
    map p | p in rows :: if Recoverable(rows[p], expiredOnly, now) then RecoveredRow(rows[p]) else rows[p]
  }

  /** Claimable: queued and past its retry backoff. */
  predicate Due(rows: Rows, now: int, p: Path) {
    p in rows && rows[p].state == Queued && (rows[p].dueAt.Some? ==> rows[p].dueAt.value <= now)
  }

  const LOWEST_PRIORITY := 3

  function Upserted(rows: Rows, p: Path, version: int, priority: int, now: int): Rows {
    var attempts := if p in rows && rows[p].version == version then rows[p].attempts else 0;
    var kept := if p in rows && rows[p].priority <= priority then rows[p].priority else priority;
    rows[p := Row(version, Queued, attempts, None, None, None, kept, now)]
  }

  /** The priority of live work that is dispatched again; a stored 0 counts as the lowest. */
  function Coalesced(stored: int, priority: int): int {
    if priority < (if stored == 0 then LOWEST_PRIORITY else stored) then priority else stored
  }

  function Clamped(priority: int): int {
    if priority < 0 then 0 else if priority > LOWEST_PRIORITY then LOWEST_PRIORITY else priority
  }

  /** Dispatch of one new or changed file: coalesce with live work on the same version, else (re)queue. */
  function DispatchRow(rows: Rows, now: int, p: Path, version: int, wanted: int): Rows {
    var priority := Clamped(wanted);
    if p !in rows || rows[p].version != version then Upserted(rows, p, version, priority, now)
    else
      var r := if Recoverable(rows[p], true, now) then RecoveredRow(rows[p]) else rows[p];
      if r.state in {Queued, Running} then rows[p := r.(priority := Coalesced(r.priority, priority))]
      else if r.state == Failed && r.attempts >= MAX_ATTEMPTS then rows[p := r]
      else Upserted(rows, p, version, priority, now)
  }

  /** Dispatching a file again keeps the more urgent of the two priorities, unless 0 meets 1 or 2. */
  lemma UrgencyKeptIff(stored: int, priority: int)
    requires 0 <= stored <= LOWEST_PRIORITY && 0 <= priority <= LOWEST_PRIORITY
    ensures Coalesced(stored, priority) == (if stored < priority then stored else priority)
       <==> !(stored == 0 && priority in {1, 2})
  {
  }

  /** A queued file of priority 0 that is dispatched again with priority 2 falls back to priority 2. */
  lemma UrgentFileFallsBack(now: int)
    ensures var r := Row(7, Queued, 0, None, None, None, 0, now);
      DispatchRow(map["a" := r], now, "a", 7, 2) == map["a" := r.(priority := 2)]
  {
  }

  // ---------------------------------------------------------------- the queue

  /** ORDER BY priority, queued_at, path */
  predicate ServedBefore(rows: Rows, p: Path, q: Path) {
    var (a, b) := (if p in rows then rows[p].priority else 0, if q in rows then rows[q].priority else 0);
    var (x, y) := (if p in rows then rows[p].queuedAt else 0, if q in rows then rows[q].queuedAt else 0);
    if a != b then a < b else if x != y then x < y else StringLess(p, q)
  }

  function QueueOrder(rows: Rows): (Path, Path) -> bool {
    (p, q) => ServedBefore(rows, p, q)
  }

  lemma QueueOrderIsTotal(rows: Rows)
    ensures TotalOrder(QueueOrder(rows))
  {
    StringLessIsTotal();
    hide StringLess;
  }

  /** The rows one claim takes: of all due rows the first up to the limit, in queue order. */
  ghost predicate IsQueueHead(rows: Rows, now: int, due: seq<Path>, limit: nat) {
    && |due| <= limit && Sorted(QueueOrder(rows), due)
    && (forall p :: p in due ==> Due(rows, now, p))
    && (forall q :: Due(rows, now, q) && q !in due ==>
          |due| == limit && forall p :: p in due ==> ServedBefore(rows, p, q))
  }

  lemma HeadIsDistinct(rows: Rows, now: int, due: seq<Path>, limit: nat)
    requires IsQueueHead(rows, now, due, limit)
    ensures Distinct(due)
  {
    QueueOrderIsTotal(rows);
    hide QueueOrder, ServedBefore;
  }

  /** Sorting the due rows and cutting the list gives the head of the queue. */
  lemma CutIsHead(rows: Rows, now: int, listing: seq<Path>, limit: nat)
    requires Distinct(listing) && forall p :: p in listing <==> Due(rows, now, p)
    ensures var sorted := Sort(QueueOrder(rows), listing);
      IsQueueHead(rows, now, sorted[..if |sorted| < limit then |sorted| else limit], limit)
  {
    var less := QueueOrder(rows);
    QueueOrderIsTotal(rows);
    SortIsStrict(less, listing);
    SortPermutes(less, listing);
    hide Sort, QueueOrder, Due, IsQueueHead;
    SortedCutIsHead(rows, now, Sort(less, listing), limit);
  }

  lemma SortedCutIsHead(rows: Rows, now: int, sorted: seq<Path>, limit: nat)
    requires Sorted(QueueOrder(rows), sorted) && forall p :: p in sorted <==> Due(rows, now, p)
    ensures IsQueueHead(rows, now, sorted[..if |sorted| < limit then |sorted| else limit], limit)
  {
    hide Due, ServedBefore, QueueOrder, Sorted;
    var n := if |sorted| < limit then |sorted| else limit;
    var head := sorted[..n];
    PrefixIsSorted(QueueOrder(rows), sorted, n);
    forall q | Due(rows, now, q) && q !in head
      ensures n == limit && forall p :: p in head ==> ServedBefore(rows, p, q)
    {
      InTail(sorted, n, q);
      forall p | p in head
        ensures ServedBefore(rows, p, q)
      {
        EarlierIsServed(QueueOrder(rows), sorted, n, p, q);
        OrderMeans(rows, p, q);
      }
    }
  }

  lemma InTail(s: seq<Path>, n: nat, q: Path)
    requires n <= |s| && q in s && q !in s[..n]
    ensures q in s[n..] && n < |s|
  {
    assert s == s[..n] + s[n..];
  }

  lemma OrderMeans(rows: Rows, p: Path, q: Path)
    ensures QueueOrder(rows)(p, q) == ServedBefore(rows, p, q)
  {
  }

  lemma PrefixIsSorted(less: (Path, Path) -> bool, s: seq<Path>, n: nat)
    requires n <= |s| && Sorted(less, s)
    ensures Sorted(less, s[..n]) && forall p :: p in s[..n] ==> p in s
  {
  }

  lemma EarlierIsServed(less: (Path, Path) -> bool, s: seq<Path>, n: nat, p: Path, q: Path)
    requires n <= |s| && Sorted(less, s) && p in s[..n] && q in s[n..]
    ensures less(p, q)
  {
    var i :| 0 <= i < n && s[..n][i] == p;
    var j :| 0 <= j < |s| - n && s[n..][j] == q;
    assert less(s[i], s[n + j]);
  }

  /** Claiming one by one: each time the head of the queue as it then is. */
  ghost predicate ClaimsOneByOne(rows: Rows, now: int, due: seq<Path>, token: Token)
    decreases |due|
  {
    due != [] ==>
      && IsQueueHead(rows, now, [due[0]], 1) && due[0] in rows
      && ClaimsOneByOne(rows[due[0] := ClaimedRow(rows[due[0]], token, now)], now, due[1..], token + 1)
  }

  /** A batch takes exactly the rows that repeated single claims would take, in their order. */
  lemma {:induction false} BatchIsSingleClaims(rows: Rows, now: int, due: seq<Path>, limit: nat, token: Token)
    requires IsQueueHead(rows, now, due, limit)
    ensures ClaimsOneByOne(rows, now, due, token)
    decreases |due|
  {
    if due != [] {
      var p, rest := due[0], due[1..];
      assert due == [p] + rest && p in due;
      var after := rows[p := ClaimedRow(rows[p], token, now)];
      RestIsHead(rows, now, due, limit, after);
      BatchIsSingleClaims(after, now, rest, limit - 1, token + 1);
      FirstIsHead(rows, now, due, limit);
    }
  }

  lemma FirstIsHead(rows: Rows, now: int, due: seq<Path>, limit: nat)
    requires IsQueueHead(rows, now, due, limit) && due != []
    ensures IsQueueHead(rows, now, [due[0]], 1)
  {
    assert due[0] in due;
    forall q | Due(rows, now, q) && q != due[0]
      ensures ServedBefore(rows, due[0], q)
    {
      if q in due {
        var i :| 0 <= i < |due| && due[i] == q;
        assert QueueOrder(rows)(due[0], due[i]);
      }
    }
  }

  lemma RestIsHead(rows: Rows, now: int, due: seq<Path>, limit: nat, after: Rows)
    requires IsQueueHead(rows, now, due, limit) && due != [] && due[0] in rows
    requires exists k :: after == rows[due[0] := ClaimedRow(rows[due[0]], k, now)]
    ensures IsQueueHead(after, now, due[1..], limit - 1)
  {
    var p, rest := due[0], due[1..];
    assert due == [p] + rest;
    HeadIsDistinct(rows, now, due, limit);
    forall q, u
      ensures ServedBefore(after, q, u) == ServedBefore(rows, q, u)
    {
    }
    forall i, j | 0 <= i < j < |rest|
      ensures QueueOrder(after)(rest[i], rest[j])
    {
      assert QueueOrder(rows)(due[i + 1], due[j + 1]);
    }
    forall q
      ensures Due(after, now, q) <==> Due(rows, now, q) && q != p
    {
    }
    hide Due, ServedBefore, QueueOrder;
    forall q | q in rest
      ensures q in due && q != p
    {
      var i :| 0 <= i < |rest| && rest[i] == q;
      assert due[i + 1] == q;
    }
  }

  lemma HeadIsEmptyIff(rows: Rows, now: int, due: seq<Path>, limit: nat)
    requires IsQueueHead(rows, now, due, limit)
    ensures due == [] <==> limit == 0 || forall p :: !Due(rows, now, p)
  {
    if due != [] {
      assert due[0] in due;
    }
  }

  /** The queue has one head only. */
  lemma HeadIsUnique(rows: Rows, now: int, a: seq<Path>, b: seq<Path>, limit: nat)
    requires IsQueueHead(rows, now, a, limit) && IsQueueHead(rows, now, b, limit)
    ensures a == b
    decreases limit
  {
    HeadIsEmptyIff(rows, now, a, limit);
    HeadIsEmptyIff(rows, now, b, limit);
    if a != [] {
      FirstIsHead(rows, now, a, limit);
      FirstIsHead(rows, now, b, limit);
      assert a[0] in a && b[0] in b;
      SameFirst(rows, now, a[0], b[0]);
      var after := rows[a[0] := ClaimedRow(rows[a[0]], 0, now)];
      RestIsHead(rows, now, a, limit, after);
      RestIsHead(rows, now, b, limit, after);
      HeadIsUnique(after, now, a[1..], b[1..], limit - 1);
      assert a == [a[0]] + a[1..] && b == [b[0]] + b[1..];
    }
  }

  lemma SameFirst(rows: Rows, now: int, p: Path, q: Path)
    requires IsQueueHead(rows, now, [p], 1) && IsQueueHead(rows, now, [q], 1)
    ensures p == q
  {
    NotBothWays(rows, p, q);
    assert p in [p] && q in [q];
  }

  lemma NotBothWays(rows: Rows, p: Path, q: Path)
    ensures !(ServedBefore(rows, p, q) && ServedBefore(rows, q, p))
  {
    QueueOrderIsTotal(rows);
    var less := QueueOrder(rows);
    assert ServedBefore(rows, p, q) == less(p, q) && ServedBefore(rows, q, p) == less(q, p);
    assert less(p, q) && less(q, p) ==> less(p, p);
  }

  lemma PairIsHead(row: Row, now: int)
    requires row.state == Queued && row.dueAt.None?
    ensures IsQueueHead(map["a" := row, "b" := row], now, ["a", "b"], 2)
  {
    assert StringLess("a", "b");
    var rows := map["a" := row, "b" := row];
    assert QueueOrder(rows)("a", "b");
  }

  /** Recovery changes a row iff it is running with no token or with a missing or lapsed lease. */
  lemma RecoveryIsExact(rows: Rows, now: int, p: Path)
    requires p in rows
    ensures p in Recover(rows, true, now)
    ensures Recover(rows, true, now)[p] != rows[p]
       <==> rows[p].state == Running && !(rows[p].token.Some? && rows[p].lease.Some? && rows[p].lease.value > now)
    ensures Recover(rows, true, now)[p] != rows[p] ==>
              Recover(rows, true, now)[p].state == (if rows[p].attempts >= 3 then Failed else Queued)
              && Recover(rows, true, now)[p].attempts == rows[p].attempts
  {
  }

  /** A recovered row loses its claim and keeps everything else; it fails iff it has used three attempts. */
  lemma RecoveredIs(rows: Rows, expiredOnly: bool, now: int, p: Path)
    requires p in rows
    ensures var (r, after) := (rows[p], Recover(rows, expiredOnly, now));
      && after.Keys == rows.Keys
      && after[p] ==
           if r.state == Running && !(expiredOnly && r.token.Some? && r.lease.Some? && r.lease.value > now)
           then Row(r.version, if r.attempts >= 3 then Failed else Queued, r.attempts, None, None, None, r.priority,
                    r.queuedAt)
           else r
  {
  }

  /** The more urgent priority, except that a stored 0 gives way to any other number. */
  function Urgent(stored: int, priority: int): int {
    if stored == 0 || priority < stored then (if stored == 0 && priority >= 3 then 0 else priority) else stored
  }

  /** What one dispatch does to the row of its file; all other rows stay. */
  lemma DispatchIs(rows: Rows, now: int, p: Path, version: int, wanted: int)
    ensures var after := DispatchRow(rows, now, p, version, wanted);
      var priority := if wanted < 0 then 0 else if wanted > 3 then 3 else wanted;
      && after.Keys == rows.Keys + {p} && (forall q :: q in rows && q != p ==> after[q] == rows[q])
      && (p !in rows ==> after[p] == Row(version, Queued, 0, None, None, None, priority, now))
      && (p in rows ==>
            var r := rows[p];
            var least := if r.priority <= priority then r.priority else priority;
            var lapsed := r.state == Running && (r.token.None? || r.lease.None? || r.lease.value <= now);
            var spent := r.attempts >= 3;
            after[p] ==
              if r.version != version then Row(version, Queued, 0, None, None, None, least, now)
              else if lapsed && spent then Row(version, Failed, r.attempts, None, None, None, r.priority, r.queuedAt)
              else if lapsed then
                Row(version, Queued, r.attempts, None, None, None, Urgent(r.priority, priority), r.queuedAt)
              else if r.state in {Queued, Running} then r.(priority := Urgent(r.priority, priority))
              else if r.state == Failed && spent then r
              else Row(version, Queued, r.attempts, None, None, None, least, now))
  {
  }

  /** Queue order, spelled out: a claimed row is more urgent, or queued earlier, or has the smaller path. */
  lemma HeadIsMostUrgent(rows: Rows, now: int, due: seq<Path>, limit: nat, p: Path, q: Path)
    requires IsQueueHead(rows, now, due, limit) && p in due
    requires q in rows && rows[q].state == Queued && (rows[q].dueAt.None? || rows[q].dueAt.value <= now) && q !in due
    ensures p in rows && rows[p].state == Queued && (rows[p].dueAt.None? || rows[p].dueAt.value <= now)
    ensures |due| == limit
    ensures var (a, b) := (rows[p], rows[q]);
      || a.priority < b.priority || (a.priority == b.priority && a.queuedAt < b.queuedAt)
      || (a.priority == b.priority && a.queuedAt == b.queuedAt && StringLess(p, q))
  {
    assert Due(rows, now, q) && ServedBefore(rows, p, q);
  }

  /** After a supervisor pass every running job has an owner with an unexpired lease. */
  lemma RecoveryLeavesLiveClaims(rows: Rows, now: int, p: Path)
    requires p in rows && Recover(rows, true, now)[p].state == Running
    ensures rows[p].token.Some? && rows[p].lease.Some? && rows[p].lease.value > now
    ensures Recover(rows, true, now)[p] == rows[p]
  {
    RecoveryIsExact(rows, now, p);
  }
}

module MetadataWorker {
  import opened Ordering
  import opened Prelude
  import opened MetadataStore

  const MAX_BATCH := 16

  type Tid = nat

  /** Where a claim lives: waiting in a thread's buffer, run by a thread, or no longer held. */
  datatype Place = InBuffer(thread: Tid) | RunBy(thread: Tid) | GivenBack

  datatype Claim = Claim(job: Job, place: Place)

  /** What the worker process remembers; claims lists every claim ever issued. */
  datatype Memory = Memory(
    claims: map<Token, Claim>,
    nextToken: Token,
    buffers: map<Tid, seq<Job>>,
    running: map<Tid, Job>,
    pending: map<Path, Job>)

  /** How often a worker write took effect, by claim token. */
  datatype Effects = Effects(terminal: multiset<Token>, metadata: multiset<Token>)

  datatype State = State(now: int, rows: Rows, memory: Memory, effects: Effects, metadata: map<Path, int>)

  datatype Action =
    | Advance(dt: nat)
    | Dispatch(path: Path, version: int, priority: int)
    | CompletedElsewhere(path: Path, version: int, outcome: JobState)
    | ClaimJobs(thread: Tid, limit: nat, due: seq<Path>)
    | Renew(token: Token)
    | WriteStale(thread: Tid, acknowledged: bool)
    | WriteCompletion(thread: Tid, outcome: JobState, acknowledged: bool)
    | WriteFailure(thread: Tid, transient: bool, delay: nat, acknowledged: bool)
    | Abandon(thread: Tid)
    | ReleasePending(thread: Tid, delivered: bool)
    | Supervise
    | Restart

  // ---------------------------------------------------------------- memory steps

  function BufferOf(m: Memory, t: Tid): seq<Job> {
    if t in m.buffers then m.buffers[t] else []
  }

  /** A freshly issued claim: the first of a batch is run, the others wait in the thread's buffer. */
  function Receive(m: Memory, t: Tid, j: Job): Memory {
    if t !in m.running
    then m.(running := m.running[t := j], claims := m.claims[j.token := Claim(j, RunBy(t))], nextToken := j.token + 1)
    else m.(buffers := m.buffers[t := BufferOf(m, t) + [j]], claims := m.claims[j.token := Claim(j, InBuffer(t))],
            nextToken := j.token + 1, pending := m.pending[j.path := j])
  }

  function TakeBuffered(m: Memory, t: Tid): Memory
    requires BufferOf(m, t) != []
  {
    var j := m.buffers[t][0];
    m.(buffers := m.buffers[t := m.buffers[t][1..]], running := m.running[t := j],
       claims := m.claims[j.token := Claim(j, RunBy(t))], pending := m.pending - {j.path})
  }

  /** The thread is done with its job, whatever became of the claim. */
  function Finish(m: Memory, t: Tid): Memory
    requires t in m.running
  {
    m.(running := m.running - {t}, claims := m.claims[m.running[t].token := Claim(m.running[t], GivenBack)])
  }

  function Unlisted(pending: map<Path, Job>, jobs: seq<Job>): map<Path, Job> {
    map p | p in pending && !(exists j :: j in jobs && j.path == p) :: pending[p]
  }

  function DropBuffer(m: Memory, t: Tid): Memory {
    m.(buffers := m.buffers[t := []],
       claims := map k | k in m.claims ::
         if m.claims[k].place == InBuffer(t) then Claim(m.claims[k].job, GivenBack) else m.claims[k],
       pending := Unlisted(m.pending, BufferOf(m, t)))
  }

  function Forget(m: Memory): Memory {
    m.(buffers := map[], running := map[], pending := map[],
       claims := map k | k in m.claims :: Claim(m.claims[k].job, GivenBack))
  }

  // ---------------------------------------------------------------- steps of the whole system

  function IssueTo(s: State, t: Tid, p: Path): State
    requires p in s.rows
  {
    var r, k := s.rows[p], s.memory.nextToken;
    s.(rows := s.rows[p := ClaimedRow(r, k, s.now)],
       memory := Receive(s.memory, t, Job(p, r.version, r.attempts + 1, k)))
  }

  function IssueAll(s: State, t: Tid, due: seq<Path>): (r: State)
    requires forall p :: p in due ==> p in s.rows
    ensures r.rows.Keys == s.rows.Keys
  {
    if due == [] then s else IssueTo(IssueAll(s, t, due[..|due| - 1]), t, due[|due| - 1])
  }

  /** A terminal write of a claim takes effect only behind the fence. */
  function Terminal(s: State, j: Job, row: Row): State {
    if Fenced(s.rows, j)
    then s.(rows := s.rows[j.path := row], effects := s.effects.(terminal := s.effects.terminal + multiset{j.token}))
    else s
  }

  /** One operation: fence on the claim, write the metadata, complete the job. */
  function Completed(s: State, j: Job, outcome: JobState): State {
    if Owns(s.rows, j)
    then
      Terminal(s.(metadata := s.metadata[j.path := j.version],
                  effects := s.effects.(metadata := s.effects.metadata + multiset{j.token})),
               j, Unclaimed(s.rows[j.path], outcome))
    else s
  }

  function MarkedStale(s: State, j: Job): State {
    if j.path in s.rows then Terminal(s, j, Unclaimed(s.rows[j.path], Stale)) else s
  }

  /** Transient failures go back to the queue with a backoff while attempts remain; everything else fails. */
  function FailureHandled(s: State, j: Job, transient: bool, delay: nat): State {
    if j.path !in s.rows then s
    else if transient && j.attempts < MAX_ATTEMPTS
    then Terminal(s, j, Unclaimed(s.rows[j.path], Queued).(dueAt := Some(s.now + delay)))
    else Terminal(s, j, Unclaimed(s.rows[j.path], Failed))
  }

  function Settle(s: State, t: Tid, acknowledged: bool): State
    requires t in s.memory.running
  {
    if acknowledged then s.(memory := Finish(s.memory, t)) else s
  }

  /** A stopping thread gives its buffered claims back; delivered says whether the write went through. */
  function Released(s: State, t: Tid, delivered: bool): State {
    s.(rows := if delivered then ReleaseAll(s.rows, BufferOf(s.memory, t)) else s.rows,
       memory := DropBuffer(s.memory, t))
  }

  ghost predicate Enabled(s: State, a: Action) {
    match a
    case ClaimJobs(t, limit, due) =>
      t !in s.memory.running &&
      (BufferOf(s.memory, t) == [] ==> limit <= MAX_BATCH && IsQueueHead(s.rows, s.now, due, limit))
    case Renew(token) => token in s.memory.claims
    case WriteStale(t, _) => t in s.memory.running
    case WriteCompletion(t, outcome, _) => t in s.memory.running && outcome in {Done, Skipped, Stale}
    case WriteFailure(t, _, _, _) => t in s.memory.running
    case Abandon(t) => t in s.memory.running
    case CompletedElsewhere(_, _, outcome) => outcome in {Done, Skipped, Stale}
    case ReleasePending(t, _) => t !in s.memory.running
    case _ => true
  }

  function Apply(s: State, a: Action): State
    requires Enabled(s, a)
  {
    match a
    case Advance(dt) => s.(now := s.now + dt)
    case Dispatch(p, version, priority) => s.(rows := DispatchRow(s.rows, s.now, p, version, priority))
    case CompletedElsewhere(p, version, outcome) =>
      var r := if p in s.rows then s.rows[p] else Row(version, outcome, 0, None, None, None, LOWEST_PRIORITY, s.now);
      s.(rows := s.rows[p := Unclaimed(r, outcome).(version := version)])
    case ClaimJobs(t, limit, due) =>
      if BufferOf(s.memory, t) != [] then s.(memory := TakeBuffered(s.memory, t)) else IssueAll(s, t, due)
    case Renew(token) => s.(rows := RenewRow(s.rows, s.memory.claims[token].job, s.now + LEASE))
    case WriteStale(t, acknowledged) => Settle(MarkedStale(s, s.memory.running[t]), t, acknowledged)
    case WriteCompletion(t, outcome, acknowledged) =>
      Settle(Completed(s, s.memory.running[t], outcome), t, acknowledged)
    case WriteFailure(t, transient, delay, acknowledged) =>
      Settle(FailureHandled(s, s.memory.running[t], transient, delay), t, acknowledged)
    case Abandon(t) => s.(memory := Finish(s.memory, t))
    case ReleasePending(t, delivered) => Released(s, t, delivered)
    case Supervise => s.(rows := Recover(s.rows, true, s.now))
    case Restart => s.(rows := Recover(s.rows, false, s.now), memory := Forget(s.memory))
  }

  ghost predicate Runs(s: State, actions: seq<Action>)
    decreases |actions|
  {
    actions != [] ==> Enabled(s, actions[0]) && Runs(Apply(s, actions[0]), actions[1..])
  }

  function After(s: State, actions: seq<Action>): State
    requires Runs(s, actions)
    decreases |actions|
  {
    if actions == [] then s else After(Apply(s, actions[0]), actions[1..])
  }

  // ---------------------------------------------------------------- memory invariant

  ghost predicate At(claims: map<Token, Claim>, j: Job, place: Place) {
    j.token in claims && claims[j.token] == Claim(j, place)
  }

  ghost predicate ClaimsOk(claims: map<Token, Claim>, nextToken: Token) {
    && (forall k :: k in claims ==> k < nextToken && claims[k].job.token == k)
    && (forall k: Token :: k < nextToken ==> k in claims)
  }

  ghost predicate DistinctTokens(jobs: seq<Job>) {
    forall i, j :: 0 <= i < j < |jobs| ==> jobs[i].token != jobs[j].token
  }

  ghost predicate BuffersOk(claims: map<Token, Claim>, buffers: map<Tid, seq<Job>>) {
    && (forall t, j :: t in buffers && j in buffers[t] ==> At(claims, j, InBuffer(t)))
    && (forall t :: t in buffers ==> DistinctTokens(buffers[t]))
    && (forall k :: k in claims && claims[k].place.InBuffer? ==>
          claims[k].place.thread in buffers && claims[k].job in buffers[claims[k].place.thread])
  }

  ghost predicate RunningOk(claims: map<Token, Claim>, running: map<Tid, Job>) {
    && (forall t :: t in running ==> At(claims, running[t], RunBy(t)))
    && (forall k :: k in claims && claims[k].place.RunBy? ==>
          claims[k].place.thread in running && running[claims[k].place.thread] == claims[k].job)
  }

  /** The heartbeat registry lists only buffered claims. */
  ghost predicate PendingOk(claims: map<Token, Claim>, pending: map<Path, Job>) {
    forall p :: p in pending ==>
      pending[p].path == p && pending[p].token in claims
      && claims[pending[p].token].job == pending[p] && claims[pending[p].token].place.InBuffer?
  }

  /** Every issued claim is in exactly one place: one buffer slot, one running thread, or given back. */
  ghost predicate MemoryOk(m: Memory) {
    && ClaimsOk(m.claims, m.nextToken) && BuffersOk(m.claims, m.buffers)
    && RunningOk(m.claims, m.running) && PendingOk(m.claims, m.pending)
  }

  lemma ReceiveKeepsMemory(m: Memory, t: Tid, j: Job)
    requires MemoryOk(m) && j.token == m.nextToken
    ensures MemoryOk(Receive(m, t, j))
  {
    assert ClaimsOk(Receive(m, t, j).claims, j.token + 1) && j.token !in m.claims;
    hide ClaimsOk, BuffersOk, RunningOk, PendingOk;
    if t in m.running {
      BufferReceives(m.claims, m.buffers, t, j);
      NewClaimIsApart(m, Claim(j, InBuffer(t)));
      PendingReceives(m, t, j);
    } else {
      NewClaimIsApart(m, Claim(j, RunBy(t)));
      RunningReceives(m, t, j);
    }
  }

  /** A claim that is just issued disturbs no place it is not put in. */
  lemma NewClaimIsApart(m: Memory, c: Claim)
    requires MemoryOk(m) && c.job.token !in m.claims
    ensures !c.place.InBuffer? ==> BuffersOk(m.claims[c.job.token := c], m.buffers)
    ensures !c.place.RunBy? ==> RunningOk(m.claims[c.job.token := c], m.running)
    ensures PendingOk(m.claims[c.job.token := c], m.pending)
  {
    hide ClaimsOk;
  }

  lemma RunningReceives(m: Memory, t: Tid, j: Job)
    requires RunningOk(m.claims, m.running) && t !in m.running && j.token !in m.claims
    ensures RunningOk(m.claims[j.token := Claim(j, RunBy(t))], m.running[t := j])
  {
  }

  lemma PendingReceives(m: Memory, t: Tid, j: Job)
    requires PendingOk(m.claims, m.pending) && j.token !in m.claims
    ensures PendingOk(m.claims[j.token := Claim(j, InBuffer(t))], m.pending[j.path := j])
  {
  }

  lemma BufferReceives(claims: map<Token, Claim>, buffers: map<Tid, seq<Job>>, t: Tid, j: Job)
    requires BuffersOk(claims, buffers) && j.token !in claims
    ensures BuffersOk(claims[j.token := Claim(j, InBuffer(t))],
                      buffers[t := (if t in buffers then buffers[t] else []) + [j]])
  {
    var b := if t in buffers then buffers[t] else [];
    forall i | 0 <= i < |b|
      ensures b[i].token != j.token
    {
      assert At(claims, b[i], InBuffer(t));
    }
    assert DistinctTokens(b + [j]);
    assert j in b + [j];
  }

  lemma TakeKeepsMemory(m: Memory, t: Tid)
    requires MemoryOk(m) && t !in m.running && BufferOf(m, t) != []
    ensures MemoryOk(TakeBuffered(m, t))
  {
    var j := m.buffers[t][0];
    assert At(m.claims, j, InBuffer(t));
    BufferGives(m.claims, m.buffers, t);
    var m' := TakeBuffered(m, t);
    forall p | p in m'.pending
      ensures m'.claims[m'.pending[p].token].place.InBuffer?
    {
      assert m.pending[p].path != j.path;
    }
  }

  lemma BufferGives(claims: map<Token, Claim>, buffers: map<Tid, seq<Job>>, t: Tid)
    requires BuffersOk(claims, buffers) && t in buffers && buffers[t] != []
    requires forall k :: k in claims ==> claims[k].job.token == k
    ensures var j := buffers[t][0];
      BuffersOk(claims[j.token := Claim(j, RunBy(t))], buffers[t := buffers[t][1..]])
  {
    var b, j := buffers[t], buffers[t][0];
    var claims', buffers' := claims[j.token := Claim(j, RunBy(t))], buffers[t := b[1..]];
    assert At(claims, b[0], InBuffer(t));
    forall u, x | u in buffers' && x in buffers'[u]
      ensures At(claims', x, InBuffer(u))
    {
      assert x in buffers[u] && At(claims, x, InBuffer(u));
      if u == t {
        var i :| 0 <= i < |b[1..]| && b[1..][i] == x;
        assert b[i + 1] == x;
      }
    }
    forall k | k in claims' && claims'[k].place.InBuffer?
      ensures claims'[k].place.thread in buffers' && claims'[k].job in buffers'[claims'[k].place.thread]
    {
      assert k in claims && claims[k].job in buffers[claims[k].place.thread];
      assert b == [j] + b[1..];
    }
  }

  lemma FinishKeepsMemory(m: Memory, t: Tid)
    requires MemoryOk(m) && t in m.running
    ensures MemoryOk(Finish(m, t))
  {
    assert At(m.claims, m.running[t], RunBy(t));
  }

  lemma DropKeepsMemory(m: Memory, t: Tid)
    requires MemoryOk(m)
    ensures MemoryOk(DropBuffer(m, t))
  {
    var m' := DropBuffer(m, t);
    forall p | p in m'.pending
      ensures m'.claims[m'.pending[p].token].place.InBuffer?
    {
      var j := m.pending[p];
      assert j !in BufferOf(m, t);
    }
    DropKeepsBuffers(m, t);
  }

  lemma DropKeepsBuffers(m: Memory, t: Tid)
    requires ClaimsOk(m.claims, m.nextToken) && BuffersOk(m.claims, m.buffers)
    ensures BuffersOk(DropBuffer(m, t).claims, DropBuffer(m, t).buffers)
  {
  }

  lemma ForgetKeepsMemory(m: Memory)
    requires MemoryOk(m)
    ensures MemoryOk(Forget(m))
  {
  }

  // ---------------------------------------------------------------- rows and effects

  /** A token on a row is an issued claim of that very path, file version and attempt, on a running row. */
  ghost predicate RowsOk(rows: Rows, claims: map<Token, Claim>) {
    forall p :: p in rows && rows[p].token.Some? ==>
      rows[p].state == Running && rows[p].token.value in claims
      && claims[rows[p].token.value].job.path == p && claims[rows[p].token.value].job.version == rows[p].version
      && claims[rows[p].token.value].job.attempts == rows[p].attempts
  }

  ghost predicate EffectsOk(e: Effects, claims: map<Token, Claim>) {
    forall k :: e.metadata[k] <= e.terminal[k] <= (if k in claims then 1 else 0)
  }

  /** A claim still on its row has not been ended. */
  ghost predicate Unwritten(rows: Rows, e: Effects) {
    forall p :: p in rows && rows[p].token.Some? ==> e.terminal[rows[p].token.value] == 0
  }

  ghost predicate Good(s: State) {
    && MemoryOk(s.memory) && RowsOk(s.rows, s.memory.claims)
    && EffectsOk(s.effects, s.memory.claims) && Unwritten(s.rows, s.effects)
  }

  ghost predicate ClaimsGrow(before: map<Token, Claim>, after: map<Token, Claim>) {
    forall k :: k in before ==> k in after && after[k].job == before[k].job
  }

  /** Every token still on a row was there before, under the same version and attempt. */
  ghost predicate Loosens(before: Rows, after: Rows) {
    forall p :: p in after && after[p].token.Some? ==>
      && p in before && before[p].token == after[p].token
      && before[p].version == after[p].version && after[p].state == before[p].state
      && before[p].attempts == after[p].attempts
  }

  lemma LooserRowsStayGood(s: State, s': State)
    requires Good(s) && Loosens(s.rows, s'.rows) && ClaimsGrow(s.memory.claims, s'.memory.claims)
    requires MemoryOk(s'.memory) && s'.effects == s.effects
    ensures Good(s')
  {
  }

  lemma ReleaseLoosens(rows: Rows, jobs: seq<Job>)
    ensures Loosens(rows, ReleaseAll(rows, jobs))
  {
    if jobs != [] {
      ReleaseLoosens(rows, jobs[..|jobs| - 1]);
    }
  }

  lemma ReceiveGrows(m: Memory, t: Tid, j: Job)
    requires MemoryOk(m) && j.token == m.nextToken
    ensures j.token !in m.claims && ClaimsGrow(m.claims, Receive(m, t, j).claims)
    ensures j.token in Receive(m, t, j).claims && Receive(m, t, j).claims[j.token].job == j
  {
    hide BuffersOk, RunningOk, PendingOk;
  }

  lemma IssueKeepsGood(s: State, t: Tid, p: Path)
    requires Good(s) && p in s.rows
    ensures Good(IssueTo(s, t, p))
  {
    var k := s.memory.nextToken;
    var j := Job(p, s.rows[p].version, s.rows[p].attempts + 1, k);
    ReceiveKeepsMemory(s.memory, t, j);
    ReceiveGrows(s.memory, t, j);
    hide MemoryOk, RowsOk, EffectsOk, Unwritten, Receive, ClaimsGrow;
    var claims := IssueTo(s, t, p).memory.claims;
    IssueKeepsRows(s.rows, s.effects, s.memory.claims, claims, p, ClaimedRow(s.rows[p], k, s.now), k);
  }

  lemma IssueKeepsRows(
    rows: Rows, e: Effects, claims: map<Token, Claim>, claims': map<Token, Claim>, p: Path, row: Row, k: Token)
    requires RowsOk(rows, claims) && EffectsOk(e, claims) && Unwritten(rows, e)
    requires k !in claims && ClaimsGrow(claims, claims') && k in claims'
    requires row.token == Some(k) && row.state == Running
    requires claims'[k].job.path == p && claims'[k].job.version == row.version
    requires claims'[k].job.attempts == row.attempts
    ensures RowsOk(rows[p := row], claims') && EffectsOk(e, claims') && Unwritten(rows[p := row], e)
  {
    assert e.terminal[k] == 0;
  }

  lemma IssueAllKeepsGood(s: State, t: Tid, due: seq<Path>)
    requires Good(s) && forall p :: p in due ==> p in s.rows
    ensures Good(IssueAll(s, t, due))
  {
    if due != [] {
      IssueAllKeepsGood(s, t, due[..|due| - 1]);
      IssueKeepsGood(IssueAll(s, t, due[..|due| - 1]), t, due[|due| - 1]);
    }
  }

  /** Ending a claim behind the fence, with or without the metadata write that goes with it. */
  lemma TerminalKeepsGood(s: State, j: Job, row: Row, withMetadata: bool, metadata: map<Path, int>)
    requires Good(s) && j.token in s.memory.claims && s.memory.claims[j.token].job == j && row.token.None?
    requires Fenced(s.rows, j)
    ensures var written := if withMetadata then s.effects.metadata + multiset{j.token} else s.effects.metadata;
      var e := Effects(s.effects.terminal + multiset{j.token}, written);
      Good(s.(rows := s.rows[j.path := row], effects := e, metadata := metadata))
  {
    assert s.effects.terminal[j.token] == 0;
  }

  lemma RunningJobIsClaim(s: State, t: Tid)
    requires Good(s) && t in s.memory.running
    ensures s.memory.running[t].token in s.memory.claims
    ensures s.memory.claims[s.memory.running[t].token].job == s.memory.running[t]
    ensures Owns(s.rows, s.memory.running[t]) ==> Fenced(s.rows, s.memory.running[t])
  {
    assert At(s.memory.claims, s.memory.running[t], RunBy(t));
  }

  lemma SettleKeepsGood(s: State, t: Tid, acknowledged: bool)
    requires Good(s) && t in s.memory.running
    ensures Good(Settle(s, t, acknowledged))
  {
    RunningJobIsClaim(s, t);
    FinishKeepsMemory(s.memory, t);
    if acknowledged {
      LooserRowsStayGood(s, Settle(s, t, acknowledged));
    }
  }

  lemma WritesKeepGood(s: State, t: Tid, outcome: JobState, transient: bool, delay: nat)
    requires Good(s) && t in s.memory.running
    ensures var j := s.memory.running[t];
      Good(Completed(s, j, outcome)) && Good(MarkedStale(s, j)) && Good(FailureHandled(s, j, transient, delay))
  {
    var j := s.memory.running[t];
    RunningJobIsClaim(s, t);
    if Owns(s.rows, j) {
      var r := s.rows[j.path];
      TerminalKeepsGood(s, j, Unclaimed(r, outcome), true, s.metadata[j.path := j.version]);
      TerminalKeepsGood(s, j, Unclaimed(r, Stale), false, s.metadata);
      TerminalKeepsGood(s, j, Unclaimed(r, Failed), false, s.metadata);
      TerminalKeepsGood(s, j, Unclaimed(r, Queued).(dueAt := Some(s.now + delay)), false, s.metadata);
    }
  }

  lemma TakeKeepsGood(s: State, t: Tid)
    requires Good(s) && t !in s.memory.running && BufferOf(s.memory, t) != []
    ensures Good(s.(memory := TakeBuffered(s.memory, t)))
  {
    var j := s.memory.buffers[t][0];
    assert At(s.memory.claims, j, InBuffer(t));
    TakeKeepsMemory(s.memory, t);
    LooserRowsStayGood(s, s.(memory := TakeBuffered(s.memory, t)));
  }

  lemma ReleaseKeepsGood(s: State, t: Tid, delivered: bool)
    requires Good(s)
    ensures Good(Released(s, t, delivered))
  {
    ReleaseLoosens(s.rows, BufferOf(s.memory, t));
    DropKeepsMemory(s.memory, t);
    LooserRowsStayGood(s, Released(s, t, delivered));
  }

  /** Steps that leave the memory alone can only take claims off rows. */
  lemma QuietKeepsGood(s: State, a: Action)
    requires Good(s) && Enabled(s, a)
    requires a.Advance? || a.Dispatch? || a.CompletedElsewhere? || a.Renew? || a.Supervise?
    ensures Good(Apply(s, a))
  {
    QuietLoosens(s, a);
    hide Good, Loosens;
    LooserRowsStayGood(s, Apply(s, a));
  }

  lemma RestartKeepsGood(s: State)
    requires Good(s)
    ensures Good(Apply(s, Restart))
  {
    ForgetKeepsMemory(s.memory);
    LooserRowsStayGood(s, Apply(s, Restart));
  }

  lemma WriteStepKeepsGood(s: State, a: Action)
    requires Good(s) && Enabled(s, a)
    requires a.WriteStale? || a.WriteCompletion? || a.WriteFailure? || a.Abandon?
    ensures Good(Apply(s, a))
  {
    match a
    case WriteStale(t, ack) =>
      WritesKeepGood(s, t, Stale, false, 0);
      SettleKeepsGood(MarkedStale(s, s.memory.running[t]), t, ack);
    case WriteCompletion(t, outcome, ack) =>
      WritesKeepGood(s, t, outcome, false, 0);
      SettleKeepsGood(Completed(s, s.memory.running[t], outcome), t, ack);
    case WriteFailure(t, transient, delay, ack) =>
      WritesKeepGood(s, t, Failed, transient, delay);
      SettleKeepsGood(FailureHandled(s, s.memory.running[t], transient, delay), t, ack);
    case Abandon(t) => SettleKeepsGood(s, t, true);
  }

  lemma ApplyKeepsGood(s: State, a: Action)
    requires Good(s) && Enabled(s, a)
    ensures Good(Apply(s, a))
  {
    match a
    case ClaimJobs(t, limit, due) =>
      if BufferOf(s.memory, t) == [] {
        IssueAllKeepsGood(s, t, due);
      } else {
        TakeKeepsGood(s, t);
      }
    case ReleasePending(t, delivered) => ReleaseKeepsGood(s, t, delivered);
    case WriteStale(_, _) => WriteStepKeepsGood(s, a);
    case WriteCompletion(_, _, _) => WriteStepKeepsGood(s, a);
    case WriteFailure(_, _, _, _) => WriteStepKeepsGood(s, a);
    case Abandon(_) => WriteStepKeepsGood(s, a);
    case Restart => RestartKeepsGood(s);
    case _ => QuietKeepsGood(s, a);
  }

  lemma {:induction false} RunKeepsGood(s: State, actions: seq<Action>)
    requires Good(s) && Runs(s, actions)
    ensures Good(After(s, actions))
    decreases |actions|
  {
    if actions != [] {
      ApplyKeepsGood(s, actions[0]);
      RunKeepsGood(Apply(s, actions[0]), actions[1..]);
    }
  }

  // ---------------------------------------------------------------- safety over whole runs

  /** The process starts on the database that startup recovery leaves: no row carries a claim. */
  ghost predicate Start(s: State) {
    && s.memory == Memory(map[], 0, map[], map[], map[])
    && s.effects == Effects(multiset{}, multiset{})
    && (forall p :: p in s.rows ==> s.rows[p].token.None?)
  }

  /** In every interleaving a claim is ended at most once, and its metadata is written only in that same write. */
  lemma AtMostOneTerminalWrite(s: State, actions: seq<Action>, k: Token)
    requires Start(s) && Runs(s, actions)
    ensures var e := After(s, actions).effects; e.metadata[k] <= e.terminal[k] <= 1
  {
    RunKeepsGood(s, actions);
  }

  ghost predicate Lost(s: State, k: Token) {
    k in s.memory.claims && !Owns(s.rows, s.memory.claims[k].job)
  }

  /** Claim k is still lost, and nothing was written under it. */
  ghost predicate StaysLost(s: State, s': State, k: Token)
    requires k in s.memory.claims
  {
    && k in s'.memory.claims && s'.memory.claims[k].job == s.memory.claims[k].job
    && !Owns(s'.rows, s.memory.claims[k].job)
    && s'.effects.terminal[k] == s.effects.terminal[k] && s'.effects.metadata[k] == s.effects.metadata[k]
  }

  /** No step returns a claim that was lost, and no step writes under it. */
  lemma StepKeepsLost(s: State, a: Action, k: Token)
    requires Good(s) && Enabled(s, a) && Lost(s, k)
    ensures StaysLost(s, Apply(s, a), k)
  {
    match a
    case ClaimJobs(t, limit, due) =>
      if BufferOf(s.memory, t) == [] {
        IssueAllKeepsLost(s, t, due, k);
      } else {
        assert At(s.memory.claims, s.memory.buffers[t][0], InBuffer(t));
      }
    case ReleasePending(t, _) => ReleaseLoosens(s.rows, BufferOf(s.memory, t));
    case WriteStale(_, _) => WriteStepKeepsLost(s, a, k);
    case WriteCompletion(_, _, _) => WriteStepKeepsLost(s, a, k);
    case WriteFailure(_, _, _, _) => WriteStepKeepsLost(s, a, k);
    case Abandon(t) => RunningJobIsClaim(s, t);
    case _ => QuietStepKeepsLost(s, a, k);
  }

  lemma QuietStepKeepsLost(s: State, a: Action, k: Token)
    requires Good(s) && Enabled(s, a) && Lost(s, k)
    requires a.Advance? || a.Dispatch? || a.CompletedElsewhere? || a.Renew? || a.Supervise? || a.Restart?
    ensures StaysLost(s, Apply(s, a), k)
  {
  }

  lemma WriteStepKeepsLost(s: State, a: Action, k: Token)
    requires Good(s) && Enabled(s, a) && Lost(s, k)
    requires a.WriteStale? || a.WriteCompletion? || a.WriteFailure?
    ensures StaysLost(s, Apply(s, a), k)
  {
    match a
    case WriteStale(t, ack) =>
      WritesKeepLost(s, t, Stale, false, 0, k);
      SettleKeepsJobs(MarkedStale(s, s.memory.running[t]), t, ack);
    case WriteCompletion(t, o, ack) =>
      WritesKeepLost(s, t, o, false, 0, k);
      SettleKeepsJobs(Completed(s, s.memory.running[t], o), t, ack);
    case WriteFailure(t, tr, d, ack) =>
      WritesKeepLost(s, t, Failed, tr, d, k); SettleKeepsJobs(FailureHandled(s, s.memory.running[t], tr, d), t, ack);
  }

  lemma SettleKeepsJobs(s: State, t: Tid, acknowledged: bool)
    requires t in s.memory.running && At(s.memory.claims, s.memory.running[t], RunBy(t))
    ensures ClaimsGrow(s.memory.claims, Settle(s, t, acknowledged).memory.claims)
    ensures Settle(s, t, acknowledged).rows == s.rows && Settle(s, t, acknowledged).effects == s.effects
  {
  }

  lemma WritesKeepLost(s: State, t: Tid, outcome: JobState, transient: bool, delay: nat, k: Token)
    requires Good(s) && t in s.memory.running && Lost(s, k)
    ensures var j := s.memory.running[t];
      && At(s.memory.claims, j, RunBy(t))
      && StaysLost(s, Completed(s, j, outcome), k) && StaysLost(s, MarkedStale(s, j), k)
      && StaysLost(s, FailureHandled(s, j, transient, delay), k)
  {
    var j := s.memory.running[t];
    RunningJobIsClaim(s, t);
    assert At(s.memory.claims, j, RunBy(t));
    if Owns(s.rows, j) {
      assert j.token != k;
    }
  }

  lemma IssueAllKeepsLost(s: State, t: Tid, due: seq<Path>, k: Token)
    requires Good(s) && Lost(s, k)
    requires forall p :: p in due ==> p in s.rows
    ensures StaysLost(s, IssueAll(s, t, due), k)
  {
    if due != [] {
      var before := IssueAll(s, t, due[..|due| - 1]);
      IssueAllKeepsLost(s, t, due[..|due| - 1], k);
      IssueAllKeepsGood(s, t, due[..|due| - 1]);
      IssueKeepsLost(before, t, due[|due| - 1], k);
    }
  }

  lemma IssueKeepsLost(s: State, t: Tid, p: Path, k: Token)
    requires Good(s) && Lost(s, k) && p in s.rows
    ensures StaysLost(s, IssueTo(s, t, p), k)
  {
    assert k < s.memory.nextToken && s.memory.claims[k].job.token == k;
  }

  /** A claim that was taken off its row, however that came about, never owns it again and never writes again. */
  lemma {:induction false} LostClaimIsFinal(s: State, actions: seq<Action>, k: Token)
    requires Good(s) && Runs(s, actions) && Lost(s, k)
    ensures !Owns(After(s, actions).rows, s.memory.claims[k].job)
    ensures After(s, actions).effects.terminal[k] == s.effects.terminal[k]
    ensures After(s, actions).effects.metadata[k] == s.effects.metadata[k]
    decreases |actions|
  {
    if actions != [] {
      StepKeepsLost(s, actions[0], k);
      ApplyKeepsGood(s, actions[0]);
      LostClaimIsFinal(Apply(s, actions[0]), actions[1..], k);
    }
  }

  // ---------------------------------------------------------------- what each step does

  /** The thread is done with job j, or, when its write was not acknowledged, still remembers it. */
  predicate Settled(before: Memory, t: Tid, j: Job, acknowledged: bool, after: Memory) {
    after == if acknowledged
             then before.(running := before.running - {t}, claims := before.claims[j.token := Claim(j, GivenBack)])
             else before
  }

  /** A failure is retried after its delay iff it is transient and fewer than three attempts are used. */
  predicate FailsRow(before: Rows, j: Job, transient: bool, dueAt: int, after: Rows)
    requires j.path in before
  {
    var r := before[j.path];
    after == before[j.path :=
      if transient && r.attempts < 3
      then Row(r.version, Queued, r.attempts, None, None, Some(dueAt), r.priority, r.queuedAt)
      else Row(r.version, Failed, r.attempts, None, None, None, r.priority, r.queuedAt)]
  }

  /** A row ends under an outcome; version, attempts, priority and queue time are kept. */
  predicate EndsRow(before: Rows, j: Job, outcome: JobState, after: Rows)
    requires j.path in before
  {
    var r := before[j.path];
    after == before[j.path := Row(r.version, outcome, r.attempts, None, None, None, r.priority, r.queuedAt)]
  }

  lemma FailureIs(s: State, t: Tid, transient: bool, delay: nat, acknowledged: bool)
    requires Good(s) && t in s.memory.running
    ensures var (j, u) := (s.memory.running[t], Apply(s, WriteFailure(t, transient, delay, acknowledged)));
      && u.now == s.now && u.metadata == s.metadata && u.effects.metadata == s.effects.metadata
      && Settled(s.memory, t, j, acknowledged, u.memory)
      && if Owns(s.rows, j)
         then
           && FailsRow(s.rows, j, transient, s.now + delay, u.rows)
           && u.effects.terminal == s.effects.terminal + multiset{j.token}
         else u.rows == s.rows && u.effects == s.effects
  {
    RunningJobIsClaim(s, t);
    RunningAttempts(s, t);
    hide Good;
  }

  lemma RunningAttempts(s: State, t: Tid)
    requires Good(s) && t in s.memory.running
    ensures var j := s.memory.running[t]; Owns(s.rows, j) ==> s.rows[j.path].attempts == j.attempts
  {
    assert At(s.memory.claims, s.memory.running[t], RunBy(t));
  }

  lemma RunningOwnsIff(s: State, t: Tid)
    requires Good(s) && t in s.memory.running
    ensures var j := s.memory.running[t];
      (Fenced(s.rows, j) <==> Owns(s.rows, j)) && (Owns(s.rows, j) ==> s.rows[j.path].attempts == j.attempts)
  {
    RunningJobIsClaim(s, t);
    RunningAttempts(s, t);
    hide Good;
  }

  lemma StaleIs(s: State, t: Tid, acknowledged: bool)
    requires Good(s) && t in s.memory.running
    ensures var (j, u) := (s.memory.running[t], Apply(s, WriteStale(t, acknowledged)));
      && u.now == s.now && u.metadata == s.metadata && u.effects.metadata == s.effects.metadata
      && Settled(s.memory, t, j, acknowledged, u.memory)
      && if Owns(s.rows, j)
         then EndsRow(s.rows, j, Stale, u.rows) && u.effects.terminal == s.effects.terminal + multiset{j.token}
         else u.rows == s.rows && u.effects == s.effects
  {
    RunningJobIsClaim(s, t);
    hide Good;
  }

  lemma CompletionIs(s: State, t: Tid, outcome: JobState, acknowledged: bool)
    requires Good(s) && Enabled(s, WriteCompletion(t, outcome, acknowledged))
    ensures var (j, u) := (s.memory.running[t], Apply(s, WriteCompletion(t, outcome, acknowledged)));
      && u.now == s.now && Settled(s.memory, t, j, acknowledged, u.memory)
      && if Owns(s.rows, j)
         then
           && EndsRow(s.rows, j, outcome, u.rows) && u.metadata == s.metadata[j.path := j.version]
           && u.effects == Effects(s.effects.terminal + multiset{j.token}, s.effects.metadata + multiset{j.token})
         else u.rows == s.rows && u.metadata == s.metadata && u.effects == s.effects
  {
    RunningJobIsClaim(s, t);
    hide Good;
  }

  /** The steps that are neither worker writes nor claims. */
  lemma OtherStepsAre(s: State, a: Action)
    requires Enabled(s, a)
    ensures var u := Apply(s, a);
      match a
      case Advance(dt) => u == s.(now := s.now + dt)
      case CompletedElsewhere(p, version, outcome) =>
        && (p in s.rows ==>
              var r := s.rows[p];
              u.rows == s.rows[p := Row(version, outcome, r.attempts, None, None, None, r.priority, r.queuedAt)])
        && (p !in s.rows ==> u.rows == s.rows[p := Row(version, outcome, 0, None, None, None, 3, s.now)])
        && u == s.(rows := u.rows)
      case Renew(k) =>
        var j := s.memory.claims[k].job;
        u == if j.path in s.rows && s.rows[j.path].state == Running && s.rows[j.path].token == Some(j.token)
             then s.(rows := s.rows[j.path := s.rows[j.path].(lease := Some(s.now + 300))])
             else s
      case Abandon(t) => u == s.(memory := u.memory) && Settled(s.memory, t, s.memory.running[t], true, u.memory)
      case Restart =>
        && u == s.(rows := u.rows, memory := u.memory) && u.memory.nextToken == s.memory.nextToken
        && u.memory.buffers == map[] && u.memory.running == map[] && u.memory.pending == map[]
        && u.memory.claims.Keys == s.memory.claims.Keys
        && (forall k :: k in s.memory.claims ==> u.memory.claims[k] == Claim(s.memory.claims[k].job, GivenBack))
        && u.rows == Recover(s.rows, false, s.now)
      case Supervise => u == s.(rows := Recover(s.rows, true, s.now))
      case Dispatch(p, version, priority) => u == s.(rows := DispatchRow(s.rows, s.now, p, version, priority))
      case _ => true
  {
    hide Recover, DispatchRow;
  }

  /** The claim on the i-th row of a batch. */
  function BatchJob(s: State, due: seq<Path>, i: nat): Job
    requires i < |due| && due[i] in s.rows
  {
    Job(due[i], s.rows[due[i]].version, s.rows[due[i]].attempts + 1, s.memory.nextToken + i)
  }

  /** What a batch leaves in the rows: each listed row runs under its own new token, with a lease of 300 seconds. */
  ghost predicate BatchRows(s: State, due: seq<Path>, after: Rows) {
    && after.Keys == s.rows.Keys
    && (forall p :: p in s.rows && p !in due ==> after[p] == s.rows[p])
    && (forall i :: 0 <= i < |due| && due[i] in s.rows ==>
          var r := s.rows[due[i]];
          after[due[i]] == Row(r.version, Running, r.attempts + 1, Some(s.memory.nextToken + i), Some(s.now + 300),
                               None, r.priority, r.queuedAt))
  }

  /** What a batch leaves an idle thread: the first job runs, and the others wait. */
  ghost predicate BatchHeld(s: State, t: Tid, due: seq<Path>, after: Memory)
    requires forall p :: p in due ==> p in s.rows
  {
    && after.nextToken == s.memory.nextToken + |due|
    && (due == [] ==> after.running == s.memory.running && after.buffers == s.memory.buffers)
    && (due != [] ==>
          && after.running == s.memory.running[t := BatchJob(s, due, 0)]
          && |BufferOf(after, t)| == |due| - 1
          && (forall i :: 0 <= i < |due| - 1 ==> BufferOf(after, t)[i] == BatchJob(s, due, i + 1))
          && (forall u :: u != t ==> BufferOf(after, u) == BufferOf(s.memory, u)))
  }

  /** The waiting jobs are registered under their paths. */
  ghost predicate BatchRegistered(s: State, due: seq<Path>, after: map<Path, Job>)
    requires forall p :: p in due ==> p in s.rows
  {
    && (forall p :: p in s.memory.pending && p !in due ==> p in after && after[p] == s.memory.pending[p])
    && (forall p :: p in after ==> p in s.memory.pending || p in due)
    && (due != [] ==> (due[0] in after <==> due[0] in s.memory.pending))
    && (due != [] && due[0] in after ==> after[due[0]] == s.memory.pending[due[0]])
    && (forall i :: 1 <= i < |due| ==> due[i] in after && after[due[i]] == BatchJob(s, due, i))
  }

  /** One more claim. */
  lemma IssueToIs(s: State, t: Tid, p: Path)
    requires p in s.rows
    ensures var (r, k, m, u) := (s.rows[p], s.memory.nextToken, s.memory, IssueTo(s, t, p));
      var j := Job(p, r.version, r.attempts + 1, k);
      && u.rows == s.rows[p := Row(r.version, Running, r.attempts + 1, Some(k), Some(s.now + 300), None, r.priority,
                                   r.queuedAt)]
      && u.now == s.now && u.memory.nextToken == k + 1
      && if t in m.running
         then
           && u.memory.running == m.running && u.memory.buffers == m.buffers[t := BufferOf(m, t) + [j]]
           && u.memory.pending == m.pending[p := j]
         else u.memory.running == m.running[t := j] && u.memory.buffers == m.buffers && u.memory.pending == m.pending
  {
  }

  lemma IssueAllLast(s: State, t: Tid, due: seq<Path>)
    requires due != [] && forall p :: p in due ==> p in s.rows
    ensures forall p :: p in due[..|due| - 1] ==> p in due
    ensures IssueAll(s, t, due) == IssueTo(IssueAll(s, t, due[..|due| - 1]), t, due[|due| - 1])
  {
  }

  lemma FrontIsDistinct(due: seq<Path>) returns (front: seq<Path>, last: Path)
    requires Distinct(due) && due != []
    ensures front == due[..|due| - 1] && last == due[|due| - 1] && due == front + [last]
    ensures Distinct(front) && last !in front && forall p :: p in front ==> p in due
  {
    front, last := due[..|due| - 1], due[|due| - 1];
  }

  lemma {:induction false} BatchRowsAre(s: State, t: Tid, due: seq<Path>)
    requires Distinct(due) && forall p :: p in due ==> p in s.rows
    ensures BatchRows(s, due, IssueAll(s, t, due).rows)
  {
    hide Distinct, IssueAll;
    if due == [] {
      IssueNone(s, t);
    } else {
      var front, last := FrontIsDistinct(due);
      hide BatchRows, IssueTo;
      IssueAllLast(s, t, due);
      BatchRowsAre(s, t, front);
      BatchTokens(s, t, front);
      var u := IssueAll(s, t, front);
      IssueToIs(u, t, last);
      OneMoreRow(s, u.rows, front, last, IssueTo(u, t, last).rows);
    }
  }

  lemma IssueNone(s: State, t: Tid)
    ensures IssueAll(s, t, []) == s
  {
  }

  lemma {:induction false} BatchTokens(s: State, t: Tid, due: seq<Path>)
    requires forall p :: p in due ==> p in s.rows
    ensures IssueAll(s, t, due).memory.nextToken == s.memory.nextToken + |due| && IssueAll(s, t, due).now == s.now
  {
    if due != [] {
      BatchTokens(s, t, due[..|due| - 1]);
    }
  }

  lemma OneMoreRow(s: State, rows: Rows, front: seq<Path>, last: Path, rows': Rows)
    requires last !in front && last in s.rows && BatchRows(s, front, rows)
    requires var r := rows[last];
      rows' == rows[last := Row(r.version, Running, r.attempts + 1, Some(s.memory.nextToken + |front|),
                                Some(s.now + 300), None, r.priority, r.queuedAt)]
    ensures BatchRows(s, front + [last], rows') && rows[last] == s.rows[last]
  {
    var due := front + [last];
    assert due[|front|] == last;
    forall i | 0 <= i < |front|
      ensures due[i] == front[i] && due[i] != last
    {
      assert front[i] in front;
    }
  }

  lemma {:induction false} BatchMemoryIs(s: State, t: Tid, due: seq<Path>)
    requires Distinct(due) && (forall p :: p in due ==> p in s.rows)
    requires t !in s.memory.running && BufferOf(s.memory, t) == []
    ensures var m := IssueAll(s, t, due).memory; BatchHeld(s, t, due, m) && BatchRegistered(s, due, m.pending)
  {
    if due != [] {
      hide Distinct, BatchHeld, BatchRegistered, BufferOf, IssueTo, IssueAll;
      var front, last := FrontIsDistinct(due);
      BatchMemoryIs(s, t, front);
      BatchRowsAre(s, t, front);
      LastRowIsOld(s, front, last, IssueAll(s, t, front).rows);
      hide BatchRows;
      IssueAllLast(s, t, due);
      OneMoreIssued(s, t, front, last, IssueAll(s, t, front));
    }
  }

  lemma LastRowIsOld(s: State, front: seq<Path>, last: Path, rows: Rows)
    requires BatchRows(s, front, rows) && last in s.rows && last !in front
    ensures last in rows && rows[last] == s.rows[last]
  {
  }

  lemma OneMoreIssued(s: State, t: Tid, front: seq<Path>, last: Path, u: State)
    requires last !in front && (forall p :: p in front ==> p in s.rows)
    requires last in s.rows && last in u.rows && u.rows[last] == s.rows[last]
    requires t !in s.memory.running && BufferOf(s.memory, t) == []
    requires BatchHeld(s, t, front, u.memory) && BatchRegistered(s, front, u.memory.pending)
    ensures var m := IssueTo(u, t, last).memory;
      BatchHeld(s, t, front + [last], m) && BatchRegistered(s, front + [last], m.pending)
  {
    hide BatchHeld, BatchRegistered, BufferOf, IssueTo;
    IssueToIs(u, t, last);
    RunsAfterFirst(s, t, front, u.memory);
    OneMoreHeld(s, u.memory, t, front, last, IssueTo(u, t, last).memory);
    OneMoreRegistered(s, u.memory, front, last, IssueTo(u, t, last).memory.pending);
  }

  lemma RunsAfterFirst(s: State, t: Tid, due: seq<Path>, m: Memory)
    requires (forall p :: p in due ==> p in s.rows) && BatchHeld(s, t, due, m) && t !in s.memory.running
    ensures (due == [] <==> t !in m.running) && m.nextToken == s.memory.nextToken + |due|
  {
  }

  lemma OneMoreHeld(s: State, m: Memory, t: Tid, front: seq<Path>, last: Path, m': Memory)
    requires last in s.rows && (forall p :: p in front ==> p in s.rows)
    requires t !in s.memory.running && BufferOf(s.memory, t) == [] && BatchHeld(s, t, front, m)
    requires m'.nextToken == m.nextToken + 1
    requires var j := Job(last, s.rows[last].version, s.rows[last].attempts + 1, m.nextToken);
      if t in m.running then m'.running == m.running && m'.buffers == m.buffers[t := BufferOf(m, t) + [j]]
      else m'.running == m.running[t := j] && m'.buffers == m.buffers
    ensures BatchHeld(s, t, front + [last], m')
  {
    var due := front + [last];
    assert forall i :: 0 <= i < |front| ==> BatchJob(s, due, i) == BatchJob(s, front, i);
    assert BatchJob(s, due, |front|).path == last;
  }

  lemma OneMoreRegistered(s: State, m: Memory, front: seq<Path>, last: Path, pending: map<Path, Job>)
    requires last !in front && last in s.rows && (forall p :: p in front ==> p in s.rows)
    requires BatchRegistered(s, front, m.pending) && m.nextToken == s.memory.nextToken + |front|
    requires
      var j := Job(last, s.rows[last].version, s.rows[last].attempts + 1, m.nextToken);
      pending == if front == [] then m.pending else m.pending[last := j]
    ensures BatchRegistered(s, front + [last], pending)
  {
    var due := front + [last];
    assert forall i :: 0 <= i < |front| ==> BatchJob(s, due, i) == BatchJob(s, front, i);
    assert BatchJob(s, due, |front|).path == last && due[|front|] == last;
    assert forall i :: 0 <= i < |front| ==> front[i] != last;
  }

  /** A claim with an empty buffer takes the head of the queue, a claim with a full one the head of the buffer. */
  lemma ClaimIs(s: State, t: Tid, limit: nat, due: seq<Path>)
    requires Enabled(s, ClaimJobs(t, limit, due))
    ensures var u := Apply(s, ClaimJobs(t, limit, due));
      && u.now == s.now && u.effects == s.effects && u.metadata == s.metadata
      && if BufferOf(s.memory, t) == []
         then
           && (forall p :: p in due ==> p in s.rows)
           && BatchRows(s, due, u.rows) && BatchHeld(s, t, due, u.memory) && BatchRegistered(s, due, u.memory.pending)
         else
           && u.rows == s.rows
           && var j := s.memory.buffers[t][0];
           u.memory == Memory(s.memory.claims[j.token := Claim(j, RunBy(t))], s.memory.nextToken,
                              s.memory.buffers[t := s.memory.buffers[t][1..]], s.memory.running[t := j],
                              s.memory.pending - {j.path})
  {
    if BufferOf(s.memory, t) == [] {
      HeadIsDistinct(s.rows, s.now, due, limit);
      BatchRowsAre(s, t, due);
      BatchMemoryIs(s, t, due);
      IssueAllWritesNothing(s, t, due);
      hide IssueAll, BatchRows, BatchHeld, BatchRegistered, Sorted;
    }
  }

  /** A row whose claim is among those given back is queued again with its attempt returned; other rows stay. */
  ghost predicate GivenBackRow(r: Row, p: Path, jobs: seq<Job>, after: Row) {
    after ==
      if r.state == Running && r.token.Some? && exists j :: j in jobs && j.path == p && j.token == r.token.value
      then Row(r.version, Queued, if r.attempts == 0 then 0 else r.attempts - 1, None, None, None, r.priority,
               r.queuedAt)
      else r
  }

  ghost predicate RowsGivenBack(before: Rows, jobs: seq<Job>, after: Rows) {
    after.Keys == before.Keys && forall p :: p in before ==> GivenBackRow(before[p], p, jobs, after[p])
  }

  lemma {:induction false} ReleaseIs(rows: Rows, jobs: seq<Job>, p: Path)
    requires DistinctTokens(jobs) && p in rows
    ensures ReleaseAll(rows, jobs).Keys == rows.Keys && GivenBackRow(rows[p], p, jobs, ReleaseAll(rows, jobs)[p])
  {
    if jobs != [] {
      var front, last := jobs[..|jobs| - 1], jobs[|jobs| - 1];
      assert jobs == front + [last];
      ReleaseIs(rows, front, p);
      assert last !in front;
    }
  }

  lemma ReleaseGivesBack(rows: Rows, jobs: seq<Job>)
    requires DistinctTokens(jobs)
    ensures RowsGivenBack(rows, jobs, ReleaseAll(rows, jobs))
  {
    ReleaseKeepsKeys(rows, jobs);
    hide ReleaseAll, GivenBackRow;
    forall p | p in rows
      ensures GivenBackRow(rows[p], p, jobs, ReleaseAll(rows, jobs)[p])
    {
      ReleaseIs(rows, jobs, p);
    }
  }

  /** A thread's shutdown empties its buffer, and takes its paths from the registry; nobody else is affected. */
  lemma ReleasedMemory(s: State, t: Tid, delivered: bool)
    ensures var u := Released(s, t, delivered);
      && u == s.(rows := u.rows, memory := u.memory) && (!delivered ==> u.rows == s.rows)
      && u.memory.buffers == s.memory.buffers[t := []] && u.memory.running == s.memory.running
      && u.memory.nextToken == s.memory.nextToken
      && (forall p :: p in u.memory.pending <==>
            p in s.memory.pending && forall j :: j in BufferOf(s.memory, t) ==> j.path != p)
      && (forall p :: p in u.memory.pending ==> u.memory.pending[p] == s.memory.pending[p])
  {
    hide ReleaseAll;
  }

  lemma BufferIsDistinct(s: State, t: Tid)
    requires Good(s)
    ensures DistinctTokens(BufferOf(s.memory, t))
  {
  }

  /** The row is failed although attempts are left. */
  predicate FailedEarly(rows: Rows, p: Path) {
    p in rows && rows[p].state == Failed && rows[p].attempts < 3
  }

  /** A worker reports a permanent failure of the job that holds row p. */
  predicate FailsForGood(s: State, a: Action, p: Path)
    requires a.WriteFailure? ==> a.thread in s.memory.running
  {
    a.WriteFailure? && !a.transient && s.memory.running[a.thread].path == p && Owns(s.rows, s.memory.running[a.thread])
  }

  lemma EarlyFailureIsPermanent(s: State, a: Action, p: Path)
    requires Good(s) && Enabled(s, a) && !FailedEarly(s.rows, p) && FailedEarly(Apply(s, a).rows, p)
    ensures FailsForGood(s, a, p)
  {
    match a
    case WriteFailure(_, _, _, _) => FailureIsExplained(s, a, p);
    case WriteStale(_, _) => OtherWritesFailNothing(s, a, p);
    case WriteCompletion(_, _, _) => OtherWritesFailNothing(s, a, p);
    case ClaimJobs(t, limit, due) => ClaimFailsNothing(s, t, limit, due, p);
    case ReleasePending(t, delivered) => ReleaseFailsNothing(s, t, delivered, p);
    case _ => QuietFailsNothing(s, a, p);
  }

  lemma FailureIsExplained(s: State, a: Action, p: Path)
    requires Good(s) && Enabled(s, a) && a.WriteFailure?
    ensures FailedEarly(s.rows, p) || !FailedEarly(Apply(s, a).rows, p) || FailsForGood(s, a, p)
  {
    FailureIs(s, a.thread, a.transient, a.delay, a.acknowledged);
    hide Good, Apply, Settled;
  }

  lemma OtherWritesFailNothing(s: State, a: Action, p: Path)
    requires Good(s) && Enabled(s, a) && (a.WriteStale? || a.WriteCompletion?)
    ensures FailedEarly(s.rows, p) || !FailedEarly(Apply(s, a).rows, p)
  {
    if a.WriteStale? {
      StaleIs(s, a.thread, a.acknowledged);
    } else {
      CompletionIs(s, a.thread, a.outcome, a.acknowledged);
    }
    hide Good, Apply, Settled;
  }

  lemma QuietFailsNothing(s: State, a: Action, p: Path)
    requires Enabled(s, a) && !a.WriteFailure? && !a.WriteStale? && !a.WriteCompletion? && !a.ClaimJobs?
    requires !a.ReleasePending?
    ensures FailedEarly(s.rows, p) || !FailedEarly(Apply(s, a).rows, p)
  {
    OtherStepsAre(s, a);
    if p in s.rows {
      RecoveredIs(s.rows, false, s.now, p);
      RecoveredIs(s.rows, true, s.now, p);
    }
    if a.Dispatch? {
      DispatchIs(s.rows, s.now, a.path, a.version, a.priority);
    }
    hide Apply, Recover, DispatchRow, Settled;
  }

  lemma ClaimFailsNothing(s: State, t: Tid, limit: nat, due: seq<Path>, p: Path)
    requires Enabled(s, ClaimJobs(t, limit, due)) && !FailedEarly(s.rows, p)
    ensures !FailedEarly(Apply(s, ClaimJobs(t, limit, due)).rows, p)
  {
    ClaimIs(s, t, limit, due);
    hide Apply, Enabled, BatchHeld, BatchRegistered;
    if BufferOf(s.memory, t) == [] && p in due {
      var i :| 0 <= i < |due| && due[i] == p;
    }
  }

  lemma ReleaseFailsNothing(s: State, t: Tid, delivered: bool, p: Path)
    requires Good(s) && !FailedEarly(s.rows, p)
    ensures !FailedEarly(Released(s, t, delivered).rows, p)
  {
    var jobs := BufferOf(s.memory, t);
    assert DistinctTokens(jobs);
    if p in s.rows {
      ReleaseIs(s.rows, jobs, p);
    } else {
      ReleaseKeepsKeys(s.rows, jobs);
    }
    hide ReleaseAll, Good;
  }

  lemma {:induction false} ReleaseKeepsKeys(rows: Rows, jobs: seq<Job>)
    ensures ReleaseAll(rows, jobs).Keys == rows.Keys
  {
    if jobs != [] {
      ReleaseKeepsKeys(rows, jobs[..|jobs| - 1]);
    }
  }

  /** Some step of the run reports a permanent failure of the job that holds row p. */
  ghost predicate FailedForGood(s: State, actions: seq<Action>, p: Path)
    requires Runs(s, actions)
    decreases |actions|
  {
    actions != [] && (FailsForGood(s, actions[0], p) || FailedForGood(Apply(s, actions[0]), actions[1..], p))
  }

  /** Over every run a row is failed with attempts left only by a permanent failure, reported under the row's claim. */
  lemma {:induction false} NoEarlyFailure(s: State, actions: seq<Action>, p: Path)
    requires Good(s) && Runs(s, actions) && !FailedEarly(s.rows, p)
    ensures FailedEarly(After(s, actions).rows, p) ==> FailedForGood(s, actions, p)
    decreases |actions|
  {
    if actions != [] {
      var u := Apply(s, actions[0]);
      ApplyKeepsGood(s, actions[0]);
      if FailedEarly(u.rows, p) {
        EarlyFailureIsPermanent(s, actions[0], p);
      } else {
        NoEarlyFailure(u, actions[1..], p);
      }
    }
  }

  // ---------------------------------------------------------------- what takes a claim off its row

  /** Slot i of thread t's buffer holds claim k. */
  ghost predicate Slot(m: Memory, t: Tid, i: nat, k: Token) {
    t in m.buffers && i < |m.buffers[t]| && m.buffers[t][i].token == k
  }

  ghost predicate RunsClaim(m: Memory, t: Tid, k: Token) {
    t in m.running && m.running[t].token == k
  }

  ghost predicate Holds(s: State, k: Token) {
    k in s.memory.claims && Owns(s.rows, s.memory.claims[k].job)
  }

  /** The steps that take claim k off its row; the supervisor and a dispatch of the same version only a lapsed one. */
  ghost predicate Ends(s: State, a: Action, k: Token)
    requires Enabled(s, a) && Holds(s, k)
  {
    var j := s.memory.claims[k].job;
    match a
    case Dispatch(p, version, _) => p == j.path && (version != j.version || Expired(s.rows[p], s.now))
    case CompletedElsewhere(p, _, _) => p == j.path
    case WriteStale(t, _) => RunsClaim(s.memory, t, k)
    case WriteCompletion(t, _, _) => RunsClaim(s.memory, t, k)
    case WriteFailure(t, _, _, _) => RunsClaim(s.memory, t, k)
    case ReleasePending(t, delivered) => delivered && exists i :: Slot(s.memory, t, i, k)
    case Supervise => Expired(s.rows[j.path], s.now)
    case Restart => true
    case _ => false
  }

  lemma HeldClaimIsFenced(s: State, k: Token)
    requires Good(s) && Holds(s, k)
    ensures Fenced(s.rows, s.memory.claims[k].job) && s.memory.claims[k].job.token == k
  {
  }

  lemma IssueAllLeavesOthers(s: State, t: Tid, due: seq<Path>, p: Path)
    requires p in s.rows && p !in due && forall q :: q in due ==> q in s.rows
    ensures IssueAll(s, t, due).rows[p] == s.rows[p]
  {
    if due != [] {
      IssueAllLeavesOthers(s, t, due[..|due| - 1], p);
    }
  }

  /** A release takes a claim off its row iff the claim is among those given back. */
  lemma {:induction false} ReleaseEndsIff(rows: Rows, jobs: seq<Job>, x: Job)
    requires Owns(rows, x) && forall j :: j in jobs && j.token == x.token ==> j == x
    ensures !Owns(ReleaseAll(rows, jobs), x) <==> x in jobs
  {
    if jobs != [] {
      var front, last := jobs[..|jobs| - 1], jobs[|jobs| - 1];
      assert jobs == front + [last] && last in jobs;
      ReleaseEndsIff(rows, front, x);
    }
  }

  lemma ReleasePendingEndsIff(s: State, t: Tid, delivered: bool, k: Token)
    requires Good(s) && Holds(s, k)
    ensures !Owns(Released(s, t, delivered).rows, s.memory.claims[k].job) <==>
            delivered && exists i :: Slot(s.memory, t, i, k)
  {
    var x, jobs := s.memory.claims[k].job, BufferOf(s.memory, t);
    forall j | j in jobs && j.token == k
      ensures j == x
    {
      assert At(s.memory.claims, j, InBuffer(t));
    }
    HeldClaimIsFenced(s, k);
    ReleaseEndsIff(s.rows, jobs, x);
    hide Good, ReleaseAll, DropBuffer;
    if x in jobs {
      var i :| 0 <= i < |jobs| && jobs[i] == x;
      assert Slot(s.memory, t, i, k);
    }
    if i: nat :| Slot(s.memory, t, i, k) {
      assert jobs[i] in jobs;
    }
  }

  lemma WriteEndsIff(s: State, a: Action, k: Token)
    requires Good(s) && Enabled(s, a) && Holds(s, k)
    requires a.WriteStale? || a.WriteCompletion? || a.WriteFailure?
    ensures !Owns(Apply(s, a).rows, s.memory.claims[k].job) <==> RunsClaim(s.memory, a.thread, k)
  {
    var j := s.memory.running[a.thread];
    RunningJobIsClaim(s, a.thread);
    HeldClaimIsFenced(s, k);
    hide Good;
  }

  /** Exactly these steps take a claim off its row, whatever else is going on. */
  lemma StepEndsClaimIff(s: State, a: Action, k: Token)
    requires Good(s) && Enabled(s, a) && Holds(s, k)
    ensures !Owns(Apply(s, a).rows, s.memory.claims[k].job) <==> Ends(s, a, k)
  {
    HeldClaimIsFenced(s, k);
    hide Good;
    match a
    case WriteStale(_, _) => WriteEndsIff(s, a, k);
    case WriteCompletion(_, _, _) => WriteEndsIff(s, a, k);
    case WriteFailure(_, _, _, _) => WriteEndsIff(s, a, k);
    case ReleasePending(t, delivered) => ReleasePendingEndsIff(s, t, delivered, k);
    case ClaimJobs(t, limit, due) =>
      if BufferOf(s.memory, t) == [] {
        IssueAllLeavesOthers(s, t, due, s.memory.claims[k].job.path);
      }
    case _ =>
  }

  /** No step forgets or rewrites an issued claim. */
  lemma ClaimsStay(s: State, a: Action)
    requires Good(s) && Enabled(s, a)
    ensures ClaimsGrow(s.memory.claims, Apply(s, a).memory.claims)
  {
    match a
    case ClaimJobs(t, limit, due) =>
      if BufferOf(s.memory, t) == [] {
        IssueAllKeepsClaims(s, t, due);
      } else {
        assert At(s.memory.claims, s.memory.buffers[t][0], InBuffer(t));
      }
    case WriteStale(t, _) => RunningJobIsClaim(s, t); KeptBySettling(s, a, MarkedStale(s, s.memory.running[t]));
    case WriteCompletion(t, o, _) =>
      RunningJobIsClaim(s, t);
      KeptBySettling(s, a, Completed(s, s.memory.running[t], o));
    case WriteFailure(t, w, d, _) =>
      RunningJobIsClaim(s, t);
      KeptBySettling(s, a, FailureHandled(s, s.memory.running[t], w, d));
    case Abandon(t) => RunningJobIsClaim(s, t);
    case _ =>
  }

  lemma KeptBySettling(s: State, a: Action, written: State)
    requires Good(s) && Enabled(s, a) && (a.WriteStale? || a.WriteCompletion? || a.WriteFailure?)
    requires written.memory == s.memory && Apply(s, a) == Settle(written, a.thread, a.acknowledged)
    ensures ClaimsGrow(s.memory.claims, Apply(s, a).memory.claims)
  {
    RunningJobIsClaim(s, a.thread);
    hide Good, Apply;
  }

  lemma IssueAllKeepsClaims(s: State, t: Tid, due: seq<Path>)
    requires Good(s) && forall p :: p in due ==> p in s.rows
    ensures ClaimsGrow(s.memory.claims, IssueAll(s, t, due).memory.claims)
  {
    if due != [] {
      var before := IssueAll(s, t, due[..|due| - 1]);
      IssueAllKeepsClaims(s, t, due[..|due| - 1]);
      IssueAllKeepsGood(s, t, due[..|due| - 1]);
      assert before.memory.nextToken !in before.memory.claims;
    }
  }

  /** Some step of the run takes claim k, which it still finds on its row, off it. */
  ghost predicate EndedIn(s: State, actions: seq<Action>, k: Token)
    requires Runs(s, actions) && Holds(s, k)
    decreases |actions|
  {
    actions != [] &&
    var s' := Apply(s, actions[0]);
    Ends(s, actions[0], k) || (Holds(s', k) && EndedIn(s', actions[1..], k))
  }

  /** Over whole runs: a claim is off its row at the end iff one of exactly these steps took it off. */
  lemma {:induction false} ClaimEndsIff(s: State, actions: seq<Action>, k: Token)
    requires Good(s) && Runs(s, actions) && Holds(s, k)
    ensures !Owns(After(s, actions).rows, s.memory.claims[k].job) <==> EndedIn(s, actions, k)
    decreases |actions|
  {
    if actions != [] {
      var s' := Apply(s, actions[0]);
      StepEndsClaimIff(s, actions[0], k);
      ClaimsStay(s, actions[0]);
      ApplyKeepsGood(s, actions[0]);
      hide Good, Apply, Ends, Enabled;
      if Holds(s', k) {
        ClaimEndsIff(s', actions[1..], k);
      } else {
        LostClaimIsFinal(s', actions[1..], k);
      }
    }
  }

  /**
   * A claim with an unexpired lease leaves its row only by a write of the thread that runs it, by its own thread's
   * release, by a dispatch of another version, by completion elsewhere, or by a restart.
   */
  lemma LiveClaimEndsOnlyBy(s: State, a: Action, k: Token)
    requires Good(s) && Enabled(s, a) && Holds(s, k) && !Expired(s.rows[s.memory.claims[k].job.path], s.now)
    requires !Owns(Apply(s, a).rows, s.memory.claims[k].job)
    ensures var j := s.memory.claims[k].job;
      || ((a.WriteStale? || a.WriteCompletion? || a.WriteFailure?) && RunsClaim(s.memory, a.thread, k))
      || (a.ReleasePending? && exists i :: Slot(s.memory, a.thread, i, k))
      || (a.Dispatch? && a.path == j.path && a.version != j.version)
      || (a.CompletedElsewhere? && a.path == j.path)
      || a.Restart?
  {
    StepEndsClaimIff(s, a, k);
    hide Good, Apply, Enabled;
  }

  lemma IssueAllWritesNothing(s: State, t: Tid, due: seq<Path>)
    requires forall p :: p in due ==> p in s.rows
    ensures IssueAll(s, t, due).metadata == s.metadata && IssueAll(s, t, due).effects == s.effects
  {
    if due != [] {
      IssueAllWritesNothing(s, t, due[..|due| - 1]);
    }
  }

  /** Metadata changes only at the path of a running job that holds its row, and that step ends the claim. */
  lemma MetadataIsWrittenUnderTheClaim(s: State, a: Action)
    requires Good(s) && Enabled(s, a)
    ensures var s' := Apply(s, a);
      s'.metadata != s.metadata || s'.effects.metadata != s.effects.metadata ==>
        && a.WriteCompletion?
        && var j := s.memory.running[a.thread];
        && Fenced(s.rows, j) && !Owns(s'.rows, j) && s'.rows[j.path].state == a.outcome
        && s'.metadata == s.metadata[j.path := j.version]
        && s'.effects == Effects(s.effects.terminal + multiset{j.token}, s.effects.metadata + multiset{j.token})
  {
    hide Good;
    if a.WriteCompletion? {
      RunningJobIsClaim(s, a.thread);
    } else {
      OthersWriteNoMetadata(s, a);
    }
  }

  lemma OthersWriteNoMetadata(s: State, a: Action)
    requires Enabled(s, a) && !a.WriteCompletion?
    ensures Apply(s, a).metadata == s.metadata && Apply(s, a).effects.metadata == s.effects.metadata
  {
    if a.ClaimJobs? && BufferOf(s.memory, a.thread) == [] {
      IssueAllWritesNothing(s, a.thread, a.due);
    }
    hide Recover, DispatchRow, ReleaseAll, RenewRow, DropBuffer, TakeBuffered, Forget;
  }

  /** Every issued claim is in one buffer slot, or run by one thread, or given back, and never in two of these. */
  lemma EveryClaimHasOnePlace(m: Memory, k: Token)
    requires MemoryOk(m) && k in m.claims
    ensures forall t, i, u, j :: Slot(m, t, i, k) && Slot(m, u, j, k) ==> t == u && i == j
    ensures forall t, u :: RunsClaim(m, t, k) && RunsClaim(m, u, k) ==> t == u
    ensures forall t, i, u :: Slot(m, t, i, k) ==> !RunsClaim(m, u, k)
    ensures m.claims[k].place == GivenBack <==> !(exists t, i :: Slot(m, t, i, k)) && !(exists t :: RunsClaim(m, t, k))
  {
    forall t, i: nat | Slot(m, t, i, k)
      ensures m.claims[k].place == InBuffer(t)
    {
      assert At(m.claims, m.buffers[t][i], InBuffer(t));
    }
    forall t, i: nat, j: nat | Slot(m, t, i, k) && Slot(m, t, j, k)
      ensures i == j
    {
      assert DistinctTokens(m.buffers[t]);
    }
    forall t | RunsClaim(m, t, k)
      ensures m.claims[k].place == RunBy(t)
    {
      assert At(m.claims, m.running[t], RunBy(t));
    }
    match m.claims[k].place
    case InBuffer(t) =>
      var i :| 0 <= i < |m.buffers[t]| && m.buffers[t][i] == m.claims[k].job;
      assert Slot(m, t, i, k);
    case RunBy(t) => assert RunsClaim(m, t, k);
    case GivenBack =>
  }

  // ---------------------------------------------------------------- the heartbeat registry

  /** A buffered claim that still holds its row is registered, so that a heartbeat renews its lease. */
  ghost predicate LiveRegistered(s: State) {
    forall t, j :: t in s.memory.buffers && j in s.memory.buffers[t] && Owns(s.rows, j) ==>
      j.path in s.memory.pending && s.memory.pending[j.path] == j
  }

  /** The registry is keyed by path: the entry of j's path may belong to a newer claim that holds the row. */
  ghost predicate EntryIsNewer(s: State, j: Job) {
    j.path in s.memory.pending && s.memory.pending[j.path] != j && Owns(s.rows, s.memory.pending[j.path])
  }

  lemma NewerEntryIsMissed(s: State, t: Tid)
    requires Good(s) && t !in s.memory.running && BufferOf(s.memory, t) != []
    requires EntryIsNewer(s, s.memory.buffers[t][0])
    ensures !LiveRegistered(s.(memory := TakeBuffered(s.memory, t)))
  {
    var m, j := s.memory, s.memory.buffers[t][0];
    var newer := m.pending[j.path];
    var u := m.claims[newer.token].place.thread;
    assert m.buffers[t] == [j] + m.buffers[t][1..];
    assert newer in m.buffers[u];
    hide Good;
    assert newer in TakeBuffered(m, t).buffers[u];
  }

  /** Starting a buffered job unregisters a live claim iff the entry under its path is a newer claim's. */
  lemma TakeKeepsRegisteredIff(s: State, t: Tid)
    requires Good(s) && LiveRegistered(s) && t !in s.memory.running && BufferOf(s.memory, t) != []
    ensures LiveRegistered(s.(memory := TakeBuffered(s.memory, t))) <==> !EntryIsNewer(s, s.memory.buffers[t][0])
  {
    var m, j := s.memory, s.memory.buffers[t][0];
    var s' := s.(memory := TakeBuffered(m, t));
    if EntryIsNewer(s, j) {
      NewerEntryIsMissed(s, t);
    } else {
      hide Good;
      forall u, x | u in s'.memory.buffers && x in s'.memory.buffers[u] && Owns(s.rows, x)
        ensures x.path in s'.memory.pending && s'.memory.pending[x.path] == x
      {
        TakenIsGone(s, t, u, x);
      }
    }
  }

  lemma TakenIsGone(s: State, t: Tid, u: Tid, x: Job)
    requires Good(s) && BufferOf(s.memory, t) != []
    requires u in TakeBuffered(s.memory, t).buffers && x in TakeBuffered(s.memory, t).buffers[u]
    ensures u in s.memory.buffers && x in s.memory.buffers[u] && x != s.memory.buffers[t][0]
  {
    var b := s.memory.buffers[t];
    assert At(s.memory.claims, b[0], InBuffer(t));
    if u == t {
      var i :| 0 <= i < |b[1..]| && b[1..][i] == x;
      assert b[i + 1] == x && b[0].token != b[i + 1].token;
    } else {
      assert At(s.memory.claims, x, InBuffer(u));
    }
  }

  lemma {:induction false} ReleaseKeepsOthers(rows: Rows, jobs: seq<Job>, x: Job)
    requires forall j :: j in jobs ==> j.token != x.token
    ensures Owns(ReleaseAll(rows, jobs), x) == Owns(rows, x)
  {
    if jobs != [] {
      assert jobs[|jobs| - 1] in jobs;
      ReleaseKeepsOthers(rows, jobs[..|jobs| - 1], x);
    }
  }

  /** A shutdown drops an entry that belongs to another thread's live claim. */
  ghost predicate ReleaseDropsNewer(s: State, t: Tid) {
    exists j :: j in BufferOf(s.memory, t) && EntryIsNewer(s, j) && s.memory.pending[j.path] !in BufferOf(s.memory, t)
  }

  lemma OthersKeepTokens(s: State, t: Tid, u: Tid, x: Job)
    requires Good(s) && u in s.memory.buffers && x in s.memory.buffers[u] && x !in BufferOf(s.memory, t)
    ensures forall j :: j in BufferOf(s.memory, t) ==> j.token != x.token
  {
    forall j | j in BufferOf(s.memory, t)
      ensures j.token != x.token
    {
      assert At(s.memory.claims, j, InBuffer(t)) && At(s.memory.claims, x, InBuffer(u));
    }
  }

  lemma OneBuffer(s: State, t: Tid, u: Tid, x: Job)
    requires Good(s) && u in s.memory.buffers && x in s.memory.buffers[u]
    ensures x in BufferOf(s.memory, t) ==> t == u
    ensures x.token < s.memory.nextToken
  {
    assert At(s.memory.claims, x, InBuffer(u));
    if x in BufferOf(s.memory, t) {
      assert At(s.memory.claims, x, InBuffer(t));
    }
  }

  lemma DroppedEntryIsMissed(s: State, t: Tid, delivered: bool)
    requires Good(s) && ReleaseDropsNewer(s, t)
    ensures !LiveRegistered(Released(s, t, delivered))
  {
    var m, batch, s' := s.memory, BufferOf(s.memory, t), Released(s, t, delivered);
    var j :| j in batch && EntryIsNewer(s, j) && m.pending[j.path] !in batch;
    var newer := m.pending[j.path];
    var u := m.claims[newer.token].place.thread;
    OthersKeepTokens(s, t, u, newer);
    ReleaseKeepsOthers(s.rows, batch, newer);
    hide ReleaseAll;
    assert newer in s'.memory.buffers[u] && newer.path !in s'.memory.pending && Owns(s'.rows, newer);
  }

  lemma OthersStayRegistered(s: State, t: Tid, delivered: bool)
    requires Good(s) && LiveRegistered(s) && !ReleaseDropsNewer(s, t)
    ensures LiveRegistered(Released(s, t, delivered))
  {
    hide ReleaseAll;
    var m, batch, s' := s.memory, BufferOf(s.memory, t), Released(s, t, delivered);
    forall u, x | u in s'.memory.buffers && x in s'.memory.buffers[u] && Owns(s'.rows, x)
      ensures x.path in s'.memory.pending && s'.memory.pending[x.path] == x
    {
      OneBuffer(s, t, u, x);
      OthersKeepTokens(s, t, u, x);
      ReleaseKeepsOthers(s.rows, batch, x);
      assert m.pending[x.path] == x;
      assert forall j :: j in batch && j.path == x.path ==> EntryIsNewer(s, j);
    }
  }

  /** Giving back a thread's buffer unregisters a live claim iff it drops another thread's entry. */
  lemma ReleaseKeepsRegisteredIff(s: State, t: Tid, delivered: bool)
    requires Good(s) && LiveRegistered(s)
    ensures LiveRegistered(Released(s, t, delivered)) <==> !ReleaseDropsNewer(s, t)
  {
    hide LiveRegistered, ReleaseDropsNewer, Released;
    if ReleaseDropsNewer(s, t) {
      DroppedEntryIsMissed(s, t, delivered);
    } else {
      OthersStayRegistered(s, t, delivered);
    }
  }

  lemma IssueKeepsRegistered(s: State, t: Tid, p: Path)
    requires Good(s) && LiveRegistered(s) && p in s.rows
    ensures LiveRegistered(IssueTo(s, t, p))
  {
    var s', k := IssueTo(s, t, p), s.memory.nextToken;
    forall u, x | u in s'.memory.buffers && x in s'.memory.buffers[u] && Owns(s'.rows, x)
      ensures x.path in s'.memory.pending && s'.memory.pending[x.path] == x
    {
      if u in s.memory.buffers && x in s.memory.buffers[u] {
        OneBuffer(s, t, u, x);
      }
    }
  }

  lemma {:induction false} IssueAllKeepsRegistered(s: State, t: Tid, due: seq<Path>)
    requires Good(s) && LiveRegistered(s) && forall p :: p in due ==> p in s.rows
    ensures LiveRegistered(IssueAll(s, t, due))
  {
    if due != [] {
      var front := due[..|due| - 1];
      IssueAllKeepsRegistered(s, t, front);
      IssueAllKeepsGood(s, t, front);
      IssueKeepsRegistered(IssueAll(s, t, front), t, due[|due| - 1]);
    }
  }

  lemma FewerOwnersStayRegistered(s: State, s': State)
    requires LiveRegistered(s) && Loosens(s.rows, s'.rows)
    requires s'.memory.buffers == s.memory.buffers && s'.memory.pending == s.memory.pending
    ensures LiveRegistered(s')
  {
  }

  /** The step takes an entry out of the registry that belongs to another, live claim. */
  ghost predicate DropsLiveEntry(s: State, a: Action)
    requires Enabled(s, a)
  {
    match a
    case ClaimJobs(t, _, _) => BufferOf(s.memory, t) != [] && EntryIsNewer(s, s.memory.buffers[t][0])
    case ReleasePending(t, _) => ReleaseDropsNewer(s, t)
    case _ => false
  }

  /** Every step keeps live buffered claims registered, except exactly those that drop another claim's entry. */
  lemma RegistryKeptIff(s: State, a: Action)
    requires Good(s) && LiveRegistered(s) && Enabled(s, a)
    ensures LiveRegistered(Apply(s, a)) <==> !DropsLiveEntry(s, a)
  {
    match a
    case ClaimJobs(t, limit, due) =>
      if BufferOf(s.memory, t) == [] {
        IssueAllKeepsRegistered(s, t, due);
      } else {
        TakeKeepsRegisteredIff(s, t);
      }
    case ReleasePending(t, delivered) =>
      ReleaseKeepsRegisteredIff(s, t, delivered);
    case Restart => assert Apply(s, a).memory.buffers == map[];
    case _ => QuietKeepsRegistered(s, a);
  }

  ghost predicate OnlyLoosens(s: State, s': State) {
    Loosens(s.rows, s'.rows) && s'.memory.buffers == s.memory.buffers && s'.memory.pending == s.memory.pending
  }

  lemma WriteFunctionsLoosen(s: State, j: Job, outcome: JobState, transient: bool, delay: nat)
    ensures OnlyLoosens(s, Completed(s, j, outcome)) && OnlyLoosens(s, MarkedStale(s, j))
    ensures OnlyLoosens(s, FailureHandled(s, j, transient, delay))
    ensures Completed(s, j, outcome).memory == s.memory && MarkedStale(s, j).memory == s.memory
    ensures FailureHandled(s, j, transient, delay).memory == s.memory
  {
    if j.path in s.rows {
      var r := s.rows[j.path];
      var written := s.(metadata := s.metadata[j.path := j.version],
                        effects := s.effects.(metadata := s.effects.metadata + multiset{j.token}));
      TerminalLoosens(s, j, Unclaimed(r, Stale));
      TerminalLoosens(s, j, Unclaimed(r, Failed));
      TerminalLoosens(s, j, Unclaimed(r, Queued).(dueAt := Some(s.now + delay)));
      TerminalLoosens(written, j, Unclaimed(r, outcome));
    }
    hide Terminal;
  }

  lemma TerminalLoosens(s: State, j: Job, row: Row)
    requires row.token.None?
    ensures OnlyLoosens(s, Terminal(s, j, row)) && Terminal(s, j, row).memory == s.memory
  {
  }

  lemma SettleLoosens(s: State, s': State, t: Tid, acknowledged: bool)
    requires OnlyLoosens(s, s') && t in s'.memory.running
    ensures OnlyLoosens(s, Settle(s', t, acknowledged))
  {
  }

  lemma WritesLoosen(s: State, a: Action)
    requires Enabled(s, a) && (a.WriteStale? || a.WriteCompletion? || a.WriteFailure? || a.Abandon?)
    ensures OnlyLoosens(s, Apply(s, a))
  {
    hide Completed, MarkedStale, FailureHandled, Settle, OnlyLoosens;
    match a
    case WriteStale(t, ack) =>
      WriteFunctionsLoosen(s, s.memory.running[t], Stale, false, 0);
      SettleLoosens(s, MarkedStale(s, s.memory.running[t]), t, ack);
    case WriteCompletion(t, outcome, ack) =>
      WriteFunctionsLoosen(s, s.memory.running[t], outcome, false, 0);
      SettleLoosens(s, Completed(s, s.memory.running[t], outcome), t, ack);
    case WriteFailure(t, transient, delay, ack) =>
      WriteFunctionsLoosen(s, s.memory.running[t], Failed, transient, delay);
      SettleLoosens(s, FailureHandled(s, s.memory.running[t], transient, delay), t, ack);
    case Abandon(t) => FinishLoosens(s, t);
  }

  lemma FinishLoosens(s: State, t: Tid)
    requires t in s.memory.running
    ensures OnlyLoosens(s, s.(memory := Finish(s.memory, t)))
  {
  }

  lemma QuietLoosens(s: State, a: Action)
    requires Enabled(s, a) && (a.Advance? || a.Dispatch? || a.CompletedElsewhere? || a.Renew? || a.Supervise?)
    ensures OnlyLoosens(s, Apply(s, a)) && Apply(s, a).memory == s.memory && Apply(s, a).effects == s.effects
  {
  }

  lemma QuietKeepsRegistered(s: State, a: Action)
    requires Good(s) && LiveRegistered(s) && Enabled(s, a) && !a.ClaimJobs? && !a.ReleasePending? && !a.Restart?
    ensures LiveRegistered(Apply(s, a))
  {
    hide LiveRegistered, Apply, Good;
    if a.WriteStale? || a.WriteCompletion? || a.WriteFailure? || a.Abandon? {
      WritesLoosen(s, a);
    } else {
      QuietLoosens(s, a);
    }
    FewerOwnersStayRegistered(s, Apply(s, a));
  }

  lemma RunsStep(s: State, a: Action, rest: seq<Action>)
    requires Enabled(s, a) && Runs(Apply(s, a), rest)
    ensures Runs(s, [a] + rest) && After(s, [a] + rest) == After(Apply(s, a), rest)
  {
    assert ([a] + rest)[1..] == rest;
  }

  /** The shortest way to lose a live claim's entry: leases lapse, a second thread reclaims, the first moves on. */
  lemma NewerClaimIsUnregistered() returns (s: State, actions: seq<Action>)
    ensures Start(s) && Runs(s, actions) && !LiveRegistered(After(s, actions))
  {
    var q := Row(7, Queued, 0, None, None, None, 3, 0);
    var memory := Memory(map[], 0, map[], map[], map[]);
    s := State(0, map["a" := q, "b" := q], memory, Effects(multiset{}, multiset{}), map[]);
    BatchOfTwo(s, 1, "a", "b");
    PairIsHead(q, 0);
    hide IsQueueHead, IssueAll, After, Runs, LiveRegistered;
    assert Enabled(s, ClaimJobs(1, 2, ["a", "b"]));
    var rest := LapseUnregisters(IssueAll(s, 1, ["a", "b"]));
    RunsStep(s, ClaimJobs(1, 2, ["a", "b"]), rest);
    actions := [ClaimJobs(1, 2, ["a", "b"])] + rest;
  }

  lemma LapseUnregisters(s: State) returns (actions: seq<Action>)
    requires s.now == 0 && s.memory.running.Keys == {1} && s.memory.buffers.Keys == {1} && s.memory.nextToken == 2
    requires |s.memory.buffers[1]| == 1 && s.memory.buffers[1][0].path == "b"
    requires s.rows == map["a" := Row(7, Running, 1, Some(0), Some(LEASE), None, 3, 0),
                           "b" := Row(7, Running, 1, Some(1), Some(LEASE), None, 3, 0)]
    ensures Runs(s, actions) && !LiveRegistered(After(s, actions))
  {
    var s1 := s.(now := LEASE);
    var q := Row(7, Queued, 1, None, None, None, 3, 0);
    var s2 := s1.(rows := Recover(s1.rows, true, s1.now));
    assert s2.rows == map["a" := q, "b" := q];
    hide After, Runs, LiveRegistered, Recover;
    var rest := ReclaimUnregisters(s2);
    RunsStep(s1, Supervise, rest);
    RunsStep(s, Advance(LEASE), [Supervise] + rest);
    actions := [Advance(LEASE)] + ([Supervise] + rest);
  }

  lemma ReclaimUnregisters(s: State) returns (actions: seq<Action>)
    requires var q := Row(7, Queued, 1, None, None, None, 3, 0); s.rows == map["a" := q, "b" := q]
    requires s.memory.running.Keys == {1} && s.memory.buffers.Keys == {1} && s.memory.nextToken == 2
    requires |s.memory.buffers[1]| == 1 && s.memory.buffers[1][0].path == "b"
    ensures Runs(s, actions) && !LiveRegistered(After(s, actions))
  {
    BatchOfTwo(s, 2, "a", "b");
    PairIsHead(s.rows["a"], s.now);
    hide IsQueueHead, IssueAll, After, Runs, LiveRegistered;
    assert Enabled(s, ClaimJobs(2, 2, ["a", "b"]));
    var rest := MovingOnUnregisters(IssueAll(s, 2, ["a", "b"]));
    RunsStep(s, ClaimJobs(2, 2, ["a", "b"]), rest);
    actions := [ClaimJobs(2, 2, ["a", "b"])] + rest;
  }

  lemma MovingOnUnregisters(s: State) returns (actions: seq<Action>)
    requires 1 in s.memory.running && 1 in s.memory.buffers
    requires |s.memory.buffers[1]| == 1 && s.memory.buffers[1][0].path == "b"
    requires 2 in s.memory.buffers && |s.memory.buffers[2]| == 1
    requires var j := s.memory.buffers[2][0]; j.path == "b" && Owns(s.rows, j)
    ensures Runs(s, actions) && !LiveRegistered(After(s, actions))
  {
    var s1 := s.(memory := Finish(s.memory, 1));
    var s2 := s1.(memory := TakeBuffered(s1.memory, 1));
    assert s.memory.buffers[2][0] in s2.memory.buffers[2] && "b" !in s2.memory.pending;
    RunsStep(s1, ClaimJobs(1, 2, []), []);
    RunsStep(s, Abandon(1), [ClaimJobs(1, 2, [])]);
    actions := [Abandon(1)] + [ClaimJobs(1, 2, [])];
  }

  /** An idle thread with an empty buffer runs the first job of its batch and buffers the second. */
  lemma BatchOfTwo(s: State, t: Tid, p: Path, q: Path)
    requires p in s.rows && q in s.rows && p != q && t !in s.memory.running && BufferOf(s.memory, t) == []
    ensures var k, r, u, s' := s.memory.nextToken, s.rows[p], s.rows[q], IssueAll(s, t, [p, q]);
      var first, second := Job(p, r.version, r.attempts + 1, k), Job(q, u.version, u.attempts + 1, k + 1);
      && s'.rows == s.rows[p := ClaimedRow(r, k, s.now)][q := ClaimedRow(u, k + 1, s.now)]
      && s'.memory.running == s.memory.running[t := first] && s'.memory.buffers == s.memory.buffers[t := [second]]
      && s'.memory.pending == s.memory.pending[q := second] && s'.memory.nextToken == k + 2
      && s'.now == s.now && s'.metadata == s.metadata && s'.effects == s.effects
  {
    hide IssueAll, IssueTo, ClaimedRow;
    IssueOneByOne(s, t, p, q);
    var s1 := IssueTo(s, t, p);
    IssueToRows(s, t, p);
    IssueToIs(s, t, p);
    assert s1.rows[q] == s.rows[q];
    IssueToRows(s1, t, q);
    IssueToIs(s1, t, q);
    var second := Job(q, s.rows[q].version, s.rows[q].attempts + 1, s.memory.nextToken + 1);
    assert BufferOf(s1.memory, t) == [] && BufferOf(s1.memory, t) + [second] == [second];
  }

  lemma IssueOneByOne(s: State, t: Tid, p: Path, q: Path)
    requires p in s.rows && q in s.rows
    ensures IssueAll(s, t, [p, q]) == IssueTo(IssueTo(s, t, p), t, q)
  {
    hide IssueTo;
    assert [p, q][..1] == [p] && [p][..0] == [];
    assert IssueAll(s, t, []) == s;
  }

  lemma IssueToRows(s: State, t: Tid, p: Path)
    requires p in s.rows
    ensures var u := IssueTo(s, t, p);
      && u.rows == s.rows[p := ClaimedRow(s.rows[p], s.memory.nextToken, s.now)]
      && u.metadata == s.metadata && u.effects == s.effects
  {
  }

  // ---------------------------------------------------------------- the worker object

  /** The renewals of one heartbeat: every listed claim that still holds its row gets a new lease. */
  function Renewed(rows: Rows, jobs: set<Job>, until: int): Rows {
    map p | p in rows ::
      if exists j :: j in jobs && j.path == p && Owns(rows, j) then rows[p].(lease := Some(until)) else rows[p]
  }

  lemma RenewOneMore(rows: Rows, jobs: set<Job>, j: Job, until: int)
    ensures RenewRow(Renewed(rows, jobs, until), j, until) == Renewed(rows, jobs + {j}, until)
  {
    assert Owns(Renewed(rows, jobs, until), j) == Owns(rows, j);
  }

  method RenewClaims(rows: Rows, job: Job, waiting: set<Job>, until: int) returns (after: Rows, renewed: bool)
    ensures after == Renewed(rows, {job} + waiting, until)
    ensures renewed <==> Owns(rows, job)
  {
    renewed := Owns(rows, job);
    after := RenewRow(rows, job, until);
    ghost var done := {job};
    var left := waiting;
    while left != {}
      invariant done == {job} + (waiting - left) && left <= waiting
      invariant after == Renewed(rows, done, until)
      decreases |left|
    {
      var j :| j in left;
      RenewOneMore(rows, done, j, until);
      after := RenewRow(after, j, until);
      left, done := left - {j}, done + {j};
    }
    assert done == {job} + waiting;
  }

  function CountOwned(rows: Rows, jobs: seq<Job>): nat {
    if jobs == [] then 0 else CountOwned(rows, jobs[..|jobs| - 1]) + if Owns(rows, jobs[|jobs| - 1]) then 1 else 0
  }

  ghost function OwnedJobs(rows: Rows, jobs: seq<Job>): set<Job> {
    set j | j in jobs && Owns(rows, j)
  }

  lemma LastIsNew(front: seq<Job>, j: Job)
    requires DistinctTokens(front + [j])
    ensures DistinctTokens(front) && j !in front
  {
    var jobs := front + [j];
    assert forall i :: 0 <= i < |front| ==> jobs[i] == front[i];
    assert jobs[|front|] == j;
  }

  lemma OneMoreOwned(rows: Rows, front: seq<Job>, j: Job)
    requires j !in front
    ensures |OwnedJobs(rows, front + [j])| == |OwnedJobs(rows, front)| + if Owns(rows, j) then 1 else 0
    ensures CountOwned(rows, front + [j]) == CountOwned(rows, front) + if Owns(rows, j) then 1 else 0
  {
    hide Owns;
    assert (front + [j])[..|front|] == front;
    assert OwnedJobs(rows, front + [j]) == OwnedJobs(rows, front) + if Owns(rows, j) then {j} else {};
  }

  lemma {:induction false} CountOwnedIs(rows: Rows, jobs: seq<Job>)
    requires DistinctTokens(jobs)
    ensures CountOwned(rows, jobs) == |OwnedJobs(rows, jobs)|
  {
    if jobs != [] {
      hide Owns, OwnedJobs, DistinctTokens, CountOwned;
      var front, j := jobs[..|jobs| - 1], jobs[|jobs| - 1];
      assert jobs == front + [j];
      LastIsNew(front, j);
      CountOwnedIs(rows, front);
      OneMoreOwned(rows, front, j);
    }
  }

  /** The releases of one shutdown; the count is the number of claims that still held their row. */
  method ReleaseClaims(rows: Rows, jobs: seq<Job>) returns (after: Rows, released: nat)
    requires DistinctTokens(jobs)
    ensures after == ReleaseAll(rows, jobs)
    ensures released == CountOwned(rows, jobs) == |OwnedJobs(rows, jobs)|
  {
    CountOwnedIs(rows, jobs);
    hide OwnedJobs;
    after, released := rows, 0;
    var i := 0;
    while i < |jobs|
      invariant 0 <= i <= |jobs|
      invariant after == ReleaseAll(rows, jobs[..i]) && released == CountOwned(rows, jobs[..i])
    {
      assert jobs[..i + 1][..i] == jobs[..i];
      ReleaseKeepsOthers(rows, jobs[..i], jobs[i]);
      released := if Owns(after, jobs[i]) then released + 1 else released;
      after := ReleaseRow(after, jobs[i]);
      i := i + 1;
    }
    assert jobs[..|jobs|] == jobs;
  }

  method Unregister(pending: map<Path, Job>, jobs: seq<Job>) returns (after: map<Path, Job>)
    ensures after == Unlisted(pending, jobs)
  {
    after := pending;
    var i := 0;
    while i < |jobs|
      invariant 0 <= i <= |jobs|
      invariant after == Unlisted(pending, jobs[..i])
    {
      assert jobs[..i + 1] == jobs[..i] + [jobs[i]];
      after := after - {jobs[i].path};
      i := i + 1;
    }
    assert jobs[..|jobs|] == jobs;
  }

  /** The running rows a recovery pass selects, each once, in the order the store lists them. */
  ghost predicate Selects(selected: seq<Path>, rows: Rows, expiredOnly: bool, now: int) {
    && Distinct(selected)
    && (forall p :: p in selected <==> p in rows && Recoverable(rows[p], expiredOnly, now))
  }

  function RecoveredAt(rows: Rows, paths: seq<Path>): Rows {
    map p | p in rows :: if p in paths then RecoveredRow(rows[p]) else rows[p]
  }

  lemma RecoverOneMore(rows: Rows, paths: seq<Path>, p: Path)
    requires p in rows && p !in paths
    ensures p in RecoveredAt(rows, paths) && RecoveredAt(rows, paths)[p] == rows[p]
    ensures RecoveredAt(rows, paths)[p := RecoveredRow(rows[p])] == RecoveredAt(rows, paths + [p])
  {
  }

  /** How many of the listed rows have no attempt left. */
  function Exhausted(rows: Rows, paths: seq<Path>): nat {
    if paths == [] then 0
    else
      var p := paths[|paths| - 1];
      Exhausted(rows, paths[..|paths| - 1]) + if p in rows && rows[p].attempts >= MAX_ATTEMPTS then 1 else 0
  }

  /** The recovery write: every selected row is failed or requeued, and the counters say how many of each. */
  method RecoverRunning(rows: Rows, selected: seq<Path>, expiredOnly: bool, now: int)
    returns (after: Rows, reset: nat, failed: nat)
    requires Selects(selected, rows, expiredOnly, now)
    ensures after == Recover(rows, expiredOnly, now)
    ensures failed == Exhausted(rows, selected) == |WithoutAttempts(rows, selected)| && reset + failed == |selected|
  {
    hide RecoveredAt, Recover, Selects, Exhausted, WithoutAttempts;
    SelectedAreRows(rows, selected, expiredOnly, now);
    NoneRecovered(rows);
    after, reset, failed := rows, 0, 0;
    var i := 0;
    assert selected[..0] == [];
    while i < |selected|
      invariant 0 <= i <= |selected|
      invariant after == RecoveredAt(rows, selected[..i])
      invariant failed == Exhausted(rows, selected[..i]) && reset + failed == i
    {
      var p := selected[i];
      assert selected[..i + 1] == selected[..i] + [p] && p in selected;
      NotYet(selected, i);
      RecoverOneMore(rows, selected[..i], p);
      ExhaustedOneMore(rows, selected[..i], p);
      if after[p].attempts >= MAX_ATTEMPTS {
        failed := failed + 1;
      } else {
        reset := reset + 1;
      }
      after := after[p := RecoveredRow(after[p])];
      i := i + 1;
    }
    assert selected[..|selected|] == selected;
  }

  lemma NoneRecovered(rows: Rows)
    ensures RecoveredAt(rows, []) == rows && Exhausted(rows, []) == 0
  {
  }

  lemma NotYet(selected: seq<Path>, i: nat)
    requires Distinct(selected) && i < |selected|
    ensures selected[i] !in selected[..i]
  {
  }

  ghost function WithoutAttempts(rows: Rows, paths: seq<Path>): set<Path> {
    set p | p in paths && p in rows && rows[p].attempts >= 3
  }

  /** The failed ones are counted one by one. */
  lemma {:induction false} ExhaustedIs(rows: Rows, paths: seq<Path>)
    requires Distinct(paths)
    ensures Exhausted(rows, paths) == |WithoutAttempts(rows, paths)|
  {
    if paths == [] {
      assert WithoutAttempts(rows, paths) == {};
    } else {
      var front, p := paths[..|paths| - 1], paths[|paths| - 1];
      assert paths == front + [p];
      ExhaustedIs(rows, front);
      assert p !in front;
      assert WithoutAttempts(rows, paths) ==
             WithoutAttempts(rows, front) + if p in rows && rows[p].attempts >= 3 then {p} else {};
    }
  }

  lemma ExhaustedOneMore(rows: Rows, paths: seq<Path>, p: Path)
    requires p in rows
    ensures Exhausted(rows, paths + [p]) == Exhausted(rows, paths) + if rows[p].attempts >= MAX_ATTEMPTS then 1 else 0
  {
    assert (paths + [p])[..|paths|] == paths;
  }

  lemma SelectedAreRows(rows: Rows, selected: seq<Path>, expiredOnly: bool, now: int)
    requires Selects(selected, rows, expiredOnly, now)
    ensures Distinct(selected) && (forall p :: p in selected ==> p in rows)
    ensures RecoveredAt(rows, selected) == Recover(rows, expiredOnly, now)
    ensures Exhausted(rows, selected) == |WithoutAttempts(rows, selected)|
  {
    ExhaustedIs(rows, selected);
    hide RecoveredRow;
  }

  // ---------------------------------------------------------------- worker threads

  /** A worker thread, named after its slot. */
  datatype WorkerThread = WorkerThread(slot: nat, alive: bool)

  function Alive(threads: seq<WorkerThread>): seq<WorkerThread> {
    if threads == [] then []
    else
      var last := threads[|threads| - 1];
      Alive(threads[..|threads| - 1]) + if last.alive then [last] else []
  }

  predicate HasSlot(threads: seq<WorkerThread>, slot: nat) {
    WorkerThread(slot, true) in threads
  }

  /** New threads for those of the first n slots that no living thread has. */
  function Replacements(alive: seq<WorkerThread>, n: nat): seq<WorkerThread> {
    if n == 0 then []
    else Replacements(alive, n - 1) + if HasSlot(alive, n) then [] else [WorkerThread(n, true)]
  }

  lemma {:induction false} AliveMembers(threads: seq<WorkerThread>, x: WorkerThread)
    ensures x in Alive(threads) <==> x in threads && x.alive
  {
    if threads != [] {
      assert threads == threads[..|threads| - 1] + [threads[|threads| - 1]];
      AliveMembers(threads[..|threads| - 1], x);
    }
  }

  lemma {:induction false} ReplacementMembers(alive: seq<WorkerThread>, n: nat, x: WorkerThread)
    ensures x in Replacements(alive, n) <==> x.alive && 1 <= x.slot <= n && !HasSlot(alive, x.slot)
  {
    if n > 0 {
      ReplacementMembers(alive, n - 1, x);
    }
  }

  /** How many threads serve a slot. */
  function Serving(threads: seq<WorkerThread>, slot: nat): nat {
    multiset(threads)[WorkerThread(slot, true)]
  }

  lemma ServingOneMore(threads: seq<WorkerThread>, n: nat, slot: nat)
    ensures Serving(threads + [WorkerThread(n, true)], slot) == Serving(threads, slot) + if n == slot then 1 else 0
    ensures threads + [] == threads
  {
  }

  lemma {:induction false} ReplacedOnce(alive: seq<WorkerThread>, n: nat, slot: nat)
    ensures Serving(Replacements(alive, n), slot) == if 1 <= slot <= n && !HasSlot(alive, slot) then 1 else 0
  {
    if n > 0 {
      ReplacedOnce(alive, n - 1, slot);
      ServingOneMore(Replacements(alive, n - 1), n, slot);
      hide Serving, HasSlot;
    }
  }

  lemma {:induction false} AliveServing(threads: seq<WorkerThread>, slot: nat)
    ensures Serving(Alive(threads), slot) == Serving(threads, slot)
  {
    if threads != [] {
      assert threads == threads[..|threads| - 1] + [threads[|threads| - 1]];
      AliveServing(threads[..|threads| - 1], slot);
    }
  }

  /**
   * After a pass every thread is alive and every configured slot is served: by the threads that served it before, or,
   * where there was none, by exactly one new one. No other slot gains or loses a living thread.
   */
  lemma RestoredSlots(threads: seq<WorkerThread>, n: nat, slot: nat)
    ensures var after := Alive(threads) + Replacements(Alive(threads), n);
      && (forall x :: x in after ==> x.alive)
      && Serving(after, slot) ==
           if 1 <= slot <= n && Serving(threads, slot) == 0 then 1 else Serving(threads, slot)
  {
    var alive := Alive(threads);
    forall x
      ensures x in alive ==> x.alive
      ensures x in Replacements(alive, n) ==> x.alive
    {
      AliveMembers(threads, x);
      ReplacementMembers(alive, n, x);
    }
    AliveServing(threads, slot);
    ReplacedOnce(alive, n, slot);
    assert HasSlot(alive, slot) <==> Serving(alive, slot) > 0;
    hide Alive, Replacements;
  }

  datatype Completion = Completion(applied: bool, claimLost: bool)

  class LifecycleWorker {
    var now: int
    var rows: Rows
    var buffers: map<Tid, seq<Job>>
    var running: map<Tid, Job>
    var pending: map<Path, Job>
    var metadata: map<Path, int>
    var nextToken: Token
    var started: bool
    var stopping: bool
    var threads: seq<WorkerThread>
    const workerCount: nat
    ghost var claims: map<Token, Claim>
    ghost var effects: Effects

    ghost function Current(): State
      reads `now, `rows, `buffers, `running, `pending, `metadata, `nextToken, `claims, `effects
    {
      State(now, rows, Memory(claims, nextToken, buffers, running, pending), effects, metadata)
    }

    constructor (stored: Rows, clock: int, workers: nat)
      requires forall p :: p in stored ==> stored[p].token.None?
      ensures Start(Current()) && rows == stored && now == clock
      ensures workerCount == workers && !started && !stopping && threads == []
    {
      workerCount, started, stopping, threads := workers, false, false, [];
      now, rows, metadata := clock, stored, map[];
      buffers, running, pending, nextToken := map[], map[], map[], 0;
      claims, effects := map[], Effects(multiset{}, multiset{});
    }

    /** The rows of one claim: the due rows in queue order, cut at the limit. */
    method SelectDue(limit: nat) returns (due: seq<Path>)
      ensures IsQueueHead(rows, now, due, limit)
    {
      var listing, left: set<Path> := [], rows.Keys;
      while left != {}
        invariant left <= rows.Keys && Distinct(listing)
        invariant forall p :: p in listing <==> p in rows && p !in left && Due(rows, now, p)
        decreases |left|
      {
        var p :| p in left;
        left := left - {p};
        if Due(rows, now, p) {
          listing := listing + [p];
        }
      }
      CutIsHead(rows, now, listing, limit);
      due := Sort(QueueOrder(rows), listing);
      due := due[..if |due| < limit then |due| else limit];
    }

    /** The next job of thread t: the head of its buffer, else the first of a new batch from the head of the queue. */
    method ClaimJob(t: Tid, limit: nat) returns (job: Option<Job>, ghost due: seq<Path>)
      requires t !in running && limit <= MAX_BATCH
      modifies this
      ensures Enabled(old(Current()), ClaimJobs(t, limit, due))
      ensures Current() == Apply(old(Current()), ClaimJobs(t, limit, due))
      ensures job == if t in running then Some(running[t]) else None
      ensures var before := old(Current());
        if BufferOf(before.memory, t) != []
        then
          && job == Some(before.memory.buffers[t][0]) && rows == before.rows
          && buffers == before.memory.buffers[t := before.memory.buffers[t][1..]]
          && pending == before.memory.pending - {job.value.path}
        else
          && IsQueueHead(before.rows, now, due, limit) && BatchRows(before, due, rows)
          && (forall p :: p in due ==> p in before.rows)
          && BatchHeld(before, t, due, Current().memory) && BatchRegistered(before, due, pending)
          && job == if due == [] then None else Some(BatchJob(before, due, 0))
    {
      ghost var start := Current();
      if t in buffers && buffers[t] != [] {
        due := [];
        var j := buffers[t][0];
        buffers, pending, running := buffers[t := buffers[t][1..]], pending - {j.path}, running[t := j];
        claims := claims[j.token := Claim(j, RunBy(t))];
        job := Some(j);
      } else {
        var selected := SelectDue(limit);
        due := selected;
        ClaimBatch(t, selected);
        ClaimIs(start, t, limit, due);
        hide IssueAll, BatchRows, BatchRegistered, IsQueueHead;
        job := if t in running then Some(running[t]) else None;
      }
    }

    method ClaimBatch(t: Tid, due: seq<Path>)
      requires forall p :: p in due ==> p in rows
      modifies this
      ensures Current() == IssueAll(old(Current()), t, due)
    {
      ghost var s := Current();
      var i := 0;
      while i < |due|
        invariant 0 <= i <= |due|
        invariant s == old(Current()) && Current() == IssueAll(s, t, due[..i])
      {
        assert due[..i + 1][..i] == due[..i];
        assert due[i] in s.rows;
        Issue(t, due[i]);
        i := i + 1;
      }
      assert due[..|due|] == due;
    }

    method Issue(t: Tid, p: Path)
      requires p in rows
      modifies this
      ensures Current() == IssueTo(old(Current()), t, p)
    {
      hide ClaimedRow;
      var j := Job(p, rows[p].version, rows[p].attempts + 1, nextToken);
      rows := rows[p := ClaimedRow(rows[p], nextToken, now)];
      if t !in running {
        running := running[t := j];
        claims := claims[j.token := Claim(j, RunBy(t))];
      } else {
        buffers := buffers[t := (if t in buffers then buffers[t] else []) + [j]];
        pending := pending[p := j];
        claims := claims[j.token := Claim(j, InBuffer(t))];
      }
      nextToken := nextToken + 1;
    }

    /** Shutdown of thread t: unstarted claims leave the registry and, if the write succeeds, return to the queue. */
    method ReleasePendingClaims(t: Tid, delivered: bool)
      requires Good(Current()) && Enabled(Current(), ReleasePending(t, delivered))
      modifies this
      ensures Current() == Apply(old(Current()), ReleasePending(t, delivered))
      ensures buffers == old(buffers)[t := []] && running == old(running)
      ensures delivered ==> RowsGivenBack(old(rows), BufferOf(old(Current()).memory, t), rows)
      ensures !delivered ==> rows == old(rows)
    {
      hide Good, RowsGivenBack, ReleaseAll, DistinctTokens;
      BufferIsDistinct(Current(), t);
      ReleaseGivesBack(rows, BufferOf(Current().memory, t));
      var jobs := if t in buffers then buffers[t] else [];
      claims := DropBuffer(Current().memory, t).claims;
      buffers := buffers[t := []];
      pending := Unregister(pending, jobs);
      if delivered {
        var released;
        rows, released := ReleaseClaims(rows, jobs);
      }
    }

    /** One heartbeat of a running job: its own lease and that of every registered claim still held. */
    method RenewLease(job: Job) returns (renewed: bool)
      modifies `rows
      ensures rows == Renewed(old(rows), {job} + pending.Values, now + LEASE)
      ensures renewed == Owns(old(rows), job)
    {
      rows, renewed := RenewClaims(rows, job, pending.Values, now + LEASE);
    }

    /** One writer operation: fence on the claim, write the metadata, end the job. */
    method PersistAndComplete(t: Tid, outcome: JobState) returns (completion: Completion)
      requires Good(Current()) && Enabled(Current(), WriteCompletion(t, outcome, true))
      modifies this
      ensures Current() == Apply(old(Current()), WriteCompletion(t, outcome, true))
      ensures completion.applied == Owns(old(rows), old(running[t]))
      ensures completion.claimLost == !completion.applied
      ensures running == old(running) - {t} && pending == old(pending) && buffers == old(buffers)
      ensures completion.applied ==>
                EndsRow(old(rows), old(running[t]), outcome, rows)
                && metadata == old(metadata)[old(running[t]).path := old(running[t]).version]
      ensures !completion.applied ==> rows == old(rows) && metadata == old(metadata)
    {
      hide Good;
      var job := running[t];
      RunningJobIsClaim(Current(), t);
      completion := Completion(false, true);
      if Owns(rows, job) {
        metadata := metadata[job.path := job.version];
        rows := rows[job.path := Unclaimed(rows[job.path], outcome)];
        effects := Effects(effects.terminal + multiset{job.token}, effects.metadata + multiset{job.token});
        completion := Completion(true, false);
      }
      running := running - {t};
      claims := claims[job.token := Claim(job, GivenBack)];
    }

    /** A failed job goes back to the queue after a backoff while attempts remain, and fails otherwise. */
    method HandleFailure(t: Tid, transient: bool, delay: nat) returns (applied: bool)
      requires Good(Current()) && Enabled(Current(), WriteFailure(t, transient, delay, true))
      modifies this
      ensures Current() == Apply(old(Current()), WriteFailure(t, transient, delay, true))
      ensures applied == Owns(old(rows), old(running[t]))
      ensures running == old(running) - {t} && pending == old(pending) && buffers == old(buffers)
      ensures metadata == old(metadata)
      ensures if applied then FailsRow(old(rows), old(running[t]), transient, now + delay, rows) else rows == old(rows)
    {
      hide Good, Apply;
      var job := running[t];
      RunningOwnsIff(Current(), t);
      FailureIs(Current(), t, transient, delay, true);
      applied := Fenced(rows, job);
      if applied {
        rows := rows[job.path :=
          if transient && job.attempts < MAX_ATTEMPTS
          then Unclaimed(rows[job.path], Queued).(dueAt := Some(now + delay))
          else Unclaimed(rows[job.path], Failed)];
        effects := effects.(terminal := effects.terminal + multiset{job.token});
      }
      running := running - {t};
      claims := claims[job.token := Claim(job, GivenBack)];
    }

    /**
     * One supervisor pass: dead worker threads are replaced, and only claims without a live lease are taken back. It
     * wakes the workers when a thread was replaced or a job requeued.
     */
    method SuperviseOnce(selected: seq<Path>) returns (reset: nat, failed: nat, restored: nat, wakes: bool)
      requires Selects(selected, rows, true, now)
      modifies `rows, `threads
      ensures Current() == Apply(old(Current()), Supervise)
      ensures failed == Exhausted(old(rows), selected) && reset + failed == |selected|
      ensures !started || stopping ==> threads == old(threads) && restored == 0
      ensures started && !stopping ==>
                && threads == Alive(old(threads)) + Replacements(Alive(old(threads)), workerCount)
                && restored == |Replacements(Alive(old(threads)), workerCount)|
      ensures wakes <==> restored > 0 || reset > 0
    {
      restored := RestoreWorkers();
      rows, reset, failed := RecoverRunning(rows, selected, true, now);
      wakes := restored > 0 || reset > 0;
    }

    /** Replaces dead worker threads; a worker that was never started, or is stopping, is left alone. */
    method RestoreWorkers() returns (restored: nat)
      modifies `threads
      ensures !started || stopping ==> threads == old(threads) && restored == 0
      ensures started && !stopping ==>
                && threads == Alive(old(threads)) + Replacements(Alive(old(threads)), workerCount)
                && restored == |Replacements(Alive(old(threads)), workerCount)|
    {
      restored := 0;
      if !started || stopping {
        return;
      }
      var alive: seq<WorkerThread> := [];
      for i := 0 to |threads|
        invariant alive == Alive(threads[..i])
      {
        assert threads[..i + 1][..i] == threads[..i];
        if threads[i].alive {
          alive := alive + [threads[i]];
        }
      }
      assert threads[..|threads|] == threads;
      var replacements: seq<WorkerThread> := [];
      for n := 0 to workerCount
        invariant replacements == Replacements(alive, n)
      {
        if !HasSlot(alive, n + 1) {
          replacements := replacements + [WorkerThread(n + 1, true)];
        }
      }
      threads, restored := alive + replacements, |replacements|;
    }
  }
}
