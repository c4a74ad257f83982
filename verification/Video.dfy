/** Video serving of backend/video.py: byte ranges, poster leases and the poster cache quota. */
module Video {
  import opened Ordering
  import opened Prelude

  // ---------------------------------------------------------------- byte ranges

  /** A single range of RFC 7233, section 2.1: first-last, first-, -suffix, or neither. */
  datatype RangeSpec = FromTo(first: nat, last: Option<nat>) | Suffix(length: nat) | NoBounds

  /** Whether byte position p of a file is selected, by section 2.1 of RFC 7233. */
  predicate Selected(spec: RangeSpec, size: nat, p: int) {
    0 <= p < size
    && match spec
       case FromTo(first, last) => first <= p && (last.Some? ==> p <= last.value)
       case Suffix(length) => size - length <= p
       case NoBounds => false
  }

  /** The first and last byte to send, or None for a 416 answer. */
  function Resolve(spec: RangeSpec, size: nat): Option<(nat, nat)> {
    match spec
    case NoBounds => None
    case Suffix(length) =>
      if length == 0 then None
      else
        var start := if size >= length then size - length else 0;
        if size == 0 || start >= size || start > size - 1 then None else Some((start, size - 1))
    case FromTo(first, last) =>
      var end := if last.Some? then last.value else size - 1;
      if size == 0 || first >= size || first > end then None
      else Some((first, if end < size - 1 then end else size - 1))
  }

  /** The answer covers exactly the selected bytes, and is 416 iff the range selects none (section 4.4). */
  lemma RangeIsExact(spec: RangeSpec, size: nat)
    ensures match Resolve(spec, size)
            case Some((start, end)) => start <= end < size && forall p :: Selected(spec, size, p) <==> start <= p <= end
            case None => forall p :: !Selected(spec, size, p)
  {
    match Resolve(spec, size)
    case Some((start, end)) => assert Selected(spec, size, start);
    case None =>
  }

  type Bytes = seq<int>

  function Concat(chunks: seq<Bytes>): Bytes {
    if chunks == [] then [] else Concat(chunks[..|chunks| - 1]) + chunks[|chunks| - 1]
  }

  /** Python's content[start:stop] for 0 <= start: positions beyond the end are cut off. */
  function Slice(content: Bytes, start: nat, stop: int): Bytes {
    var high := if stop < |content| then stop else |content|;
    if start < high then content[start..high] else []
  }

  lemma ConcatPush(chunks: seq<Bytes>, chunk: Bytes)
    ensures Concat(chunks + [chunk]) == Concat(chunks) + chunk
  {
    assert (chunks + [chunk])[..|chunks|] == chunks;
  }

  lemma SliceNext(content: Bytes, start: nat, at: nat, got: nat)
    requires start <= at && at + got <= |content|
    ensures Slice(content, start, at) + content[at..at + got] == Slice(content, start, at + got)
  {
  }

  /**
   * Streams [start, end] in chunks. A read may be short; a file cut off meanwhile ends the stream early, and one cut
   * off before the start gives nothing.
   */
  method IterFileRange(content: Bytes, start: nat, end: int, chunkSize: nat) returns (chunks: seq<Bytes>)
    requires chunkSize >= 1 && start <= end + 1
    ensures Concat(chunks) == Slice(content, start, end + 1)
    ensures forall i :: 0 <= i < |chunks| ==> 1 <= |chunks[i]| <= chunkSize
  {
    chunks := [];
    var remaining, at := end - start + 1, start;
    while remaining > 0
      invariant start <= at && remaining == end + 1 - at >= 0 && (at == start || at <= |content|)
      invariant Concat(chunks) == Slice(content, start, at)
      invariant forall i :: 0 <= i < |chunks| ==> 1 <= |chunks[i]| <= chunkSize
    {
      var wanted := if chunkSize < remaining then chunkSize else remaining;
      var available := |content| - at;
      if available <= 0 {
        break;
      }
      var limit := if wanted < available then wanted else available;
      assert 1 <= limit;
      var got :| 1 <= got <= limit;
      var chunk := content[at..at + got];
      SliceNext(content, start, at, got);
      ConcatPush(chunks, chunk);
      chunks, remaining, at := chunks + [chunk], remaining - got, at + got;
    }
  }

  // ---------------------------------------------------------------- poster leases

  datatype Lease = Lease(path: string, released: bool)

  /** The serving counters and served paths, and every lease ever taken by its number. */
  datatype Serving = Serving(counts: map<string, int>, served: set<string>, leases: seq<Lease>)

  datatype Call = Acquire(path: string) | Release(lease: nat)

  function ReleasePath(s: Serving, path: string): Serving {
    var remaining := (if path in s.counts then s.counts[path] else 0) - 1;
    if remaining > 0 then s.(counts := s.counts[path := remaining])
    else s.(counts := s.counts - {path}, served := s.served - {path})
  }

  function Step(s: Serving, c: Call): Serving {
    match c
    case Acquire(path) =>
      var count := (if path in s.counts then s.counts[path] else 0) + 1;
      Serving(s.counts[path := count], s.served + {path}, s.leases + [Lease(path, false)])
    case Release(i) =>
      if i >= |s.leases| || s.leases[i].released then s
      else ReleasePath(s.(leases := s.leases[i := s.leases[i].(released := true)]), s.leases[i].path)
  }

  function Run(calls: seq<Call>): Serving {
    if calls == [] then Serving(map[], {}, []) else Step(Run(calls[..|calls| - 1]), calls[|calls| - 1])
  }

  /** How many leases on the path have not been released. */
  function Unreleased(leases: seq<Lease>, path: string): nat {
    if leases == [] then 0
    else Unreleased(leases[..|leases| - 1], path) + if leases[|leases| - 1] == Lease(path, false) then 1 else 0
  }

  /** The counters are the unreleased leases, and the served set is the paths that have one. */
  ghost predicate Consistent(s: Serving) {
    forall path :: PathConsistent(s, path)
  }

  predicate PathConsistent(s: Serving, path: string) {
    var n := Unreleased(s.leases, path);
    (path in s.counts <==> n > 0) && (path in s.served <==> n > 0) && (path in s.counts ==> s.counts[path] == n)
  }

  lemma UnreleasedPush(leases: seq<Lease>, l: Lease, path: string)
    ensures Unreleased(leases + [l], path) == Unreleased(leases, path) + if l == Lease(path, false) then 1 else 0
  {
    assert (leases + [l])[..|leases|] == leases;
  }

  lemma {:induction false} UnreleasedDrop(leases: seq<Lease>, i: nat, path: string)
    requires i < |leases| && !leases[i].released
    ensures var after := leases[i := leases[i].(released := true)];
      Unreleased(leases, path) == Unreleased(after, path) + if leases[i].path == path then 1 else 0
  {
    var front, after := leases[..|leases| - 1], leases[i := leases[i].(released := true)];
    if i < |leases| - 1 {
      UnreleasedDrop(front, i, path);
      assert after[..|leases| - 1] == front[i := front[i].(released := true)];
    } else {
      assert after[..|leases| - 1] == front;
    }
  }

  lemma StepKeepsConsistent(s: Serving, c: Call)
    requires Consistent(s)
    ensures Consistent(Step(s, c))
  {
    forall path
      ensures PathConsistent(Step(s, c), path)
    {
      assert PathConsistent(s, path);
      match c
      case Acquire(p) =>
        assert PathConsistent(s, p);
        UnreleasedPush(s.leases, Lease(p, false), path);
      case Release(i) =>
        if i < |s.leases| && !s.leases[i].released {
          assert PathConsistent(s, s.leases[i].path);
          UnreleasedDrop(s.leases, i, path);
          UnreleasedDrop(s.leases, i, s.leases[i].path);
        }
    }
  }

  /** In every run of acquisitions and (repeated) releases, served is exactly the paths with an unreleased lease. */
  lemma {:induction false} RunIsConsistent(calls: seq<Call>)
    ensures Consistent(Run(calls))
  {
    if calls != [] {
      RunIsConsistent(calls[..|calls| - 1]);
      StepKeepsConsistent(Run(calls[..|calls| - 1]), calls[|calls| - 1]);
    }
  }

  /** Taking a lease adds one to its path, giving one back takes one off its path, and other paths are not affected. */
  lemma StepCounts(s: Serving, c: Call, path: string)
    ensures c.Acquire? ==>
              && Step(s, c).leases == s.leases + [Lease(c.path, false)]
              && Unreleased(Step(s, c).leases, path) == Unreleased(s.leases, path) + if path == c.path then 1 else 0
    ensures c.Release? && c.lease < |s.leases| && !s.leases[c.lease].released ==>
              && Step(s, c).leases == s.leases[c.lease := Lease(s.leases[c.lease].path, true)]
              && Unreleased(Step(s, c).leases, path) ==
                   Unreleased(s.leases, path) - if path == s.leases[c.lease].path then 1 else 0
    ensures c.Release? && (c.lease >= |s.leases| || s.leases[c.lease].released) ==> Step(s, c) == s
  {
    match c
    case Acquire(p) => UnreleasedPush(s.leases, Lease(p, false), path);
    case Release(i) =>
      if i < |s.leases| && !s.leases[i].released {
        UnreleasedDrop(s.leases, i, path);
      }
  }

  /** A second release of the same lease changes nothing. */
  lemma ReleaseIsIdempotent(s: Serving, i: nat)
    ensures Step(Step(s, Release(i)), Release(i)) == Step(s, Release(i))
  {
  }

  // ---------------------------------------------------------------- quota

  datatype File = File(path: string, accessed: int, size: nat)

  /** Least recently used first, by path among files last read at the same time. */
  predicate OlderFile(a: File, b: File) {
    a.accessed < b.accessed || (a.accessed == b.accessed && StringLess(a.path, b.path))
  }

  /** The files of a directory in their order of eviction. */
  function Oldest(files: seq<File>): seq<File> {
    Sort(OlderFile, files)
  }

  lemma OlderFileIsWeakOrder()
    ensures WeakOrder(OlderFile)
  {
    hide StringLess;
    forall a: File, b: File | OlderFile(a, b)
      ensures !OlderFile(b, a)
    {
      NotBelowItself(a.path);
      StringLessChains(a.path, b.path, a.path);
    }
    forall a: File, b: File, c: File | !OlderFile(a, b) && !OlderFile(b, c)
      ensures !OlderFile(a, c)
    {
      NotBelowItself(a.path);
      StringLessChains(a.path, b.path, c.path);
      StringLessChains(b.path, c.path, a.path);
      StringLessChains(c.path, b.path, a.path);
      StringLessChains(a.path, c.path, a.path);
    }
  }

  /** They are the same files, none behind one that was read later. */
  lemma OldestIsOrdered(files: seq<File>)
    ensures InOrder(OlderFile, Oldest(files)) && multiset(Oldest(files)) == multiset(files)
    ensures forall f :: f in Oldest(files) <==> f in files
    ensures var r := Oldest(files);
      forall i, j :: 0 <= i < j < |r| ==>
        r[i].accessed < r[j].accessed || (r[i].accessed == r[j].accessed && !StringLess(r[j].path, r[i].path))
  {
    OlderFileIsWeakOrder();
    SortOrders(OlderFile, files);
    SortPermutes(OlderFile, files);
    hide Oldest, StringLess;
    var r := Oldest(files);
    forall i, j | 0 <= i < j < |r|
      ensures r[i].accessed < r[j].accessed || (r[i].accessed == r[j].accessed && !StringLess(r[j].path, r[i].path))
    {
      assert !OlderFile(r[j], r[i]);
    }
  }

  function Total(files: seq<File>): nat {
    if files == [] then 0 else Total(files[..|files| - 1]) + files[|files| - 1].size
  }

  /** The files left after going through the first n: those that must be kept, and the rest. */
  function Keep(files: seq<File>, n: nat, kept: set<string>): seq<File>
    requires n <= |files|
  {
    Filter(files[..n], kept) + files[n..]
  }

  function Filter(files: seq<File>, kept: set<string>): (r: seq<File>) {
    if files == [] then []
    else
      var rest, f := Filter(files[..|files| - 1], kept), files[|files| - 1];
      if f.path in kept then rest + [f] else rest
  }

  /** n is the shortest run of files, from the oldest on, after which the cache fits; all of them if it never does. */
  ghost predicate ShortestRun(files: seq<File>, n: nat, kept: set<string>, quota: nat) {
    n <= |files|
    && (Total(Keep(files, n, kept)) <= quota || n == |files|)
    && forall m: nat :: m < n ==> Total(Keep(files, m, kept)) > quota
  }

  lemma {:induction false} TotalOfParts(a: seq<File>, b: seq<File>)
    ensures Total(a + b) == Total(a) + Total(b)
  {
    if b == [] {
      assert a + b == a;
    } else {
      TotalOfParts(a, b[..|b| - 1]);
      assert (a + b)[..|a + b| - 1] == a + b[..|b| - 1];
    }
  }

  lemma {:induction false} TotalOfInsert(files: seq<File>, f: File)
    ensures Total(Insert(OlderFile, files, f)) == Total(files) + f.size
  {
    if files == [] || !OlderFile(f, files[|files| - 1]) {
      assert (files + [f])[..|files|] == files;
    } else {
      var front, last := files[..|files| - 1], files[|files| - 1];
      TotalOfInsert(front, f);
      var t := Insert(OlderFile, front, f);
      assert (t + [last])[..|t|] == t;
    }
  }

  lemma {:induction false} TotalOfOldest(files: seq<File>)
    ensures Total(Oldest(files)) == Total(files)
  {
    if files != [] {
      TotalOfOldest(files[..|files| - 1]);
      TotalOfInsert(Oldest(files[..|files| - 1]), files[|files| - 1]);
    }
  }

  lemma KeepNext(files: seq<File>, i: nat, kept: set<string>)
    requires i < |files|
    ensures Total(Keep(files, i, kept)) ==
            Total(Keep(files, i + 1, kept)) + if files[i].path in kept then 0 else files[i].size
  {
    var f := files[i];
    assert files[..i + 1][..i] == files[..i] && files[i..] == [f] + files[i + 1..];
    TotalOfParts(Filter(files[..i], kept), files[i..]);
    TotalOfParts([f], files[i + 1..]);
    TotalOfParts(Filter(files[..i + 1], kept), files[i + 1..]);
    TotalOfParts(Filter(files[..i], kept), [f]);
    assert [f][..0] == [];
  }

  lemma KeepFirst(files: seq<File>, kept: set<string>)
    ensures Filter(files[..0], kept) == [] && Keep(files, 0, kept) == files
  {
  }

  lemma KeepIs(files: seq<File>, i: nat, kept: set<string>)
    requires i <= |files|
    ensures Keep(files, i, kept) == Filter(files[..i], kept) + files[i..]
  {
  }

  lemma FilterNext(files: seq<File>, i: nat, kept: set<string>)
    requires i < |files|
    ensures Filter(files[..i + 1], kept) == Filter(files[..i], kept) + if files[i].path in kept then [files[i]] else []
  {
    assert files[..i + 1][..i] == files[..i];
  }

  /**
   * Files that are neither protected nor stuck (their unlink fails) go, oldest first and no more of them than it
   * takes for the rest to fit; the answer says whether it does.
   */
  method EvictPosters(files: seq<File>, isProtected: set<string>, stuck: set<string>, quota: nat)
    returns (left: seq<File>, fits: bool)
    ensures fits <==> Total(left) <= quota
    ensures exists n: nat :: ShortestRun(Oldest(files), n, isProtected + stuck, quota)
                             && left == Keep(Oldest(files), n, isProtected + stuck)
  {
    var order := Oldest(files);
    var total, i := Total(files), 0;
    TotalOfOldest(files);
    ghost var kept := isProtected + stuck;
    left := [];
    KeepFirst(order, kept);
    hide Filter, Total, Keep, Oldest;
    while i < |order| && total > quota
      invariant 0 <= i <= |order|
      invariant left == Filter(order[..i], kept) && total == Total(Keep(order, i, kept))
      invariant forall m: nat :: m < i ==> Total(Keep(order, m, kept)) > quota
    {
      KeepNext(order, i, kept);
      FilterNext(order, i, kept);
      if order[i].path in isProtected {
        left := left + [order[i]];
      } else if order[i].path in stuck {
        left := left + [order[i]];
      } else {
        total := total - order[i].size;
      }
      i := i + 1;
    }
    KeepIs(order, i, kept);
    left := left + order[i..];
    fits := total <= quota;
    assert ShortestRun(order, i, kept, quota);
  }

  lemma {:induction false} FilterMembers(files: seq<File>, kept: set<string>, f: File)
    ensures f in Filter(files, kept) <==> f in files && f.path in kept
  {
    if files != [] {
      assert files == files[..|files| - 1] + [files[|files| - 1]];
      FilterMembers(files[..|files| - 1], kept, f);
    }
  }

  /** A file stays iff it must be kept or comes after the run. */
  lemma KeepMembers(files: seq<File>, n: nat, kept: set<string>, f: File)
    requires n <= |files|
    ensures f in Keep(files, n, kept) <==> (f in files[..n] && f.path in kept) || f in files[n..]
    ensures f in Keep(files, n, kept) ==> f in files
    ensures f in files && f.path in kept ==> f in Keep(files, n, kept)
  {
    FilterMembers(files[..n], kept, f);
    assert files == files[..n] + files[n..];
  }

  /** No file goes while an older one stays, unless that one must be kept. */
  lemma OldestGoFirst(files: seq<File>, n: nat, kept: set<string>, gone: File, stays: File)
    requires InOrder(OlderFile, files) && n <= |files| && gone in files && gone !in Keep(files, n, kept)
    requires stays in Keep(files, n, kept) && OlderFile(stays, gone)
    ensures stays.path in kept
  {
    KeepMembers(files, n, kept, gone);
    KeepMembers(files, n, kept, stays);
    assert files == files[..n] + files[n..];
    if stays in files[n..] {
      FrontIsNoNewer(files, n, gone, stays);
    }
  }

  lemma FrontIsNoNewer(files: seq<File>, n: nat, front: File, back: File)
    requires InOrder(OlderFile, files) && n <= |files| && front in files[..n] && back in files[n..]
    ensures !OlderFile(back, front)
  {
    var i :| 0 <= i < n && files[i] == front;
    var j :| 0 <= j < |files| - n && files[n..][j] == back;
    assert !OlderFile(files[n + j], files[i]);
  }

  /** What an eviction does to a directory, whatever order the directory was listed in. */
  lemma EvictionIsExact(before: seq<File>, n: nat, kept: set<string>)
    requires n <= |before|
    ensures |Oldest(before)| == |before|
    ensures var after := Keep(Oldest(before), n, kept);
      && (forall f :: f in after ==> f in before)
      && (forall f :: f in before && f.path in kept ==> f in after)
      && (forall gone, stays :: gone in before && gone !in after && stays in after && OlderFile(stays, gone) ==>
            stays.path in kept)
  {
    OldestIsOrdered(before);
    SortPermutes(OlderFile, before);
    var order := Oldest(before);
    var after := Keep(order, n, kept);
    hide Keep, Oldest, OlderFile, InOrder;
    forall f
      ensures f in after ==> f in before
      ensures f in before && f.path in kept ==> f in after
    {
      KeepMembers(order, n, kept, f);
    }
    forall gone, stays | gone in before && gone !in after && stays in after && OlderFile(stays, gone)
      ensures stays.path in kept
    {
      OldestGoFirst(order, n, kept, gone, stays);
    }
  }

  class PosterCache {
    var counts: map<string, int>
    var served: set<string>
    var leases: seq<Lease>
    var generating: set<string>
    var files: seq<File>

    ghost function State(): Serving
      reads this
    {
      Serving(counts, served, leases)
    }

    constructor ()
      ensures State() == Run([]) && files == [] && generating == {}
    {
      counts, served, leases, generating, files := map[], {}, [], {}, [];
    }

    method AcquireServing(path: string) returns (lease: nat)
      modifies `counts, `served, `leases
      ensures State() == Step(old(State()), Acquire(path))
      ensures lease == |old(leases)| && leases == old(leases) + [Lease(path, false)]
      ensures served == old(served) + {path} && path in counts
      ensures counts[path] == (if path in old(counts) then old(counts)[path] else 0) + 1
    {
      lease := |leases|;
      counts := counts[path := (if path in counts then counts[path] else 0) + 1];
      served := served + {path};
      leases := leases + [Lease(path, false)];
    }

    method ReleaseLease(lease: nat)
      requires lease < |leases|
      modifies `counts, `served, `leases
      ensures State() == Step(old(State()), Release(lease))
      ensures leases == old(leases)[lease := Lease(old(leases)[lease].path, true)]
      ensures old(leases)[lease].released ==> counts == old(counts) && served == old(served)
    {
      if leases[lease].released {
        return;
      }
      var path := leases[lease].path;
      leases := leases[lease := leases[lease].(released := true)];
      var remaining := (if path in counts then counts[path] else 0) - 1;
      if remaining > 0 {
        counts := counts[path := remaining];
      } else {
        counts, served := counts - {path}, served - {path};
      }
    }

    /** What eviction leaves alone: posters being made, those under an unreleased lease, and the caller's own. */
    ghost function Protected(protect: Option<string>): set<string>
      reads `generating, `counts
    {
      generating + counts.Keys + if protect.Some? then {protect.value} else {}
    }

    /**
     * Quota enforcement. Protected files stay, and so do those under an unreleased lease. What goes is the shortest
     * run of the others, least recently used first: no file goes while an older one stays that could go.
     */
    method EnforceQuota(protect: Option<string>, stuck: set<string>, quota: nat) returns (fits: bool)
      requires Consistent(State())
      modifies `files
      ensures fits <==> Total(files) <= quota
      ensures forall f :: f in files ==> f in old(files)
      ensures forall f :: f in old(files) && f.path in Protected(protect) ==> f in files
      ensures forall f :: f in old(files) && Unreleased(leases, f.path) > 0 ==> f in files
      ensures exists n: nat :: ShortestRun(Oldest(old(files)), n, Protected(protect) + stuck, quota)
                               && files == Keep(Oldest(old(files)), n, Protected(protect) + stuck)
      ensures forall gone, stays :: gone in old(files) && gone !in files && stays in files && OlderFile(stays, gone) ==>
                stays.path in Protected(protect) + stuck
    {
      var isProtected := generating + served + if protect.Some? then {protect.value} else {};
      ghost var before := files;
      ServedIsCounted();
      SortPermutes(OlderFile, files);
      hide Keep, Oldest, Consistent, OlderFile, Total, Unreleased;
      files, fits := EvictPosters(files, isProtected, stuck, quota);
      ghost var kept := Protected(protect) + stuck;
      ghost var n: nat :| ShortestRun(Oldest(before), n, kept, quota) && files == Keep(Oldest(before), n, kept);
      EvictionIsExact(before, n, kept);
    }

    lemma ServedIsCounted()
      requires Consistent(State())
      ensures served == counts.Keys && forall path :: Unreleased(leases, path) > 0 <==> path in served
    {
      forall path
        ensures path in served <==> path in counts.Keys
        ensures Unreleased(leases, path) > 0 <==> path in served
      {
        assert PathConsistent(State(), path);
      }
    }
  }
}
