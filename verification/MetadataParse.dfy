/**
 * Single-flight metadata parsing, backend/metadata_parse.py: concurrent requests for one file version share one
 * parse. Each lock-protected block and each future resolution is one step; steps of all threads interleave.
 */
module MetadataParse {
  import opened Prelude

  type Tid = nat

  /** Path, modification time, size and sidecar identity. */
  type Key = string

  /** A parse result: metadata or an error. */
  datatype Outcome = Value(v: int) | Error(code: int)

  /** A future belongs to one key and is resolved at most once. */
  datatype Future = Future(key: Key, result: Option<Outcome>)

  /** Where a request stands; a producer parses, stores and resolves, then leaves the registry. */
  datatype Phase =
    | Idle
    | Producing(future: nat)
    | Stored(future: nat, value: int)
    | Resolved(future: nat)
    | Waiting(future: nat)

  datatype State = State(cache: map<Key, int>, inflight: map<Key, nat>, futures: seq<Future>, threads: map<Tid, Phase>)

  datatype Action =
    | Request(thread: Tid, key: Key, persisted: Option<int>)
    | ParseSucceeds(thread: Tid, value: int)
    | ParseFails(thread: Tid, code: int)
    | Resolve(thread: Tid)
    | Leave(thread: Tid)
    | Wake(thread: Tid)
    | Evict(key: Key)

  function PhaseOf(s: State, t: Tid): Phase {
    if t in s.threads then s.threads[t] else Idle
  }

  function To(s: State, t: Tid, p: Phase): State {
    s.(threads := s.threads[t := p])
  }

  predicate Enabled(s: State, a: Action) {
    match a
    case Request(t, _, _) => PhaseOf(s, t) == Idle
    case ParseSucceeds(t, _) => PhaseOf(s, t).Producing?
    case ParseFails(t, _) => PhaseOf(s, t).Producing?
    case Resolve(t) => PhaseOf(s, t).Stored?
    case Leave(t) => PhaseOf(s, t).Resolved?
    case Wake(t) =>
      && PhaseOf(s, t).Waiting? && PhaseOf(s, t).future < |s.futures|
      && s.futures[PhaseOf(s, t).future].result.Some?
    case Evict(_) => true
  }

  function Settle(s: State, f: nat, r: Outcome): State
    requires f < |s.futures|
  {
    s.(futures := s.futures[f := s.futures[f].(result := Some(r))])
  }

  /** The locked lookup: a cached or persisted value answers at once, else the request joins or starts a parse. */
  function Enter(s: State, t: Tid, key: Key, persisted: Option<int>): State {
    if key in s.cache then s
    else if persisted.Some? then s.(cache := s.cache[key := persisted.value])
    else if key in s.inflight then To(s, t, Waiting(s.inflight[key]))
    else
      var n := |s.futures|;
      To(s.(inflight := s.inflight[key := n], futures := s.futures + [Future(key, None)]), t, Producing(n))
  }

  function Apply(s: State, a: Action): State
    requires Enabled(s, a) && Good(s)
  {
    match a
    case Request(t, key, persisted) => Enter(s, t, key, persisted)
    case ParseSucceeds(t, v) =>
      assert ThreadOk(s, t);
      var f := PhaseOf(s, t).future;
      To(s.(cache := s.cache[s.futures[f].key := v]), t, Stored(f, v))
    case ParseFails(t, code) =>
      assert ThreadOk(s, t);
      To(Settle(s, PhaseOf(s, t).future, Error(code)), t, Resolved(PhaseOf(s, t).future))
    case Resolve(t) =>
      assert ThreadOk(s, t);
      To(Settle(s, PhaseOf(s, t).future, Value(PhaseOf(s, t).value)), t, Resolved(PhaseOf(s, t).future))
    case Leave(t) =>
      assert ThreadOk(s, t);
      To(s.(inflight := s.inflight - {s.futures[PhaseOf(s, t).future].key}), t, Idle)
    case Wake(t) => To(s, t, Idle)
    case Evict(key) => s.(cache := s.cache - {key})
  }

  /** The thread that owes future f its result, or still has to take it out of the registry. */
  predicate Owes(p: Phase, f: nat) {
    (p.Producing? || p.Stored? || p.Resolved?) && p.future == f
  }

  /** A thread in any phase but Idle refers to an existing future; only a producer past resolving has a result. */
  predicate ThreadOk(s: State, t: Tid) {
    var p := PhaseOf(s, t);
    p == Idle
    || (p.future < |s.futures|
        && (p.Producing? || p.Stored? ==> s.futures[p.future].result.None?)
        && (p.Resolved? ==> s.futures[p.future].result.Some?)
        && (!p.Waiting? ==> s.futures[p.future].key in s.inflight && s.inflight[s.futures[p.future].key] == p.future))
  }

  ghost predicate OwnersUnique(s: State) {
    forall t, u, f :: Owes(PhaseOf(s, t), f) && Owes(PhaseOf(s, u), f) ==> t == u
  }

  ghost predicate HasOwner(s: State, f: nat) {
    exists t :: Owes(PhaseOf(s, t), f)
  }

  /** A registered or unresolved future has an owner; registered futures are filed under their key. */
  ghost predicate FuturesOwned(s: State) {
    && (forall k :: k in s.inflight ==>
        s.inflight[k] < |s.futures| && s.futures[s.inflight[k]].key == k && HasOwner(s, s.inflight[k]))
    && (forall f :: 0 <= f < |s.futures| && s.futures[f].result.None? ==> HasOwner(s, f))
  }

  ghost predicate Good(s: State) {
    (forall t :: ThreadOk(s, t)) && OwnersUnique(s) && FuturesOwned(s)
  }

  /** Moving one thread within its own future keeps every owner. */
  lemma OwnersMove(s: State, s': State, t: Tid, f: nat)
    requires HasOwner(s, f)
    requires forall u :: u != t ==> PhaseOf(s', u) == PhaseOf(s, u)
    requires Owes(PhaseOf(s, t), f) ==> Owes(PhaseOf(s', t), f)
    ensures HasOwner(s', f)
  {
    var u :| Owes(PhaseOf(s, u), f);
    assert Owes(PhaseOf(s', u), f);
  }

  lemma EnterOwners(s: State, t: Tid, key: Key, persisted: Option<int>)
    requires Good(s) && PhaseOf(s, t) == Idle
    ensures OwnersUnique(Enter(s, t, key, persisted)) && FuturesOwned(Enter(s, t, key, persisted))
  {
    var s', n := Enter(s, t, key, persisted), |s.futures|;
    forall f | HasOwner(s, f)
      ensures HasOwner(s', f)
    {
      OwnersMove(s, s', t, f);
    }
    forall u
      ensures !Owes(PhaseOf(s, u), n)
    {
      assert ThreadOk(s, u);
    }
    if PhaseOf(s', t).Producing? {
      assert Owes(PhaseOf(s', t), n);
    }
    forall u, v, f | Owes(PhaseOf(s', u), f) && Owes(PhaseOf(s', v), f)
      ensures u == v
    {
      assert u == t ==> f == n;
      assert v == t ==> f == n;
      assert u != t ==> Owes(PhaseOf(s, u), f);
      assert v != t ==> Owes(PhaseOf(s, v), f);
    }
  }

  /** The producer's steps: the thread keeps owing the same future, or no longer owes any. */
  lemma ProducerOwners(s: State, a: Action)
    requires Good(s) && Enabled(s, a) && (a.ParseSucceeds? || a.ParseFails? || a.Resolve? || a.Wake?)
    ensures OwnersUnique(Apply(s, a)) && FuturesOwned(Apply(s, a))
  {
    var s' := Apply(s, a);
    assert ThreadOk(s, a.thread);
    forall u, f | Owes(PhaseOf(s', u), f)
      ensures Owes(PhaseOf(s, u), f)
    {
    }
    forall f | HasOwner(s, f)
      ensures HasOwner(s', f)
    {
      OwnersMove(s, s', a.thread, f);
    }
  }

  lemma LeaveOwners(s: State, t: Tid)
    requires Good(s) && Enabled(s, Leave(t))
    ensures OwnersUnique(Apply(s, Leave(t))) && FuturesOwned(Apply(s, Leave(t)))
  {
    var s' := Apply(s, Leave(t));
    assert ThreadOk(s, t);
    forall u, f | Owes(PhaseOf(s', u), f)
      ensures Owes(PhaseOf(s, u), f)
    {
    }
    forall f | HasOwner(s, f) && f != PhaseOf(s, t).future
      ensures HasOwner(s', f)
    {
      OwnersMove(s, s', t, f);
    }
  }

  lemma EvictOwners(s: State, key: Key)
    requires Good(s)
    ensures OwnersUnique(s.(cache := s.cache - {key})) && FuturesOwned(s.(cache := s.cache - {key}))
  {
    var s' := s.(cache := s.cache - {key});
    assert forall u :: PhaseOf(s', u) == PhaseOf(s, u);
    forall f | HasOwner(s, f)
      ensures HasOwner(s', f)
    {
      OwnersMove(s, s', 0, f);
    }
  }

  lemma StepOwners(s: State, a: Action)
    requires Good(s) && Enabled(s, a)
    ensures OwnersUnique(Apply(s, a)) && FuturesOwned(Apply(s, a))
  {
    match a
    case Request(t, key, persisted) => EnterOwners(s, t, key, persisted);
    case Leave(t) => LeaveOwners(s, t);
    case Evict(key) => EvictOwners(s, key);
    case _ => ProducerOwners(s, a);
  }

  lemma StepThreads(s: State, a: Action, t: Tid)
    requires Good(s) && Enabled(s, a)
    ensures ThreadOk(Apply(s, a), t)
  {
    assert ThreadOk(s, t);
    if !a.Evict? {
      assert ThreadOk(s, a.thread);
      if t != a.thread && !PhaseOf(s, t).Idle? && !PhaseOf(s, t).Waiting? {
        assert Owes(PhaseOf(s, t), PhaseOf(s, t).future);
      }
    }
  }

  lemma StepKeepsGood(s: State, a: Action)
    requires Good(s) && Enabled(s, a)
    ensures Good(Apply(s, a))
  {
    StepOwners(s, a);
    forall t
      ensures ThreadOk(Apply(s, a), t)
    {
      StepThreads(s, a, t);
    }
  }

  ghost predicate Runs(s: State, actions: seq<Action>)
    requires Good(s)
    decreases |actions|
  {
    actions != [] ==> Enabled(s, actions[0]) && (StepKeepsGood(s, actions[0]); Runs(Apply(s, actions[0]), actions[1..]))
  }

  ghost function After(s: State, actions: seq<Action>): (r: State)
    requires Good(s) && Runs(s, actions)
    ensures Good(r)
    decreases |actions|
  {
    if actions == [] then s else StepKeepsGood(s, actions[0]); After(Apply(s, actions[0]), actions[1..])
  }

  const START := State(map[], map[], [], map[])

  /** In every run at most one thread at a time parses a given file version. */
  lemma AtMostOneParse(actions: seq<Action>, t: Tid, u: Tid)
    requires Good(START) && Runs(START, actions)
    requires var s := After(START, actions);
      var (p, q) := (PhaseOf(s, t), PhaseOf(s, u));
      && p.Producing? && q.Producing? && p.future < |s.futures| && q.future < |s.futures|
      && s.futures[p.future].key == s.futures[q.future].key
    ensures t == u
  {
    var s := After(START, actions);
    assert ThreadOk(s, t) && ThreadOk(s, u);
    assert Owes(PhaseOf(s, t), PhaseOf(s, t).future) && Owes(PhaseOf(s, u), PhaseOf(s, u).future);
  }

  predicate WillResolve(p: Phase, f: nat) {
    (p.Producing? || p.Stored?) && p.future == f
  }

  /** No waiter is left behind: its future has a result, or a producer that is still to resolve it. */
  lemma NoLostWaiter(s: State, t: Tid)
    requires Good(s) && PhaseOf(s, t).Waiting?
    ensures PhaseOf(s, t).future < |s.futures|
    ensures Enabled(s, Wake(t)) || exists u :: WillResolve(PhaseOf(s, u), PhaseOf(s, t).future)
  {
    assert ThreadOk(s, t);
    var f := PhaseOf(s, t).future;
    if s.futures[f].result.None? {
      assert HasOwner(s, f);
      var u :| Owes(PhaseOf(s, u), f);
      assert ThreadOk(s, u);
    }
  }

  /** A result, once set, never changes: every waiter gets what the producer got. */
  lemma {:induction false} ResultIsFinal(s: State, actions: seq<Action>, f: nat)
    requires Good(s) && Runs(s, actions) && f < |s.futures| && s.futures[f].result.Some?
    ensures f < |After(s, actions).futures| && After(s, actions).futures[f] == s.futures[f]
    decreases |actions|
  {
    if actions != [] {
      var a := actions[0];
      StepKeepsGood(s, a);
      if a.ParseFails? || a.Resolve? {
        assert ThreadOk(s, a.thread);
      }
      ResultIsFinal(Apply(s, a), actions[1..], f);
    }
  }

  /** The step brings the value for the key: a persisted one, or the result of its parse. */
  predicate Brings(s: State, a: Action, key: Key, v: int) {
    || (a.Request? && a.key == key && a.persisted == Some(v))
    || (a.ParseSucceeds? && a.value == v && PhaseOf(s, a.thread).Producing?
        && PhaseOf(s, a.thread).future < |s.futures| && s.futures[PhaseOf(s, a.thread).future].key == key)
  }

  ghost predicate BroughtIn(s: State, actions: seq<Action>, key: Key, v: int)
    requires Good(s) && Runs(s, actions)
    decreases |actions|
  {
    actions != [] &&
    (Brings(s, actions[0], key, v)
     || (StepKeepsGood(s, actions[0]); BroughtIn(Apply(s, actions[0]), actions[1..], key, v)))
  }

  lemma StepCaches(s: State, a: Action, key: Key)
    requires Good(s) && Enabled(s, a)
    ensures var u := Apply(s, a);
      key in u.cache ==> (key in s.cache && s.cache[key] == u.cache[key]) || Brings(s, a, key, u.cache[key])
    ensures key in s.cache && !(a.Evict? && a.key == key) ==> key in Apply(s, a).cache
    ensures a.ParseSucceeds? ==>
              var f := PhaseOf(s, a.thread).future;
              && f < |s.futures| && s.futures[f].key in Apply(s, a).cache
              && Apply(s, a).cache[s.futures[f].key] == a.value
    ensures a.Evict? ==> Apply(s, a).cache.Keys == s.cache.Keys - {a.key}
  {
    if a.ParseSucceeds? {
      assert ThreadOk(s, a.thread);
    }
    hide Good;
  }

  /** Over every run a cached value was persisted, or came out of a successful parse of that very key. */
  lemma {:induction false} CacheIsParsed(s: State, actions: seq<Action>, key: Key)
    requires Good(s) && Runs(s, actions) && key in After(s, actions).cache
    ensures var v := After(s, actions).cache[key];
      (key in s.cache && s.cache[key] == v) || BroughtIn(s, actions, key, v)
    decreases |actions|
  {
    if actions != [] {
      StepKeepsGood(s, actions[0]);
      StepCaches(s, actions[0], key);
      hide Good, Apply, Enabled;
      CacheIsParsed(Apply(s, actions[0]), actions[1..], key);
    }
  }

  /** The step ends the parse of future f with this outcome. */
  predicate Ends(s: State, a: Action, f: nat, o: Outcome) {
    || (a.ParseSucceeds? && PhaseOf(s, a.thread) == Producing(f) && o == Value(a.value))
    || (a.ParseFails? && PhaseOf(s, a.thread) == Producing(f) && o == Error(a.code))
  }

  ghost predicate EndedIn(s: State, actions: seq<Action>, f: nat, o: Outcome)
    requires Good(s) && Runs(s, actions)
    decreases |actions|
  {
    actions != [] &&
    (Ends(s, actions[0], f, o)
     || (StepKeepsGood(s, actions[0]); EndedIn(Apply(s, actions[0]), actions[1..], f, o)))
  }

  /** The outcome of f is set, or known to its producer and about to be set. */
  ghost predicate Known(s: State, f: nat, o: Outcome) {
    (f < |s.futures| && s.futures[f].result == Some(o)) || (o.Value? && exists t :: PhaseOf(s, t) == Stored(f, o.v))
  }

  lemma StepKnows(s: State, a: Action, f: nat, o: Outcome)
    requires Good(s) && Enabled(s, a) && Known(Apply(s, a), f, o)
    ensures Known(s, f, o) || Ends(s, a, f, o)
  {
    var u := Apply(s, a);
    if !a.Evict? {
      assert ThreadOk(s, a.thread);
    }
    hide Good;
    if o.Value? && exists t :: PhaseOf(u, t) == Stored(f, o.v) {
      var t :| PhaseOf(u, t) == Stored(f, o.v);
      assert PhaseOf(s, t) == Stored(f, o.v) || (!a.Evict? && t == a.thread);
    } else {
      assert a.Resolve? ==> PhaseOf(s, a.thread) == Stored(PhaseOf(s, a.thread).future, PhaseOf(s, a.thread).value);
    }
  }

  /** Over every run a result is what the parse of its future came to: all who wait get the producer's outcome. */
  lemma {:induction false} ResultIsParsed(s: State, actions: seq<Action>, f: nat, o: Outcome)
    requires Good(s) && Runs(s, actions) && Known(After(s, actions), f, o)
    ensures Known(s, f, o) || EndedIn(s, actions, f, o)
    decreases |actions|
  {
    if actions != [] {
      StepKeepsGood(s, actions[0]);
      hide Good, Apply, Enabled, Known, Ends;
      ResultIsParsed(Apply(s, actions[0]), actions[1..], f, o);
      if Known(Apply(s, actions[0]), f, o) {
        StepKnows(s, actions[0], f, o);
      }
    }
  }

  lemma StartIsGood()
    ensures Good(START)
  {
  }

  class MetadataParser {
    var cache: map<Key, int>
    var inflight: map<Key, nat>
    var futures: seq<Future>
    var threads: map<Tid, Phase>

    function Current(): State
      reads this
    {
      State(cache, inflight, futures, threads)
    }

    constructor ()
      ensures Current() == START && Good(Current())
    {
      cache, inflight, futures, threads := map[], map[], [], map[];
    }

    /** The locked lookup of one request: an answer at once, or a future to wait for or to produce. */
    method Enter(t: Tid, key: Key, persisted: Option<int>) returns (answer: Option<int>)
      requires Good(Current()) && Enabled(Current(), Request(t, key, persisted))
      modifies this
      ensures Current() == Apply(old(Current()), Request(t, key, persisted)) && Good(Current())
      ensures answer == if key in old(cache) then Some(old(cache)[key]) else persisted
      ensures cache == if answer.Some? && key !in old(cache) then old(cache)[key := answer.value] else old(cache)
      ensures answer.Some? ==> inflight == old(inflight) && futures == old(futures) && threads == old(threads)
      ensures answer.None? && key in old(inflight) ==>
                && threads == old(threads)[t := Waiting(old(inflight)[key])]
                && inflight == old(inflight) && futures == old(futures)
      ensures answer.None? && key !in old(inflight) ==>
                var n := |old(futures)|;
                && threads == old(threads)[t := Producing(n)]
                && inflight == old(inflight)[key := n] && futures == old(futures) + [Future(key, None)]
    {
      StepKeepsGood(Current(), Request(t, key, persisted));
      if key in cache {
        return Some(cache[key]);
      }
      if persisted.Some? {
        cache := cache[key := persisted.value];
        return persisted;
      }
      if key in inflight {
        threads := threads[t := Waiting(inflight[key])];
      } else {
        inflight := inflight[key := |futures|];
        threads := threads[t := Producing(|futures|)];
        futures := futures + [Future(key, None)];
      }
      answer := None;
    }

    /** The cache write of a successful parse. */
    method Store(t: Tid, value: int)
      requires Good(Current()) && Enabled(Current(), ParseSucceeds(t, value))
      modifies this
      ensures Current() == Apply(old(Current()), ParseSucceeds(t, value)) && Good(Current())
      ensures var f := old(threads)[t].future;
        && f < |old(futures)| && cache == old(cache)[old(futures)[f].key := value]
        && threads == old(threads)[t := Stored(f, value)] && inflight == old(inflight) && futures == old(futures)
    {
      StepKeepsGood(Current(), ParseSucceeds(t, value));
      var f := threads[t].future;
      assert ThreadOk(Current(), t);
      cache, threads := cache[futures[f].key := value], threads[t := Stored(f, value)];
    }

    /** set_result after the cache write. */
    method SetResult(t: Tid)
      requires Good(Current()) && Enabled(Current(), Resolve(t))
      modifies this
      ensures Current() == Apply(old(Current()), Resolve(t)) && Good(Current())
      ensures var (f, value) := (old(threads)[t].future, old(threads)[t].value);
        && f < |old(futures)| && futures == old(futures)[f := Future(old(futures)[f].key, Some(Value(value)))]
        && threads == old(threads)[t := Resolved(f)] && inflight == old(inflight) && cache == old(cache)
    {
      StepKeepsGood(Current(), Resolve(t));
      var f, value := threads[t].future, threads[t].value;
      assert ThreadOk(Current(), t);
      futures, threads := futures[f := futures[f].(result := Some(Value(value)))], threads[t := Resolved(f)];
    }

    /** set_exception; nothing is cached. */
    method SetException(t: Tid, code: int)
      requires Good(Current()) && Enabled(Current(), ParseFails(t, code))
      modifies this
      ensures Current() == Apply(old(Current()), ParseFails(t, code)) && Good(Current())
      ensures var f := old(threads)[t].future;
        && f < |old(futures)| && futures == old(futures)[f := Future(old(futures)[f].key, Some(Error(code)))]
        && threads == old(threads)[t := Resolved(f)] && inflight == old(inflight) && cache == old(cache)
    {
      StepKeepsGood(Current(), ParseFails(t, code));
      var f := threads[t].future;
      assert ThreadOk(Current(), t);
      futures, threads := futures[f := futures[f].(result := Some(Error(code)))], threads[t := Resolved(f)];
    }

    /** The finally block: the key may be parsed again. */
    method LeaveRegistry(t: Tid)
      requires Good(Current()) && Enabled(Current(), Leave(t))
      modifies this
      ensures Current() == Apply(old(Current()), Leave(t)) && Good(Current())
      ensures var f := old(threads)[t].future;
        && f < |old(futures)| && inflight == old(inflight) - {old(futures)[f].key}
        && threads == old(threads)[t := Idle] && futures == old(futures) && cache == old(cache)
    {
      StepKeepsGood(Current(), Leave(t));
      assert ThreadOk(Current(), t);
      inflight, threads := inflight - {futures[threads[t].future].key}, threads[t := Idle];
    }
  }
}
