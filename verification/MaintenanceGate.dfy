/**
 * Exclusive catalog maintenance against counted producers (backend/catalog_maintenance_gate.py).
 * Every block under the condition's lock is one atomic action of one thread. What a thread has
 * entered and not yet left is a hold; a thread leaves its holds in reverse order.
 */
module MaintenanceGate {
  import opened Prelude

  type Tid = nat

  /** A hold remembers whether it was taken as the maintenance owner's bypass. */
  datatype Frame = Maintenance | Producer(bypass: bool) | Tried(bypass: bool)
  datatype Hold = Hold(thread: Tid, frame: Frame)

  /** held: every hold of every thread in acquisition order; sleeping: threads waiting on the condition. */
  datatype Gate = Gate(active: bool, owner: Option<Tid>, producers: int, held: seq<Hold>, sleeping: set<Tid>)

  const OPEN := Gate(false, None, 0, [], {})

  datatype Action =
    | EnterMaintenance(thread: Tid)
    | TryAcquire(thread: Tid)
    | EnterProducer(thread: Tid)
    | Leave(thread: Tid)

  predicate OwnedBy(g: Gate, t: Tid) {
    g.active && g.owner == Some(t)
  }

  predicate Counts(f: Frame) {
    !f.Maintenance? && !f.bypass
  }

  function Counted(held: seq<Hold>): nat {
    if held == [] then 0 else Counted(held[..|held| - 1]) + if Counts(held[|held| - 1].frame) then 1 else 0
  }

  /** The innermost hold of a thread. */
  function LastOf(held: seq<Hold>, t: Tid): (i: Option<nat>)
    ensures i.Some? ==> i.value < |held| && held[i.value].thread == t
    ensures i.Some? ==> forall j :: i.value < j < |held| ==> held[j].thread != t
    ensures i.None? ==> forall j :: 0 <= j < |held| ==> held[j].thread != t
  {
    if held == [] then None
    else if held[|held| - 1].thread == t then Some(|held| - 1)
    else LastOf(held[..|held| - 1], t)
  }

  function RemoveAt(held: seq<Hold>, i: nat): seq<Hold>
    requires i < |held|
  {
    held[..i] + held[i + 1..]
  }

  /** A sleeping thread does nothing until it is notified; only a thread that holds something can leave. */
  predicate Enabled(g: Gate, a: Action) {
    a.thread !in g.sleeping && (a.Leave? ==> LastOf(g.held, a.thread).Some?)
  }

  function Take(g: Gate, t: Tid, f: Frame): Gate {
    g.(held := g.held + [Hold(t, f)], producers := g.producers + if Counts(f) then 1 else 0)
  }

  function Apply(g: Gate, a: Action): Gate
    requires Enabled(g, a)
  {
    match a
    case EnterMaintenance(t) =>
      if g.active || g.producers != 0 then g
      else Take(g, t, Maintenance).(active := true, owner := Some(t))
    case TryAcquire(t) =>
      if g.active && !OwnedBy(g, t) then g else Take(g, t, Tried(OwnedBy(g, t)))
    case EnterProducer(t) =>
      if g.active && !OwnedBy(g, t) then g.(sleeping := g.sleeping + {t})
      else Take(g, t, Producer(OwnedBy(g, t)))
    case Leave(t) =>
      var i := LastOf(g.held, t).value;
      var rest := g.(held := RemoveAt(g.held, i));
      var f := g.held[i].frame;
      if f.Maintenance? then rest.(active := false, owner := None, sleeping := {})
      else if f.bypass then rest
      else rest.(producers := g.producers - 1, sleeping := if g.producers == 1 then {} else g.sleeping)
  }

  ghost predicate Runs(g: Gate, actions: seq<Action>)
    decreases |actions|
  {
    actions != [] ==> Enabled(g, actions[0]) && Runs(Apply(g, actions[0]), actions[1..])
  }

  function After(g: Gate, actions: seq<Action>): Gate
    requires Runs(g, actions)
    decreases |actions|
  {
    if actions == [] then g else After(Apply(g, actions[0]), actions[1..])
  }

  /**
   * While maintenance is active the owner's maintenance hold is the oldest of all and everything else
   * is the owner's own bypass; otherwise every hold is counted and nobody sleeps.
   */
  ghost predicate Good(g: Gate) {
    && g.producers == Counted(g.held)
    && (g.active ==>
          && g.owner.Some? && g.held != [] && g.held[0] == Hold(g.owner.value, Maintenance)
          && (forall i :: 1 <= i < |g.held| ==>
                g.held[i].thread == g.owner.value && !g.held[i].frame.Maintenance? && g.held[i].frame.bypass)
          && g.owner.value !in g.sleeping)
    && (!g.active ==>
          && g.owner.None? && g.sleeping == {}
          && (forall i :: 0 <= i < |g.held| ==> Counts(g.held[i].frame)))
  }

  lemma {:induction false} CountedBounds(held: seq<Hold>)
    ensures Counted(held) == 0 <==> forall i :: 0 <= i < |held| ==> !Counts(held[i].frame)
    ensures Counted(held) <= |held|
  {
    if held != [] {
      CountedBounds(held[..|held| - 1]);
    }
  }

  lemma {:induction false} CountedRemove(held: seq<Hold>, i: nat)
    requires i < |held|
    ensures Counted(held) == Counted(RemoveAt(held, i)) + if Counts(held[i].frame) then 1 else 0
  {
    var n := |held| - 1;
    if i == n {
      assert RemoveAt(held, i) == held[..n];
    } else {
      CountedRemove(held[..n], i);
      assert RemoveAt(held, i)[..n - 1] == RemoveAt(held[..n], i);
    }
  }

  lemma TakeCounts(g: Gate, t: Tid, f: Frame)
    requires g.producers == Counted(g.held)
    ensures Take(g, t, f).producers == Counted(Take(g, t, f).held)
  {
    assert (g.held + [Hold(t, f)])[..|g.held|] == g.held;
  }

  lemma EntryKeepsGood(g: Gate, a: Action)
    requires Good(g) && Enabled(g, a) && !a.Leave?
    ensures Good(Apply(g, a))
  {
    CountedBounds(g.held);
    match a
    case EnterMaintenance(t) => TakeCounts(g, t, Maintenance);
    case TryAcquire(t) => TakeCounts(g, t, Tried(OwnedBy(g, t)));
    case EnterProducer(t) => TakeCounts(g, t, Producer(OwnedBy(g, t)));
  }

  lemma LeaveKeepsGood(g: Gate, t: Tid)
    requires Good(g) && Enabled(g, Leave(t))
    ensures Good(Apply(g, Leave(t)))
  {
    var i := LastOf(g.held, t).value;
    var rest := RemoveAt(g.held, i);
    CountedRemove(g.held, i);
    CountedBounds(g.held);
    if g.active {
      if i == 0 {
        assert rest == [];
      } else {
        assert rest == g.held[..i];
      }
    } else {
      assert forall j :: 0 <= j < |rest| ==> rest[j] == if j < i then g.held[j] else g.held[j + 1];
    }
  }

  lemma ApplyKeepsGood(g: Gate, a: Action)
    requires Good(g) && Enabled(g, a)
    ensures Good(Apply(g, a))
  {
    if a.Leave? {
      LeaveKeepsGood(g, a.thread);
    } else {
      EntryKeepsGood(g, a);
    }
  }

  /** Safety of every run of any number of threads from the open gate. */
  lemma {:induction false} RunKeepsGood(g: Gate, actions: seq<Action>)
    requires Good(g) && Runs(g, actions)
    ensures Good(After(g, actions))
    decreases |actions|
  {
    if actions != [] {
      ApplyKeepsGood(g, actions[0]);
      RunKeepsGood(Apply(g, actions[0]), actions[1..]);
    }
  }

  lemma Safety(actions: seq<Action>)
    requires Runs(OPEN, actions)
    ensures var g := After(OPEN, actions);
      // the counter is the number of outstanding holds that are not bypasses
      && g.producers == Counted(g.held)
      // active maintenance excludes counted producers and has one owner
      && (g.active ==> g.producers == 0)
      && (forall i, j :: 0 <= i < j < |g.held| ==> !(g.held[i].frame.Maintenance? && g.held[j].frame.Maintenance?))
      // bypass holds belong to the current owner only
      && (forall h :: h in g.held && !h.frame.Maintenance? && h.frame.bypass ==> OwnedBy(g, h.thread))
      // nobody sleeps unless maintenance is active, and a sleeper holds nothing
      && (forall t :: t in g.sleeping ==> g.active && g.owner != Some(t) && LastOf(g.held, t).None?)
  {
    RunKeepsGood(OPEN, actions);
    var g := After(OPEN, actions);
    CountedBounds(g.held);
    forall t | t in g.sleeping
      ensures g.active && g.owner != Some(t) && LastOf(g.held, t).None?
    {
      SleeperHoldsNothing(g, t);
    }
  }

  lemma SleeperHoldsNothing(g: Gate, t: Tid)
    requires Good(g) && t in g.sleeping
    ensures g.active && g.owner != Some(t) && LastOf(g.held, t).None?
  {
  }

  /** A nested producer and the maintenance owner never wait. */
  lemma HolderNeverWaits(g: Gate, t: Tid)
    requires Good(g) && t !in g.sleeping && LastOf(g.held, t).Some?
    ensures t !in Apply(g, EnterProducer(t)).sleeping
  {
  }

  /** What one step does while t owns maintenance: nobody else gets a hold, and only t's last leave ends it. */
  ghost predicate ShutsOut(g: Gate, a: Action, t: Tid)
    requires Enabled(g, a)
  {
    && (a.thread != t ==> Apply(g, a).held == g.held)
    && (!OwnedBy(Apply(g, a), t) ==> a == Leave(t) && g.held == [Hold(t, Maintenance)])
    && (OwnedBy(Apply(g, a), t) ==> Apply(g, a).held != [] && Apply(g, a).held[0] == Hold(t, Maintenance))
  }

  /** Every step up to the end of t's maintenance shuts the others out. */
  ghost predicate Excludes(g: Gate, actions: seq<Action>, t: Tid)
    requires Runs(g, actions)
    decreases |actions|
  {
    actions != [] ==>
      && ShutsOut(g, actions[0], t)
      && (OwnedBy(Apply(g, actions[0]), t) ==> Excludes(Apply(g, actions[0]), actions[1..], t))
  }

  lemma OwnerShutsOut(g: Gate, a: Action, t: Tid)
    requires Good(g) && OwnedBy(g, t) && Enabled(g, a)
    ensures ShutsOut(g, a, t)
  {
    if a.Leave? {
      var i := LastOf(g.held, a.thread).value;
      assert i == |g.held| - 1 && a.thread == t;
    }
  }

  /** From the entry of t until t gives its maintenance back, no other thread enters or acquires anything. */
  lemma {:induction false} ExclusionLasts(g: Gate, actions: seq<Action>, t: Tid)
    requires Good(g) && Runs(g, actions) && OwnedBy(g, t)
    ensures Excludes(g, actions, t)
    decreases |actions|
  {
    if actions != [] {
      OwnerShutsOut(g, actions[0], t);
      ApplyKeepsGood(g, actions[0]);
      hide Good, ShutsOut, Apply;
      if OwnedBy(Apply(g, actions[0]), t) {
        ExclusionLasts(Apply(g, actions[0]), actions[1..], t);
      }
    }
  }

  /** On the open gate t enters; then another thread acquires nothing, and a producer of it goes to sleep. */
  lemma EntryIsReached(t: Tid, u: Tid)
    requires t != u
    ensures var g := Gate(true, Some(t), 0, [Hold(t, Maintenance)], {});
      && Runs(OPEN, [EnterMaintenance(t)]) && After(OPEN, [EnterMaintenance(t)]) == g
      && Enabled(g, TryAcquire(u)) && Apply(g, TryAcquire(u)) == g
      && Enabled(g, EnterProducer(u)) && Apply(g, EnterProducer(u)) == g.(sleeping := {u})
  {
    assert [] + [Hold(t, Maintenance)] == [Hold(t, Maintenance)];
    assert [EnterMaintenance(t)][1..] == [];
  }

  function LeaveTimes(t: Tid, n: nat): seq<Action> {
    if n == 0 then [] else [Leave(t)] + LeaveTimes(t, n - 1)
  }

  /** No deadlock: whenever a thread sleeps, the owner can leave its holds one by one, and that wakes every sleeper. */
  lemma {:induction false} OwnerCanDrain(g: Gate)
    requires Good(g) && g.active
    ensures Runs(g, LeaveTimes(g.owner.value, |g.held|))
    ensures var done := After(g, LeaveTimes(g.owner.value, |g.held|));
      !done.active && done.sleeping == {} && done.held == []
    decreases |g.held|
  {
    var t := g.owner.value;
    var n := |g.held|;
    var rest := LeaveTimes(t, n - 1);
    assert LeaveTimes(t, n) == [Leave(t)] + rest;
    assert LeaveTimes(t, n)[1..] == rest;
    var i := LastOf(g.held, t).value;
    assert i == n - 1;
    var g1 := Apply(g, Leave(t));
    ApplyKeepsGood(g, Leave(t));
    assert RemoveAt(g.held, i) == g.held[..n - 1];
    if n > 1 {
      OwnerCanDrain(g1);
    }
  }

  /** after is before without its i-th hold, the innermost of its thread. */
  ghost predicate TakenOut(before: seq<Hold>, i: int, h: Hold, after: seq<Hold>) {
    && 0 <= i < |before| && before[i] == h && (forall j :: i < j < |before| ==> before[j].thread != h.thread)
    && after == before[..i] + before[i + 1..]
  }

  /** The module globals with the thread-local stacks of the try/release pair. */
  class SharedGate {
    var maintenanceActive: bool
    var maintenanceOwner: Option<Tid>
    var activeProducers: int
    var stacks: map<Tid, seq<bool>>
    ghost var held: seq<Hold>
    ghost var sleeping: set<Tid>

    ghost function State(): Gate
      reads this
    {
      Gate(maintenanceActive, maintenanceOwner, activeProducers, held, sleeping)
    }

    ghost predicate Valid()
      reads this
    {
      Good(State()) && StacksAgree(stacks, held)
    }

    /** A hold of a producer is given back; a counted one is counted off, and the last of these wakes all sleepers. */
    ghost predicate Returns(before: Gate, t: Tid, frame: Frame, bypass: bool)
      reads this
    {
      && (exists i :: TakenOut(before.held, i, Hold(t, frame), held))
      && activeProducers == before.producers - (if bypass then 0 else 1)
      && sleeping == (if !bypass && before.producers == 1 then {} else before.sleeping)
      && maintenanceActive == before.active && maintenanceOwner == before.owner
    }

    constructor ()
      ensures State() == OPEN && Valid()
    {
      maintenanceActive, maintenanceOwner, activeProducers, stacks := false, None, 0, map[];
      held, sleeping := [], {};
    }

    method BeginMaintenance(t: Tid) returns (entered: bool)
      requires Valid() && t !in sleeping
      modifies this
      ensures State() == Apply(old(State()), EnterMaintenance(t)) && Valid()
      ensures entered <==> !old(maintenanceActive) && old(activeProducers) == 0
      ensures entered ==>
                && maintenanceActive && maintenanceOwner == Some(t) && held == old(held) + [Hold(t, Maintenance)]
                && activeProducers == old(activeProducers) && sleeping == old(sleeping) && stacks == old(stacks)
      ensures !entered ==> State() == old(State()) && stacks == old(stacks)
    {
      entered := !(maintenanceActive || activeProducers != 0);
      if entered {
        ApplyKeepsGood(State(), EnterMaintenance(t));
        AgreeAfterTake(stacks, held, Hold(t, Maintenance));
        maintenanceActive, maintenanceOwner := true, Some(t);
        held := held + [Hold(t, Maintenance)];
      }
    }

    method EndMaintenance(t: Tid)
      requires Valid() && t !in sleeping
      requires LastOf(held, t).Some? && held[LastOf(held, t).value].frame == Maintenance
      modifies this
      ensures State() == Apply(old(State()), Leave(t)) && Valid()
      ensures !maintenanceActive && maintenanceOwner.None? && sleeping == {} && activeProducers == old(activeProducers)
      ensures stacks == old(stacks) && exists i :: TakenOut(old(held), i, Hold(t, Maintenance), held)
    {
      ApplyKeepsGood(State(), Leave(t));
      ghost var i := LastOf(held, t).value;
      AgreeAfterLeave(stacks, held, i);
      assert TakenOut(held, i, Hold(t, Maintenance), RemoveAt(held, i));
      held := RemoveAt(held, i);
      maintenanceActive, maintenanceOwner := false, None;
      sleeping := {};
    }

    method TryAcquireGate(t: Tid) returns (acquired: bool)
      requires Valid() && t !in sleeping
      modifies this
      ensures State() == Apply(old(State()), TryAcquire(t)) && Valid()
      ensures acquired <==> !old(maintenanceActive) || old(maintenanceOwner) == Some(t)
      ensures acquired ==>
                && held == old(held) + [Hold(t, Tried(old(maintenanceActive)))]
                && activeProducers == old(activeProducers) + (if old(maintenanceActive) then 0 else 1)
                && stacks == old(stacks)[t := old(StackIn(stacks, t)) + [old(maintenanceActive)]]
      ensures !acquired ==> State() == old(State()) && stacks == old(stacks)
      ensures maintenanceActive == old(maintenanceActive) && maintenanceOwner == old(maintenanceOwner)
      ensures sleeping == old(sleeping)
    {
      ApplyKeepsGood(State(), TryAcquire(t));
      var ownerBypass := maintenanceActive && maintenanceOwner == Some(t);
      if maintenanceActive && !ownerBypass {
        return false;
      }
      if !ownerBypass {
        activeProducers := activeProducers + 1;
      }
      AgreeAfterTake(stacks, held, Hold(t, Tried(ownerBypass)));
      stacks := stacks[t := StackIn(stacks, t) + [ownerBypass]];
      held := held + [Hold(t, Tried(ownerBypass))];
      acquired := true;
    }

    /** Returns false where the source raises: nothing was acquired by this thread. */
    method ReleaseGate(t: Tid) returns (released: bool)
      requires Valid() && t !in sleeping
      requires StackIn(stacks, t) != [] ==> LastOf(held, t).Some? && held[LastOf(held, t).value].frame.Tried?
      modifies this
      ensures released <==> old(StackIn(stacks, t)) != []
      ensures State() == if released then Apply(old(State()), Leave(t)) else old(State())
      ensures Valid()
      ensures released ==>
                var before := old(StackIn(stacks, t));
                var bypass := before[|before| - 1];
                && stacks == old(stacks)[t := before[..|before| - 1]]
                && Returns(old(State()), t, Tried(bypass), bypass)
      ensures !released ==> stacks == old(stacks)
    {
      var stack := StackIn(stacks, t);
      if stack == [] {
        return false;
      }
      ghost var i := LastOf(held, t).value;
      ApplyKeepsGood(State(), Leave(t));
      AgreeAfterLeave(stacks, held, i);
      assert TakenOut(held, i, held[i], RemoveAt(held, i));
      var ownerBypass := stack[|stack| - 1];
      stacks := stacks[t := stack[..|stack| - 1]];
      held := RemoveAt(held, i);
      if !ownerBypass {
        activeProducers := activeProducers - 1;
        if activeProducers == 0 {
          sleeping := {};
        }
      }
      released := true;
    }

    /** One pass of the wait loop: either the thread goes to sleep or it holds the gate. */
    method BeginProducer(t: Tid) returns (entered: bool, ownerBypass: bool)
      requires Valid() && t !in sleeping
      modifies this
      ensures State() == Apply(old(State()), EnterProducer(t)) && Valid()
      ensures entered <==> !old(maintenanceActive) || old(maintenanceOwner) == Some(t)
      ensures ownerBypass <==> old(maintenanceActive) && old(maintenanceOwner) == Some(t)
      ensures entered ==>
                && held == old(held) + [Hold(t, Producer(ownerBypass))] && sleeping == old(sleeping)
                && activeProducers == old(activeProducers) + (if ownerBypass then 0 else 1)
      ensures !entered ==>
                held == old(held) && sleeping == old(sleeping) + {t} && activeProducers == old(activeProducers)
      ensures maintenanceActive == old(maintenanceActive) && maintenanceOwner == old(maintenanceOwner)
      ensures stacks == old(stacks)
    {
      ApplyKeepsGood(State(), EnterProducer(t));
      ownerBypass := maintenanceActive && maintenanceOwner == Some(t);
      if maintenanceActive && !ownerBypass {
        sleeping := sleeping + {t};
        return false, ownerBypass;
      }
      if !ownerBypass {
        activeProducers := activeProducers + 1;
      }
      AgreeAfterTake(stacks, held, Hold(t, Producer(ownerBypass)));
      held := held + [Hold(t, Producer(ownerBypass))];
      entered := true;
    }

    method EndProducer(t: Tid, ownerBypass: bool)
      requires Valid() && t !in sleeping
      requires LastOf(held, t).Some? && held[LastOf(held, t).value].frame == Producer(ownerBypass)
      modifies this
      ensures State() == Apply(old(State()), Leave(t)) && Valid()
      ensures Returns(old(State()), t, Producer(ownerBypass), ownerBypass) && stacks == old(stacks)
    {
      hide Good, StacksAgree;
      ApplyKeepsGood(State(), Leave(t));
      ghost var i := LastOf(held, t).value;
      AgreeAfterLeave(stacks, held, i);
      assert TakenOut(held, i, held[i], RemoveAt(held, i));
      held := RemoveAt(held, i);
      if !ownerBypass {
        activeProducers := activeProducers - 1;
        if activeProducers == 0 {
          sleeping := {};
        }
      }
    }
  }

  // ---------------------------------------------------------------- thread-local stacks

  function StackIn(stacks: map<Tid, seq<bool>>, t: Tid): seq<bool> {
    if t in stacks then stacks[t] else []
  }

  /** What a thread's try/release stack has to hold. */
  ghost function TriedFlags(held: seq<Hold>, t: Tid): seq<bool> {
    if held == [] then []
    else
      var h := held[|held| - 1];
      var below := TriedFlags(held[..|held| - 1], t);
      if h.thread == t && h.frame.Tried? then below + [h.frame.bypass] else below
  }

  lemma TriedFlagsPush(held: seq<Hold>, h: Hold, t: Tid)
    ensures TriedFlags(held + [h], t) ==
            if h.thread == t && h.frame.Tried? then TriedFlags(held, t) + [h.frame.bypass] else TriedFlags(held, t)
  {
    assert (held + [h])[..|held|] == held;
  }

  ghost predicate StacksAgree(stacks: map<Tid, seq<bool>>, held: seq<Hold>) {
    forall t :: StackIn(stacks, t) == TriedFlags(held, t)
  }

  function StacksAfterTake(stacks: map<Tid, seq<bool>>, h: Hold): map<Tid, seq<bool>> {
    if h.frame.Tried? then stacks[h.thread := StackIn(stacks, h.thread) + [h.frame.bypass]] else stacks
  }

  function StacksAfterLeave(stacks: map<Tid, seq<bool>>, h: Hold): map<Tid, seq<bool>>
    requires h.frame.Tried? ==> StackIn(stacks, h.thread) != []
  {
    var s := StackIn(stacks, h.thread);
    if h.frame.Tried? then stacks[h.thread := s[..|s| - 1]] else stacks
  }

  lemma AgreeAfterTake(stacks: map<Tid, seq<bool>>, held: seq<Hold>, h: Hold)
    requires StacksAgree(stacks, held)
    ensures StacksAgree(StacksAfterTake(stacks, h), held + [h])
  {
    forall t
      ensures StackIn(StacksAfterTake(stacks, h), t) == TriedFlags(held + [h], t)
    {
      assert StackIn(stacks, t) == TriedFlags(held, t);
      TriedFlagsPush(held, h, t);
    }
  }

  /** Removing the innermost hold of a thread pops its stack if that hold was a try, and nothing else. */
  lemma {:induction false} TriedFlagsRemove(held: seq<Hold>, i: nat, t: Tid)
    requires i < |held| && LastOf(held, held[i].thread) == Some(i)
    ensures var below := TriedFlags(RemoveAt(held, i), t);
      TriedFlags(held, t) ==
        if held[i].thread == t && held[i].frame.Tried? then below + [held[i].frame.bypass] else below
  {
    var n := |held| - 1;
    var front, last := held[..n], held[n];
    assert held == front + [last];
    TriedFlagsPush(front, last, t);
    if i == n {
      assert RemoveAt(held, i) == front;
    } else {
      assert last.thread != held[i].thread && front[i] == held[i];
      TriedFlagsRemove(front, i, t);
      assert RemoveAt(held, i) == RemoveAt(front, i) + [last];
      hide TriedFlags;
      TriedFlagsPush(RemoveAt(front, i), last, t);
    }
  }

  lemma AgreeAfterLeave(stacks: map<Tid, seq<bool>>, held: seq<Hold>, i: nat)
    requires StacksAgree(stacks, held)
    requires i < |held| && LastOf(held, held[i].thread) == Some(i)
    ensures held[i].frame.Tried? ==>
              var s := StackIn(stacks, held[i].thread); s != [] && s[|s| - 1] == held[i].frame.bypass
    ensures StacksAgree(StacksAfterLeave(stacks, held[i]), RemoveAt(held, i))
  {
    TriedFlagsRemove(held, i, held[i].thread);
    assert StackIn(stacks, held[i].thread) == TriedFlags(held, held[i].thread);
    var after := StacksAfterLeave(stacks, held[i]);
    forall t
      ensures StackIn(after, t) == TriedFlags(RemoveAt(held, i), t)
    {
      TriedFlagsRemove(held, i, t);
      assert StackIn(stacks, t) == TriedFlags(held, t);
    }
  }
}
