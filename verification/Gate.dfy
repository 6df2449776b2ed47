/** Serialising by key: a reference-counted lock per key, made on demand and taken out of the map when the last
    call of its key is gone, also when calls are dropped at any await. */
module Gate {
  import opened Wrappers
  import opened Totals

  type Key = nat
  type GateId = nat
  type CallId = nat

  // ---- the map and the reference counts -------------------------------------------------------

  /** The locks by key and the strong count of each; the map itself is one of the owners. */
  datatype Locks = Locks(gates: map<Key, GateId>, count: map<GateId, nat>, next: GateId)

  /** A clone of the lock of a key, which is made when there is none. */
  function Obtained(l: Locks, key: Key): (Locks, GateId) {
    if key in l.gates && l.gates[key] in l.count then
      (l.(count := l.count[l.gates[key] := l.count[l.gates[key]] + 1]), l.gates[key])
    else (Locks(l.gates[key := l.next], l.count[l.next := 2], l.next + 1), l.next)
  }

  /** A clone goes. */
  function Dropped(l: Locks, g: GateId): Locks {
    if g in l.count && l.count[g] > 0 then l.(count := l.count[g := l.count[g] - 1]) else l
  }

  /** The lock leaves the map when only the map owns it. */
  function Cleaned(l: Locks, key: Key): Locks {
    if key in l.gates && l.gates[key] in l.count && l.count[l.gates[key]] == 1
    then l.(gates := l.gates - {key}, count := l.count - {l.gates[key]})
    else l
  }

  class Gates {
    var locks: Locks

    constructor ()
      ensures locks == Locks(map[], map[], 0)
    {
      locks := Locks(map[], map[], 0);
    }

    method Obtain(key: Key) returns (g: GateId)
      modifies this
      ensures (locks, g) == Obtained(old(locks), key)
    {
      if key in locks.gates && locks.gates[key] in locks.count {
        g := locks.gates[key];
        locks := locks.(count := locks.count[g := locks.count[g] + 1]);
      } else {
        g := locks.next;
        locks := Locks(locks.gates[key := g], locks.count[g := 2], g + 1);
      }
    }

    method Drop(g: GateId)
      modifies this
      ensures locks == Dropped(old(locks), g)
    {
      if g in locks.count && locks.count[g] > 0 {
        locks := locks.(count := locks.count[g := locks.count[g] - 1]);
      }
    }

    method Cleanup(key: Key)
      modifies this
      ensures locks == Cleaned(old(locks), key)
    {
      if key in locks.gates && locks.gates[key] in locks.count && locks.count[locks.gates[key]] == 1 {
        locks := locks.(gates := locks.gates - {key}, count := locks.count - {locks.gates[key]});
      }
    }
  }

  // ---- calls ----------------------------------------------------------------------------------

  /** Where a call is. `Leaving` still owns its clone, `Cleaning` owns nothing but its duty to clean up: that is
      the order in which the locals are dropped. */
  datatype Phase = Entering | Waiting(g: GateId) | Holding(g: GateId) | Leaving(g: GateId) | Cleaning

  datatype Call = Call(key: Key, phase: Phase)

  datatype State = State(locks: Locks, holder: map<GateId, CallId>, calls: map<CallId, Call>, nextCall: CallId)

  const INITIAL := State(Locks(map[], map[], 0), map[], map[], 0)

  predicate Owns(c: Call, g: GateId) {
    c.phase == Waiting(g) || c.phase == Holding(g) || c.phase == Leaving(g)
  }

  function OwnersOf(s: State, g: GateId): set<CallId> {
    set id | id in s.calls && Owns(s.calls[id], g)
  }

  datatype Action =
    | Enter(key: Key)
    | Clone(id: CallId)
    | Acquire(id: CallId)
    | Leave(id: CallId)     // the future is done, or the call is dropped at either await
    | Drop(id: CallId)
    | Clean(id: CallId)

  function PhaseAt(s: State, id: CallId): Option<Phase> {
    if id in s.calls then Some(s.calls[id].phase) else None
  }

  predicate Enabled(s: State, a: Action) {
    match a
    case Enter(_) => true
    case Clone(id) => PhaseAt(s, id) == Some(Entering)
    case Acquire(id) => PhaseAt(s, id).Some? && PhaseAt(s, id).value.Waiting? && PhaseAt(s, id).value.g !in s.holder
    case Leave(id) => PhaseAt(s, id).Some? && (PhaseAt(s, id).value.Waiting? || PhaseAt(s, id).value.Holding?)
    case Drop(id) => PhaseAt(s, id).Some? && PhaseAt(s, id).value.Leaving?
    case Clean(id) => PhaseAt(s, id) == Some(Cleaning)
  }

  function At(s: State, id: CallId, phase: Phase): State
    requires id in s.calls
  {
    s.(calls := s.calls[id := Call(s.calls[id].key, phase)])
  }

  function Apply(s: State, a: Action): State
    requires Enabled(s, a)
  {
    match a
    case Enter(key) => s.(calls := s.calls[s.nextCall := Call(key, Entering)], nextCall := s.nextCall + 1)
    case Clone(id) =>
      var (locks, g) := Obtained(s.locks, s.calls[id].key);
      At(s, id, Waiting(g)).(locks := locks)
    case Acquire(id) =>
      var g := s.calls[id].phase.g;
      At(s, id, Holding(g)).(holder := s.holder[g := id])
    case Leave(id) =>
      var g := s.calls[id].phase.g;
      At(s, id, Leaving(g)).(holder := if s.calls[id].phase.Holding? then s.holder - {g} else s.holder)
    case Drop(id) => At(s, id, Cleaning).(locks := Dropped(s.locks, s.calls[id].phase.g))
    case Clean(id) => s.(calls := s.calls - {id}, locks := Cleaned(s.locks, s.calls[id].key))
  }

  // ---- what every reachable state keeps -------------------------------------------------------

  /** Every lock of the map is counted right: the map and the clones. */
  ghost predicate Counted(s: State) {
    && (forall key :: key in s.locks.gates ==>
          && s.locks.gates[key] in s.locks.count && s.locks.gates[key] < s.locks.next
          && s.locks.count[s.locks.gates[key]] == 1 + |OwnersOf(s, s.locks.gates[key])|)
    && (forall a, b :: a in s.locks.gates && b in s.locks.gates && s.locks.gates[a] == s.locks.gates[b] ==> a == b)
  }

  /** Whoever has a clone has the lock that stands in the map under its key. */
  ghost predicate Attached(s: State) {
    forall id, g :: id in s.calls && Owns(s.calls[id], g) ==>
      s.calls[id].key in s.locks.gates && s.locks.gates[s.calls[id].key] == g
  }

  /** A lock is held by the one call that is past it. */
  ghost predicate HeldByOne(s: State) {
    && (forall g :: g in s.holder ==> s.holder[g] in s.calls && s.calls[s.holder[g]].phase == Holding(g))
    && (forall id, g :: id in s.calls && s.calls[id].phase == Holding(g) ==> g in s.holder && s.holder[g] == id)
  }

  /** Somebody is there to take each entry out. */
  ghost predicate Tended(s: State) {
    forall key :: key in s.locks.gates ==> exists id :: id in s.calls && s.calls[id].key == key && !s.calls[id].phase.Entering?
  }

  ghost predicate Inv(s: State) {
    Counted(s) && Attached(s) && HeldByOne(s) && Tended(s) && forall id :: id in s.calls ==> id < s.nextCall
  }

  lemma InitialInv()
    ensures Inv(INITIAL)
  {
  }

  lemma OwnersSame(s: State, t: State, g: GateId)
    requires forall id :: (id in t.calls && Owns(t.calls[id], g)) <==> (id in s.calls && Owns(s.calls[id], g))
    ensures OwnersOf(t, g) == OwnersOf(s, g)
  {
  }

  /** A step that changes neither the locks nor who owns what keeps the counts. */
  lemma CountedSame(s: State, t: State)
    requires Counted(s) && t.locks == s.locks
    requires forall g :: OwnersOf(t, g) == OwnersOf(s, g)
    ensures Counted(t)
  {
    hide OwnersOf;
  }

  lemma OwnersSameButOne(s: State, t: State, id: CallId)
    requires t.calls.Keys == s.calls.Keys + {id} && forall i :: i in s.calls && i != id ==> t.calls[i] == s.calls[i]
    requires forall g :: Owns(t.calls[id], g) <==> (id in s.calls && Owns(s.calls[id], g))
    ensures forall g :: OwnersOf(t, g) == OwnersOf(s, g)
  {
    hide Owns;
    forall g ensures OwnersOf(t, g) == OwnersOf(s, g) {
      forall i ensures i in OwnersOf(t, g) <==> i in OwnersOf(s, g) {
        assert i != id ==> (i in t.calls <==> i in s.calls);
      }
    }
  }

  lemma EnterTended(s: State, t: State, call: Call)
    requires Tended(s) && s.nextCall !in s.calls && t.locks == s.locks && t.calls == s.calls[s.nextCall := call]
    ensures Tended(t)
  {
    forall k | k in t.locks.gates ensures exists id :: id in t.calls && t.calls[id].key == k && !t.calls[id].phase.Entering? {
      var id :| id in s.calls && s.calls[id].key == k && !s.calls[id].phase.Entering?;
      assert id in t.calls && t.calls[id] == s.calls[id];
    }
  }

  lemma EnterKeeps(s: State, key: Key)
    requires Inv(s)
    ensures Inv(Apply(s, Enter(key)))
  {
    hide Counted, Tended;
    var t := Apply(s, Enter(key));
    assert s.nextCall !in s.calls;
    OwnersSameButOne(s, t, s.nextCall);
    CountedSame(s, t);
    EnterTended(s, t, Call(key, Entering));
  }

  /** Between steps that keep the owners: entering a wait, a hold or a leave keeps everything counted. */
  lemma SameOwnersKeep(s: State, t: State, id: CallId, phase: Phase)
    requires Inv(s) && id in s.calls && t.locks == s.locks && t.nextCall == s.nextCall
    requires t.calls == s.calls[id := Call(s.calls[id].key, phase)] && !phase.Entering? && !s.calls[id].phase.Entering?
    requires forall g :: Owns(t.calls[id], g) <==> Owns(s.calls[id], g)
    ensures Counted(t) && Attached(t) && Tended(t)
  {
    hide Owns, Counted;
    OwnersSameButOne(s, t, id);
    CountedSame(s, t);
    forall key | key in t.locks.gates ensures exists i :: i in t.calls && t.calls[i].key == key && !t.calls[i].phase.Entering? {
      var i :| i in s.calls && s.calls[i].key == key && !s.calls[i].phase.Entering?;
      assert i in t.calls && t.calls[i].key == key && !t.calls[i].phase.Entering?;
    }
  }

  lemma AcquireKeeps(s: State, id: CallId)
    requires Inv(s) && Enabled(s, Acquire(id))
    ensures Inv(Apply(s, Acquire(id)))
  {
    hide Counted, Attached, Tended;
    var t := Apply(s, Acquire(id));
    SameOwnersKeep(s, t, id, Holding(s.calls[id].phase.g));
  }

  lemma LeaveKeeps(s: State, id: CallId)
    requires Inv(s) && Enabled(s, Leave(id))
    ensures Inv(Apply(s, Leave(id)))
  {
    hide Counted, Attached, Tended;
    var t := Apply(s, Leave(id));
    SameOwnersKeep(s, t, id, Leaving(s.calls[id].phase.g));
  }

  /** Taking a clone adds the call to the owners of the lock of its key. */
  lemma CloneOwners(s: State, t: State, id: CallId, g: GateId)
    requires id in s.calls && s.calls[id].phase.Entering? && t.calls == s.calls[id := Call(s.calls[id].key, Waiting(g))]
    ensures OwnersOf(t, g) == OwnersOf(s, g) + {id} && id !in OwnersOf(s, g)
    ensures forall h :: h != g ==> OwnersOf(t, h) == OwnersOf(s, h)
  {
    forall h | h != g ensures OwnersOf(t, h) == OwnersOf(s, h) {
      OwnersSame(s, t, h);
    }
  }

  lemma OwnedIsOld(s: State, id: CallId, g: GateId)
    requires Inv(s) && id in s.calls && Owns(s.calls[id], g)
    ensures g < s.locks.next
  {
    hide OwnersOf, HeldByOne, Tended;
    assert s.locks.gates[s.calls[id].key] == g;
  }

  /** A lock that was never handed out has no owner. */
  lemma FreshHasNoOwner(s: State, g: GateId)
    requires Inv(s) && g >= s.locks.next
    ensures OwnersOf(s, g) == {}
  {
    hide Inv;
    forall id | id in s.calls ensures !Owns(s.calls[id], g) {
      if Owns(s.calls[id], g) {
        OwnedIsOld(s, id, g);
      }
    }
  }

  lemma CloneCounted(s: State, id: CallId)
    requires Inv(s) && Enabled(s, Clone(id))
    ensures Counted(Apply(s, Clone(id)))
  {
    hide Owns, OwnersOf, Attached, HeldByOne, Tended;
    var key := s.calls[id].key;
    var t := Apply(s, Clone(id));
    var g := Obtained(s.locks, key).1;
    CloneOwners(s, t, id, g);
    if key !in s.locks.gates {
      FreshHasNoOwner(s, g);
    }
    forall k | k in t.locks.gates && k != key ensures t.locks.gates[k] == s.locks.gates[k] != g {
    }
  }

  lemma CloneAttached(s: State, id: CallId)
    requires Inv(s) && Enabled(s, Clone(id))
    ensures Attached(Apply(s, Clone(id))) && Tended(Apply(s, Clone(id)))
  {
    hide OwnersOf, HeldByOne;
    var key := s.calls[id].key;
    var t := Apply(s, Clone(id));
    assert t.locks.gates == (if key in s.locks.gates then s.locks.gates else s.locks.gates[key := s.locks.next]);
    forall k | k in t.locks.gates ensures exists i :: i in t.calls && t.calls[i].key == k && !t.calls[i].phase.Entering? {
      if k == key {
        assert id in t.calls && t.calls[id].key == key;
      } else {
        var i :| i in s.calls && s.calls[i].key == k && !s.calls[i].phase.Entering?;
        assert i in t.calls && t.calls[i] == s.calls[i];
      }
    }
  }

  lemma CloneKeeps(s: State, id: CallId)
    requires Inv(s) && Enabled(s, Clone(id))
    ensures Inv(Apply(s, Clone(id)))
  {
    hide Counted, Attached, Tended, Obtained;
    CloneCounted(s, id);
    CloneAttached(s, id);
  }

  lemma DropOwners(s: State, t: State, id: CallId, g: GateId)
    requires id in s.calls && s.calls[id].phase == Leaving(g) && t.calls == s.calls[id := Call(s.calls[id].key, Cleaning)]
    ensures OwnersOf(t, g) == OwnersOf(s, g) - {id} && id in OwnersOf(s, g)
    ensures forall h :: h != g ==> OwnersOf(t, h) == OwnersOf(s, h)
  {
    forall h | h != g ensures OwnersOf(t, h) == OwnersOf(s, h) {
      OwnersSame(s, t, h);
    }
  }

  lemma DropCounted(s: State, id: CallId)
    requires Inv(s) && Enabled(s, Drop(id))
    ensures Counted(Apply(s, Drop(id))) && Apply(s, Drop(id)).locks.gates == s.locks.gates
  {
    hide OwnersOf, HeldByOne, Tended;
    var key, g := s.calls[id].key, s.calls[id].phase.g;
    var t := Apply(s, Drop(id));
    DropOwners(s, t, id, g);
    assert Owns(s.calls[id], g) && s.locks.gates[key] == g;
    assert |OwnersOf(s, g) - {id}| == |OwnersOf(s, g)| - 1;
  }

  lemma DropKeeps(s: State, id: CallId)
    requires Inv(s) && Enabled(s, Drop(id))
    ensures Inv(Apply(s, Drop(id)))
  {
    hide Counted, OwnersOf, Dropped;
    DropCounted(s, id);
    var t := Apply(s, Drop(id));
    forall k | k in t.locks.gates ensures exists i :: i in t.calls && t.calls[i].key == k && !t.calls[i].phase.Entering? {
      var i :| i in s.calls && s.calls[i].key == k && !s.calls[i].phase.Entering?;
      assert i in t.calls && t.calls[i].key == k && !t.calls[i].phase.Entering?;
    }
  }

  lemma CleanOwners(s: State, t: State, id: CallId)
    requires id in s.calls && s.calls[id].phase == Cleaning && t.calls == s.calls - {id}
    ensures forall h :: OwnersOf(t, h) == OwnersOf(s, h)
  {
    forall h ensures OwnersOf(t, h) == OwnersOf(s, h) {
      OwnersSame(s, t, h);
    }
  }

  lemma CleanCounted(s: State, id: CallId)
    requires Inv(s) && Enabled(s, Clean(id))
    ensures Counted(Apply(s, Clean(id)))
  {
    hide OwnersOf, HeldByOne, Tended, Attached, Owns;
    CleanOwners(s, Apply(s, Clean(id)), id);
  }

  lemma NoOwners(s: State, g: GateId, id: CallId)
    requires |OwnersOf(s, g)| == 0 && id in s.calls
    ensures !Owns(s.calls[id], g)
  {
    assert Owns(s.calls[id], g) ==> id in OwnersOf(s, g);
  }

  lemma CleanAttached(s: State, id: CallId)
    requires Inv(s) && Enabled(s, Clean(id))
    ensures Attached(Apply(s, Clean(id)))
  {
    hide OwnersOf, HeldByOne, Tended;
    var key := s.calls[id].key;
    var t := Apply(s, Clean(id));
    forall i, g | i in t.calls && Owns(t.calls[i], g)
      ensures t.calls[i].key in t.locks.gates && t.locks.gates[t.calls[i].key] == g
    {
      assert Owns(s.calls[i], g);
      if t.calls[i].key == key && s.locks.count[g] == 1 {
        NoOwners(s, g, i);
      }
    }
  }

  /** An entry that stays has an owner left, who will clean up in turn. */
  lemma CleanTended(s: State, id: CallId)
    requires Inv(s) && Enabled(s, Clean(id))
    ensures Tended(Apply(s, Clean(id)))
  {
    hide OwnersOf, HeldByOne;
    var key := s.calls[id].key;
    var t := Apply(s, Clean(id));
    forall k | k in t.locks.gates ensures exists i :: i in t.calls && t.calls[i].key == k && !t.calls[i].phase.Entering? {
      if k == key {
        var g := s.locks.gates[key];
        var i := SomeOwner(s, g);
        assert i in t.calls && t.calls[i].key == k;
      } else {
        var i :| i in s.calls && s.calls[i].key == k && !s.calls[i].phase.Entering?;
        assert i in t.calls && t.calls[i].key == k;
      }
    }
  }

  lemma SomeOwner(s: State, g: GateId) returns (id: CallId)
    requires Inv(s) && |OwnersOf(s, g)| > 0
    ensures id in s.calls && Owns(s.calls[id], g) && s.locks.gates.Keys >= {s.calls[id].key} && s.locks.gates[s.calls[id].key] == g
  {
    assert OwnersOf(s, g) != {};
    id :| id in OwnersOf(s, g);
  }

  lemma CleanKeeps(s: State, id: CallId)
    requires Inv(s) && Enabled(s, Clean(id))
    ensures Inv(Apply(s, Clean(id)))
  {
    hide Counted, Attached, Tended, Cleaned;
    CleanCounted(s, id);
    CleanAttached(s, id);
    CleanTended(s, id);
  }

  lemma StepKeeps(s: State, a: Action)
    requires Inv(s) && Enabled(s, a)
    ensures Inv(Apply(s, a))
  {
    hide Inv, Apply, Enabled;
    match a
    case Enter(key) => EnterKeeps(s, key);
    case Clone(id) => CloneKeeps(s, id);
    case Acquire(id) => AcquireKeeps(s, id);
    case Leave(id) => LeaveKeeps(s, id);
    case Drop(id) => DropKeeps(s, id);
    case Clean(id) => CleanKeeps(s, id);
  }

  // ---- all traces -----------------------------------------------------------------------------

  /** The state after some actions; None when one of them could not happen. */
  ghost function After(s: State, actions: seq<Action>): Option<State>
    decreases |actions|
  {
    if actions == [] then Some(s)
    else if Enabled(s, actions[0]) then After(Apply(s, actions[0]), actions[1..])
    else None
  }

  ghost function Trace(actions: seq<Action>): Option<State> {
    After(INITIAL, actions)
  }

  lemma {:induction false} AfterKeeps(s: State, actions: seq<Action>)
    requires Inv(s)
    ensures After(s, actions).Some? ==> Inv(After(s, actions).value)
    decreases |actions|
  {
    hide Inv, Apply, Enabled;
    if actions != [] && Enabled(s, actions[0]) {
      StepKeeps(s, actions[0]);
      AfterKeeps(Apply(s, actions[0]), actions[1..]);
    }
  }

  /** The call is past the lock: its future runs. */
  predicate InSection(s: State, id: CallId) {
    id in s.calls && s.calls[id].phase.Holding?
  }

  /** A mutex per key, under cancellation. In every state any interleaving can reach: two calls of one key are never
      past the lock at once, whether or not the entry was removed and made anew in between; whoever waits, holds or
      leaves has the very lock that stands in the map; and when no call of a key is left, neither is its entry. */
  lemma MutexPerKey(actions: seq<Action>)
    requires Trace(actions).Some?
    ensures var s := Trace(actions).value;
            && (forall a, b :: InSection(s, a) && InSection(s, b) && s.calls[a].key == s.calls[b].key ==> a == b)
            && (forall id, g :: id in s.calls && Owns(s.calls[id], g) ==>
                  s.calls[id].key in s.locks.gates && s.locks.gates[s.calls[id].key] == g)
            && (forall key :: key in s.locks.gates ==> exists id :: id in s.calls && s.calls[id].key == key)
  {
    hide After, Counted;
    InitialInv();
    AfterKeeps(INITIAL, actions);
    var s := Trace(actions).value;
    forall a, b | InSection(s, a) && InSection(s, b) && s.calls[a].key == s.calls[b].key ensures a == b {
      var g, h := s.calls[a].phase.g, s.calls[b].phase.g;
      assert Owns(s.calls[a], g) && Owns(s.calls[b], h);
      assert g == s.locks.gates[s.calls[a].key] == h;
    }
  }

  // ---- every call comes to its end ------------------------------------------------------------

  /** How many steps a call has before it. */
  function Rank(phase: Phase): nat {
    match phase
    case Entering => 5
    case Waiting(_) => 4
    case Holding(_) => 3
    case Leaving(_) => 2
    case Cleaning => 1
  }

  function Ranks(s: State): (r: map<CallId, nat>)
    ensures r.Keys == s.calls.Keys
  {
    map id | id in s.calls :: Rank(s.calls[id].phase)
  }

  ghost function Work(s: State): nat {
    Sum(Ranks(s))
  }

  /** Every step of a call brings it nearer to its end and takes nothing back from another. */
  lemma StepShrinks(s: State, a: Action)
    requires Enabled(s, a) && !a.Enter?
    ensures Work(Apply(s, a)) < Work(s)
  {
    hide Sum, Obtained, Dropped, Cleaned;
    var id, t := a.id, Apply(s, a);
    SumRemove(Ranks(s), id);
    assert Ranks(t) - {id} == Ranks(s) - {id};
    if id in t.calls {
      SumRemove(Ranks(t), id);
    } else {
      assert Ranks(t) - {id} == Ranks(t);
    }
  }

  predicate NoneEnters(actions: seq<Action>) {
    forall i :: 0 <= i < |actions| ==> !actions[i].Enter?
  }

  /** Nothing but a new call could happen. */
  ghost predicate Stopped(s: State) {
    forall a :: Enabled(s, a) ==> a.Enter?
  }

  /** A call in each phase has its step, unless it waits for a lock whose holder has one. */
  lemma CallCanGoOn(s: State, id: CallId)
    requires Inv(s) && id in s.calls
    ensures match s.calls[id].phase
            case Entering => Enabled(s, Clone(id))
            case Waiting(g) => Enabled(s, Acquire(id)) || (g in s.holder && Enabled(s, Leave(s.holder[g])))
            case Holding(_) => Enabled(s, Leave(id))
            case Leaving(_) => Enabled(s, Drop(id))
            case Cleaning => Enabled(s, Clean(id))
  {
    hide Counted, Attached, Tended;
  }

  lemma StoppedIsEmpty(s: State)
    requires Inv(s) && Stopped(s)
    ensures s.calls == map[] && s.locks.gates == map[]
  {
    hide Counted, Attached, HeldByOne;
    if id :| id in s.calls {
      CallCanGoOn(s, id);
    }
    assert s.calls.Keys == {};
    assert s.locks.gates.Keys == {};
  }

  /** Whatever the calls do, in whatever order and wherever they are dropped: without new ones there are only so many
      steps, at most five for each call; and when no more can be made, every call has come to its end and no entry
      is left in the map. */
  lemma {:induction false} EveryCallEnds(s: State, actions: seq<Action>)
    requires Inv(s) && NoneEnters(actions) && After(s, actions).Some?
    ensures |actions| + Work(After(s, actions).value) <= Work(s)
    ensures Stopped(After(s, actions).value) ==>
              After(s, actions).value.calls == map[] && After(s, actions).value.locks.gates == map[]
    decreases |actions|
  {
    hide Inv, Apply, Enabled, Work, Stopped;
    if actions == [] {
      if Stopped(s) {
        StoppedIsEmpty(s);
      }
    } else {
      StepKeeps(s, actions[0]);
      StepShrinks(s, actions[0]);
      EveryCallEnds(Apply(s, actions[0]), actions[1..]);
    }
  }

  lemma AfterOne(s: State, a: Action, rest: seq<Action>)
    requires Enabled(s, a)
    ensures After(s, [a] + rest) == After(Apply(s, a), rest)
  {
    hide Enabled, Apply;
    assert ([a] + rest)[0] == a && ([a] + rest)[1..] == rest;
  }

  /** And no call is shut out: whoever has not got past the lock can get there, without being dropped, once the one
      that is past it now is done. */
  lemma CallGetsLock(s: State, id: CallId) returns (actions: seq<Action>)
    requires Inv(s) && id in s.calls && (s.calls[id].phase.Entering? || s.calls[id].phase.Waiting?)
    ensures NoneEnters(actions) && Leave(id) !in actions
    ensures After(s, actions).Some? && InSection(After(s, actions).value, id)
    decreases Rank(s.calls[id].phase), |s.holder|
  {
    hide Inv, Obtained, Dropped, Cleaned;
    CallCanGoOn(s, id);
    var a := if s.calls[id].phase.Entering? then Clone(id)
             else if Enabled(s, Acquire(id)) then Acquire(id) else Leave(s.holder[s.calls[id].phase.g]);
    StepKeeps(s, a);
    var rest: seq<Action> := [];
    if a != Acquire(id) {
      if a.Leave? {
        HolderIsAnother(s, id);
      }
      rest := CallGetsLock(Apply(s, a), id);
    }
    AfterOne(s, a, rest);
    actions := [a] + rest;
  }

  lemma HolderIsAnother(s: State, id: CallId)
    requires Inv(s) && id in s.calls && s.calls[id].phase.Waiting? && s.calls[id].phase.g in s.holder
    ensures var h := s.holder[s.calls[id].phase.g];
            h != id && h in s.calls && s.calls[h].phase == Holding(s.calls[id].phase.g)
  {
    hide Counted, Attached, Tended;
  }
}
