/** Coalescing of background work by key: one worker per key, one run per window, no event lost.
    A run is assumed to return; timers fire and tasks go on without delay. */
module Coalesce {
  import opened Wrappers
  import opened Totals

  type Key = nat

  // ---- the slot map under its lock ------------------------------------------------------------

  /** A call: a slot that is there is marked, one that is not is made and wants a worker. */
  function Called(slots: map<Key, bool>, key: Key): map<Key, bool> {
    slots[key := key in slots]
  }

  /** Before a run the mark is taken off. */
  function Taken(slots: map<Key, bool>, key: Key): map<Key, bool> {
    slots[key := false]
  }

  predicate Marked(slots: map<Key, bool>, key: Key) {
    key in slots && slots[key]
  }

  /** After a run: an unmarked slot goes, together with its worker. */
  function Released(slots: map<Key, bool>, key: Key): map<Key, bool> {
    if Marked(slots, key) then slots else slots - {key}
  }

  /** The shared map; each method is one critical section. */
  class Slots {
    var slots: map<Key, bool>

    constructor ()
      ensures slots == map[]
    {
      slots := map[];
    }

    method Call(key: Key) returns (spawn: bool)
      modifies this
      ensures slots == Called(old(slots), key) && spawn == (key !in old(slots))
    {
      if key in slots {
        slots := slots[key := true];
        return false;
      }
      slots := slots[key := false];
      return true;
    }

    method Take(key: Key)
      modifies this
      ensures slots == Taken(old(slots), key)
    {
      slots := slots[key := false];
    }

    method Release(key: Key) returns (again: bool)
      modifies this
      ensures slots == Released(old(slots), key) && again == Marked(old(slots), key)
    {
      if key in slots && slots[key] {
        return true;
      }
      slots := slots - {key};
      return false;
    }
  }

  // ---- workers, events and runs ---------------------------------------------------------------

  /** Where a worker is in its loop. */
  datatype Phase = Spawned | Sleeping(due: int) | Cleared | Running(start: int) | Ended(start: int)

  datatype Worker = Worker(key: Key, phase: Phase)

  /** A call at some time; `start` is the start of the first run after it. */
  datatype Event = Event(key: Key, time: int, start: Option<int>)

  datatype Span = Span(start: int, end: Option<int>)

  datatype State = State(now: int, slots: map<Key, bool>, workers: map<nat, Worker>, nextId: nat,
                         events: seq<Event>, runs: map<Key, seq<Span>>)

  /** The window, and the longest a run takes. */
  datatype Timing = Timing(window: nat, maxRun: nat)

  const INITIAL := State(0, map[], map[], 0, [], map[])

  function RunsOf(s: State, key: Key): seq<Span> {
    if key in s.runs then s.runs[key] else []
  }

  /** A run that starts now answers every event of its key that waits for one. */
  function Serve(events: seq<Event>, key: Key, now: int): (r: seq<Event>)
    ensures |r| == |events|
    ensures forall i :: 0 <= i < |events| ==>
              r[i] == if events[i].key == key && events[i].start.None? then events[i].(start := Some(now)) else events[i]
  {
    seq(|events|, i requires 0 <= i < |events| =>
      if events[i].key == key && events[i].start.None? then events[i].(start := Some(now)) else events[i])
  }

  function CloseLast(spans: seq<Span>, now: int): seq<Span> {
    if spans == [] then [] else spans[|spans| - 1 := spans[|spans| - 1].(end := Some(now))]
  }

  datatype Action =
    | Arrive(key: Key)
    | Sleep(id: nat)
    | Wake(id: nat)
    | Start(id: nat)
    | End(id: nat)
    | Check(id: nat)
    | Tick(dt: nat)

  function PhaseAt(s: State, id: nat): Option<Phase> {
    if id in s.workers then Some(s.workers[id].phase) else None
  }

  /** May time pass by `dt`? Not past a timer, not past the end of a run, and not while a task can go on. */
  predicate Patient(tm: Timing, s: State, id: nat, dt: nat)
    requires id in s.workers
  {
    match s.workers[id].phase
    case Sleeping(due) => s.now + dt <= due
    case Running(start) => s.now + dt <= start + tm.maxRun
    case _ => false
  }

  predicate Enabled(tm: Timing, s: State, a: Action) {
    match a
    case Arrive(_) => true
    case Sleep(id) => PhaseAt(s, id) == Some(Spawned)
    case Wake(id) => PhaseAt(s, id) == Some(Sleeping(s.now))
    case Start(id) => PhaseAt(s, id) == Some(Cleared)
    case End(id) => PhaseAt(s, id).Some? && PhaseAt(s, id).value.Running?
    case Check(id) => PhaseAt(s, id).Some? && PhaseAt(s, id).value.Ended?
    case Tick(dt) => forall id :: id in s.workers ==> Patient(tm, s, id, dt)
  }

  function At(s: State, id: nat, phase: Phase): State
    requires id in s.workers
  {
    s.(workers := s.workers[id := Worker(s.workers[id].key, phase)])
  }

  function Apply(tm: Timing, s: State, a: Action): State
    requires Enabled(tm, s, a)
  {
    match a
    case Arrive(key) =>
      var called := s.(slots := Called(s.slots, key), events := s.events + [Event(key, s.now, None)]);
      if key in s.slots then called
      else called.(workers := s.workers[s.nextId := Worker(key, Spawned)], nextId := s.nextId + 1)
    case Sleep(id) => At(s, id, Sleeping(s.now + tm.window))
    case Wake(id) => At(s, id, Cleared).(slots := Taken(s.slots, s.workers[id].key))
    case Start(id) =>
      var key := s.workers[id].key;
      At(s, id, Running(s.now)).(events := Serve(s.events, key, s.now),
                                 runs := s.runs[key := RunsOf(s, key) + [Span(s.now, None)]])
    case End(id) =>
      var key := s.workers[id].key;
      At(s, id, Ended(s.workers[id].phase.start)).(runs := s.runs[key := CloseLast(RunsOf(s, key), s.now)])
    case Check(id) =>
      var key := s.workers[id].key;
      var next := if Marked(s.slots, key) then At(s, id, Spawned) else s.(workers := s.workers - {id});
      next.(slots := Released(s.slots, key))
    case Tick(dt) => s.(now := s.now + dt)
  }

  // ---- what every reachable state keeps -------------------------------------------------------

  /** Runs of one key one after another, at least a window from start to start. */
  predicate Separated(tm: Timing, spans: seq<Span>) {
    forall i, j :: 0 <= i < j < |spans| ==>
      && spans[i].end.Some? && spans[i].start <= spans[i].end.value <= spans[j].start
      && spans[i].start + tm.window <= spans[j].start
  }

  /** All runs are over, and started at the latest at `latest`. */
  predicate Over(spans: seq<Span>, now: int, latest: int) {
    forall i :: 0 <= i < |spans| ==> spans[i].end.Some? && spans[i].start <= spans[i].end.value <= now && spans[i].start <= latest
  }

  predicate Waits(e: Event, key: Key) {
    e.key == key && e.start.None?
  }

  /** Every event that waits for a run of `key` came at `since` or later. */
  predicate WaitsSince(events: seq<Event>, key: Key, since: int) {
    forall i :: 0 <= i < |events| && Waits(events[i], key) ==> since <= events[i].time
  }

  predicate NobodyWaits(events: seq<Event>, key: Key) {
    forall i :: 0 <= i < |events| ==> !Waits(events[i], key)
  }

  predicate WorkerOk(tm: Timing, s: State, w: Worker) {
    var spans := RunsOf(s, w.key);
    && Separated(tm, spans)
    && match w.phase
       case Spawned => WaitsSince(s.events, w.key, s.now - tm.maxRun) && Over(spans, s.now, s.now)
       case Sleeping(due) =>
         && s.now <= due <= s.now + tm.window
         && WaitsSince(s.events, w.key, due - tm.window - tm.maxRun) && Over(spans, s.now, due - tm.window)
       case Cleared => WaitsSince(s.events, w.key, s.now - tm.window - tm.maxRun) && Over(spans, s.now, s.now - tm.window)
       case Running(start) =>
         && start <= s.now <= start + tm.maxRun && WaitsSince(s.events, w.key, start)
         && (Marked(s.slots, w.key) || NobodyWaits(s.events, w.key))
         && spans != [] && spans[|spans| - 1] == Span(start, None)
       case Ended(start) =>
         && start <= s.now <= start + tm.maxRun && WaitsSince(s.events, w.key, start)
         && (Marked(s.slots, w.key) || NobodyWaits(s.events, w.key))
         && Over(spans, s.now, start)
  }

  predicate IdleOk(tm: Timing, s: State, key: Key) {
    NobodyWaits(s.events, key) && Separated(tm, RunsOf(s, key)) && Over(RunsOf(s, key), s.now, s.now)
  }

  ghost predicate WorkersHaveSlots(s: State) {
    forall id :: id in s.workers ==> s.workers[id].key in s.slots && id < s.nextId
  }

  ghost predicate WorkersAreUnique(s: State) {
    forall a, b :: a in s.workers && b in s.workers && s.workers[a].key == s.workers[b].key ==> a == b
  }

  predicate HasWorker(s: State, key: Key) {
    exists id :: id in s.workers && s.workers[id].key == key
  }

  ghost predicate SlotsHaveWorkers(s: State) {
    forall key :: key in s.slots ==> HasWorker(s, key)
  }

  /** A slot exists exactly when one worker for its key is alive. */
  ghost predicate OneWorkerPerSlot(s: State) {
    WorkersHaveSlots(s) && WorkersAreUnique(s) && SlotsHaveWorkers(s)
  }

  /** Served events were served in time. */
  predicate InTime(tm: Timing, s: State) {
    forall i :: 0 <= i < |s.events| ==>
      && s.events[i].time <= s.now
      && (s.events[i].start.Some? ==>
            s.events[i].time <= s.events[i].start.value <= s.events[i].time + tm.window + tm.maxRun)
  }

  ghost predicate Inv(tm: Timing, s: State) {
    && OneWorkerPerSlot(s) && InTime(tm, s)
    && (forall id :: id in s.workers ==> WorkerOk(tm, s, s.workers[id]))
    && (forall key :: key !in s.slots ==> IdleOk(tm, s, key))
  }

  lemma InitialInv(tm: Timing)
    ensures Inv(tm, INITIAL)
  {
  }

  // ---- each step keeps the invariant ----------------------------------------------------------

  /** What a step that concerns one key leaves alone. */
  predicate OtherKeysSame(s: State, t: State, key: Key) {
    && t.now == s.now && |s.events| <= |t.events|
    && (forall i :: 0 <= i < |s.events| && s.events[i].key != key ==> t.events[i] == s.events[i])
    && (forall i :: |s.events| <= i < |t.events| ==> t.events[i].key == key)
    && (forall i :: 0 <= i < |s.events| ==> t.events[i].key == s.events[i].key)
  }

  lemma OtherWaits(s: State, t: State, key: Key, other: Key)
    requires OtherKeysSame(s, t, key) && other != key
    ensures NobodyWaits(t.events, other) == NobodyWaits(s.events, other)
    ensures forall since :: WaitsSince(t.events, other, since) == WaitsSince(s.events, other, since)
  {
    forall since ensures WaitsSince(t.events, other, since) == WaitsSince(s.events, other, since) {
      if WaitsSince(t.events, other, since) {
        forall i | 0 <= i < |s.events| && Waits(s.events[i], other) ensures since <= s.events[i].time {
          assert t.events[i] == s.events[i];
        }
      }
    }
    if NobodyWaits(t.events, other) {
      forall i | 0 <= i < |s.events| ensures !Waits(s.events[i], other) {
        assert s.events[i].key != key ==> t.events[i] == s.events[i];
      }
    }
  }

  /** A worker of another key sees no difference. */
  lemma OtherWorkerOk(tm: Timing, s: State, t: State, key: Key, w: Worker)
    requires OtherKeysSame(s, t, key) && w.key != key && WorkerOk(tm, s, w)
    requires RunsOf(t, w.key) == RunsOf(s, w.key) && Marked(t.slots, w.key) == Marked(s.slots, w.key)
    ensures WorkerOk(tm, t, w)
  {
    hide WaitsSince, NobodyWaits, Over, Separated;
    OtherWaits(s, t, key, w.key);
  }

  lemma OtherIdleOk(tm: Timing, s: State, t: State, key: Key, other: Key)
    requires OtherKeysSame(s, t, key) && other != key && IdleOk(tm, s, other)
    requires RunsOf(t, other) == RunsOf(s, other)
    ensures IdleOk(tm, t, other)
  {
    hide WaitsSince, NobodyWaits, Over, Separated;
    OtherWaits(s, t, key, other);
  }

  /** A step of one key: everything hangs on the worker of that key. */
  lemma KeyStep(tm: Timing, s: State, t: State, key: Key)
    requires Inv(tm, s) && OtherKeysSame(s, t, key) && OneWorkerPerSlot(t) && InTime(tm, t)
    requires forall other :: other != key ==> RunsOf(t, other) == RunsOf(s, other)
    requires forall other :: other != key ==> Marked(t.slots, other) == Marked(s.slots, other)
    requires forall other :: other != key ==> (other in t.slots <==> other in s.slots)
    requires forall id :: id in t.workers && t.workers[id].key != key ==> id in s.workers && s.workers[id] == t.workers[id]
    requires forall id :: id in t.workers && t.workers[id].key == key ==> WorkerOk(tm, t, t.workers[id])
    requires key !in t.slots ==> IdleOk(tm, t, key)
    ensures Inv(tm, t)
  {
    hide WorkerOk, IdleOk, OneWorkerPerSlot, InTime, RunsOf, Marked, OtherKeysSame;
    forall id | id in t.workers ensures WorkerOk(tm, t, t.workers[id]) {
      if t.workers[id].key != key {
        OtherWorkerOk(tm, s, t, key, t.workers[id]);
      }
    }
    forall other | other !in t.slots ensures IdleOk(tm, t, other) {
      if other != key {
        OtherIdleOk(tm, s, t, key, other);
      }
    }
  }

  lemma WaitsAdded(events: seq<Event>, e: Event, since: int)
    requires WaitsSince(events, e.key, since) && since <= e.time
    ensures WaitsSince(events + [e], e.key, since)
  {
  }

  lemma ArriveAtWorker(tm: Timing, s: State, t: State, w: Worker)
    requires w.key in s.slots && WorkerOk(tm, s, w) && t == Apply(tm, s, Arrive(w.key))
    ensures WorkerOk(tm, t, w)
  {
    hide WaitsSince, NobodyWaits, Over, Separated;
    var e := Event(w.key, s.now, None);
    forall since | WaitsSince(s.events, w.key, since) && since <= s.now ensures WaitsSince(t.events, w.key, since) {
      WaitsAdded(s.events, e, since);
    }
  }

  lemma ArriveIdle(tm: Timing, s: State, t: State, key: Key)
    requires IdleOk(tm, s, key) && key !in s.slots && t == Apply(tm, s, Arrive(key))
    ensures WorkerOk(tm, t, Worker(key, Spawned))
  {
    hide Over, Separated;
  }

  lemma ArriveWorkers(tm: Timing, s: State, key: Key)
    requires OneWorkerPerSlot(s)
    ensures OneWorkerPerSlot(Apply(tm, s, Arrive(key)))
  {
    var t := Apply(tm, s, Arrive(key));
    ArriveUnique(tm, s, key);
    forall k | k in t.slots ensures HasWorker(t, k) {
      if k in s.slots {
        var id :| id in s.workers && s.workers[id].key == k;
        assert id in t.workers && t.workers[id].key == k;
      } else {
        assert s.nextId in t.workers;
      }
    }
  }

  lemma ArriveUnique(tm: Timing, s: State, key: Key)
    requires WorkersHaveSlots(s) && WorkersAreUnique(s)
    ensures WorkersHaveSlots(Apply(tm, s, Arrive(key))) && WorkersAreUnique(Apply(tm, s, Arrive(key)))
  {
  }

  lemma ArriveKeeps(tm: Timing, s: State, key: Key)
    requires Inv(tm, s)
    ensures Inv(tm, Apply(tm, s, Arrive(key)))
  {
    hide WorkerOk, IdleOk, OneWorkerPerSlot;
    var t := Apply(tm, s, Arrive(key));
    ArriveWorkers(tm, s, key);
    if key !in s.slots {
      ArriveIdle(tm, s, t, key);
      NewWorker(s);
    }
    forall id | id in t.workers && t.workers[id].key == key ensures WorkerOk(tm, t, t.workers[id]) {
      WorkerHasSlot(s, id);
      if key in s.slots {
        ArriveAtWorker(tm, s, t, s.workers[id]);
      }
    }
    KeyStep(tm, s, t, key);
  }

  lemma NewWorker(s: State)
    requires OneWorkerPerSlot(s)
    ensures s.nextId !in s.workers
  {
  }

  lemma WorkerHasSlot(s: State, id: nat)
    requires OneWorkerPerSlot(s)
    ensures id in s.workers ==> s.workers[id].key in s.slots
  {
  }

  lemma KeptWorker(s: State, t: State, key: Key)
    requires HasWorker(s, key) && forall id :: id in s.workers && s.workers[id].key == key ==> id in t.workers && t.workers[id].key == key
    ensures HasWorker(t, key)
  {
    var id :| id in s.workers && s.workers[id].key == key;
    assert id in t.workers && t.workers[id].key == key;
  }

  /** A worker going on in its loop stays the one worker of its key. */
  lemma PhaseWorkers(s: State, t: State, id: nat, phase: Phase)
    requires OneWorkerPerSlot(s) && id in s.workers && t.slots.Keys == s.slots.Keys && t.nextId == s.nextId
    requires t.workers == s.workers[id := Worker(s.workers[id].key, phase)]
    ensures OneWorkerPerSlot(t)
  {
    hide HasWorker, WorkersAreUnique;
    PhaseUnique(s, t, id, phase);
    forall key | key in t.slots ensures HasWorker(t, key) {
      assert key in s.slots;
      KeptWorker(s, t, key);
    }
  }

  lemma PhaseUnique(s: State, t: State, id: nat, phase: Phase)
    requires WorkersAreUnique(s) && id in s.workers && t.workers == s.workers[id := Worker(s.workers[id].key, phase)]
    ensures WorkersAreUnique(t)
  {
    forall a, b | a in t.workers && b in t.workers && t.workers[a].key == t.workers[b].key ensures a == b {
      assert a in s.workers && b in s.workers && s.workers[a].key == s.workers[b].key;
    }
  }

  lemma SameWorker(s: State, a: nat, b: nat)
    requires OneWorkerPerSlot(s) && a in s.workers && b in s.workers && s.workers[a].key == s.workers[b].key
    ensures a == b
  {
  }

  /** A step of the worker `id` to `phase` keeps the invariant when the worker itself is fine there. */
  lemma PhaseStep(tm: Timing, s: State, t: State, id: nat, phase: Phase)
    requires Inv(tm, s) && id in s.workers && t.nextId == s.nextId && t.slots.Keys == s.slots.Keys
    requires t.workers == s.workers[id := Worker(s.workers[id].key, phase)]
    requires OtherKeysSame(s, t, s.workers[id].key) && InTime(tm, t)
    requires forall other :: other != s.workers[id].key ==> RunsOf(t, other) == RunsOf(s, other)
    requires forall other :: other != s.workers[id].key ==> Marked(t.slots, other) == Marked(s.slots, other)
    requires WorkerOk(tm, t, Worker(s.workers[id].key, phase))
    ensures Inv(tm, t)
  {
    hide WorkerOk, IdleOk, OneWorkerPerSlot, InTime, RunsOf, Marked, OtherKeysSame;
    PhaseWorkers(s, t, id, phase);
    WorkerHasSlot(s, id);
    forall i | i in t.workers && t.workers[i].key == s.workers[id].key ensures WorkerOk(tm, t, t.workers[i]) {
      if i != id {
        SameWorker(s, i, id);
      }
    }
    KeyStep(tm, s, t, s.workers[id].key);
  }

  lemma SleepKeeps(tm: Timing, s: State, id: nat)
    requires Inv(tm, s) && Enabled(tm, s, Sleep(id))
    ensures Inv(tm, Apply(tm, s, Sleep(id)))
  {
    hide OneWorkerPerSlot, WaitsSince, NobodyWaits, Over, Separated, IdleOk;
    PhaseStep(tm, s, Apply(tm, s, Sleep(id)), id, Sleeping(s.now + tm.window));
  }

  lemma WakeKeeps(tm: Timing, s: State, id: nat)
    requires Inv(tm, s) && Enabled(tm, s, Wake(id))
    ensures Inv(tm, Apply(tm, s, Wake(id)))
  {
    hide OneWorkerPerSlot, WaitsSince, NobodyWaits, Over, Separated, IdleOk;
    WorkerHasSlot(s, id);
    PhaseStep(tm, s, Apply(tm, s, Wake(id)), id, Cleared);
  }

  /** A run that starts answers everybody who waits, and in time. */
  lemma ServedInTime(tm: Timing, s: State, key: Key)
    requires InTime(tm, s) && WaitsSince(s.events, key, s.now - tm.window - tm.maxRun)
    ensures InTime(tm, s.(events := Serve(s.events, key, s.now)))
    ensures NobodyWaits(Serve(s.events, key, s.now), key)
  {
  }

  lemma NextSpan(tm: Timing, spans: seq<Span>, now: int)
    requires Separated(tm, spans) && Over(spans, now, now - tm.window)
    ensures Separated(tm, spans + [Span(now, None)])
  {
  }

  lemma StartKeeps(tm: Timing, s: State, id: nat)
    requires Inv(tm, s) && Enabled(tm, s, Start(id))
    ensures Inv(tm, Apply(tm, s, Start(id)))
  {
    hide OneWorkerPerSlot, WaitsSince, NobodyWaits, Over, Separated, IdleOk, InTime;
    var key := s.workers[id].key;
    var t := Apply(tm, s, Start(id));
    assert WorkerOk(tm, s, s.workers[id]);
    ServedInTime(tm, s, key);
    SameInTime(tm, s.(events := Serve(s.events, key, s.now)), t);
    NextSpan(tm, RunsOf(s, key), s.now);
    NobodySince(t.events, key, s.now);
    PhaseStep(tm, s, t, id, Running(s.now));
  }

  lemma SameInTime(tm: Timing, s: State, t: State)
    requires InTime(tm, s) && t.events == s.events && t.now == s.now
    ensures InTime(tm, t)
  {
  }

  lemma NobodySince(events: seq<Event>, key: Key, since: int)
    requires NobodyWaits(events, key)
    ensures WaitsSince(events, key, since)
  {
  }

  lemma ClosedSpan(tm: Timing, spans: seq<Span>, start: int, now: int)
    requires Separated(tm, spans) && spans != [] && spans[|spans| - 1] == Span(start, None) && start <= now
    ensures Separated(tm, CloseLast(spans, now)) && Over(CloseLast(spans, now), now, start)
  {
    var n := |spans| - 1;
    forall i | 0 <= i < n ensures spans[i].end.Some? && spans[i].end.value <= start && spans[i].start + tm.window <= start {
      assert spans[i].start <= spans[i].end.value <= spans[n].start;
    }
  }

  lemma EndKeeps(tm: Timing, s: State, id: nat)
    requires Inv(tm, s) && Enabled(tm, s, End(id))
    ensures Inv(tm, Apply(tm, s, End(id)))
  {
    hide OneWorkerPerSlot, WaitsSince, NobodyWaits, Over, Separated, IdleOk, CloseLast;
    var key := s.workers[id].key;
    var start := s.workers[id].phase.start;
    assert WorkerOk(tm, s, s.workers[id]);
    ClosedSpan(tm, RunsOf(s, key), start, s.now);
    PhaseStep(tm, s, Apply(tm, s, End(id)), id, Ended(start));
  }

  lemma WeakerSince(events: seq<Event>, key: Key, since: int, earlier: int)
    requires WaitsSince(events, key, since) && earlier <= since
    ensures WaitsSince(events, key, earlier)
  {
  }

  lemma WeakerOver(spans: seq<Span>, now: int, latest: int, later: int)
    requires Over(spans, now, latest) && latest <= later
    ensures Over(spans, now, later)
  {
  }

  lemma GoneWorkers(s: State, t: State, id: nat)
    requires OneWorkerPerSlot(s) && id in s.workers && t.workers == s.workers - {id} && t.slots == s.slots - {s.workers[id].key}
    requires t.nextId == s.nextId
    ensures OneWorkerPerSlot(t)
  {
    hide HasWorker, WorkersAreUnique;
    GoneUnique(s, t, id);
    forall key | key in t.slots ensures HasWorker(t, key) {
      assert key in s.slots;
      KeptWorker(s, t, key);
    }
  }

  lemma GoneUnique(s: State, t: State, id: nat)
    requires WorkersHaveSlots(s) && WorkersAreUnique(s) && id in s.workers && t.workers == s.workers - {id}
    requires t.slots == s.slots - {s.workers[id].key} && t.nextId == s.nextId
    ensures WorkersHaveSlots(t) && WorkersAreUnique(t)
  {
    forall i | i in t.workers ensures t.workers[i].key in t.slots && i < t.nextId {
      assert i in s.workers && t.workers[i] == s.workers[i];
    }
  }

  lemma CheckKeeps(tm: Timing, s: State, id: nat)
    requires Inv(tm, s) && Enabled(tm, s, Check(id))
    ensures Inv(tm, Apply(tm, s, Check(id)))
  {
    hide OneWorkerPerSlot, WaitsSince, NobodyWaits, Over, Separated;
    var key := s.workers[id].key;
    var start := s.workers[id].phase.start;
    var t := Apply(tm, s, Check(id));
    assert WorkerOk(tm, s, s.workers[id]);
    WeakerOver(RunsOf(s, key), s.now, start, s.now);
    if Marked(s.slots, key) {
      WeakerSince(s.events, key, start, s.now - tm.maxRun);
      PhaseStep(tm, s, t, id, Spawned);
    } else {
      GoneWorkers(s, t, id);
      forall i | i in t.workers ensures t.workers[i].key != key {
        if t.workers[i].key == key {
          SameWorker(s, i, id);
        }
      }
      KeyStep(tm, s, t, key);
    }
  }

  lemma LaterOver(spans: seq<Span>, now: int, latest: int, later: int)
    requires Over(spans, now, latest) && now <= later
    ensures Over(spans, later, latest)
  {
  }

  lemma TickWorker(tm: Timing, s: State, dt: nat, id: nat)
    requires id in s.workers && WorkerOk(tm, s, s.workers[id]) && Patient(tm, s, id, dt)
    ensures WorkerOk(tm, s.(now := s.now + dt), s.workers[id])
  {
    hide WaitsSince, NobodyWaits, Over, Separated;
    var w := s.workers[id];
    if w.phase.Sleeping? {
      LaterOver(RunsOf(s, w.key), s.now, w.phase.due - tm.window, s.now + dt);
    }
  }

  lemma TickKeeps(tm: Timing, s: State, dt: nat)
    requires Inv(tm, s) && Enabled(tm, s, Tick(dt))
    ensures Inv(tm, Apply(tm, s, Tick(dt)))
  {
    hide WorkerOk, Patient, Over, Separated, NobodyWaits, OneWorkerPerSlot;
    var t := s.(now := s.now + dt);
    forall id | id in t.workers ensures WorkerOk(tm, t, t.workers[id]) {
      TickWorker(tm, s, dt, id);
    }
    forall key | key !in t.slots ensures IdleOk(tm, t, key) {
      LaterOver(RunsOf(s, key), s.now, s.now, t.now);
      WeakerOver(RunsOf(s, key), t.now, s.now, t.now);
    }
    TickWorkers(s, t);
  }

  lemma TickWorkers(s: State, t: State)
    requires OneWorkerPerSlot(s) && t.workers == s.workers && t.slots == s.slots && t.nextId == s.nextId
    ensures OneWorkerPerSlot(t)
  {
  }

  lemma StepKeeps(tm: Timing, s: State, a: Action)
    requires Inv(tm, s) && Enabled(tm, s, a)
    ensures Inv(tm, Apply(tm, s, a))
  {
    hide Inv, Enabled, Apply;
    match a
    case Arrive(key) => ArriveKeeps(tm, s, key);
    case Sleep(id) => SleepKeeps(tm, s, id);
    case Wake(id) => WakeKeeps(tm, s, id);
    case Start(id) => StartKeeps(tm, s, id);
    case End(id) => EndKeeps(tm, s, id);
    case Check(id) => CheckKeeps(tm, s, id);
    case Tick(dt) => TickKeeps(tm, s, dt);
  }

  // ---- all traces -----------------------------------------------------------------------------

  /** The state after some actions; None when one of them could not happen. */
  ghost function After(tm: Timing, s: State, actions: seq<Action>): Option<State>
    decreases |actions|
  {
    if actions == [] then Some(s)
    else if Enabled(tm, s, actions[0]) then After(tm, Apply(tm, s, actions[0]), actions[1..])
    else None
  }

  ghost function Trace(tm: Timing, actions: seq<Action>): Option<State> {
    After(tm, INITIAL, actions)
  }

  lemma {:induction false} AfterKeeps(tm: Timing, s: State, actions: seq<Action>)
    requires Inv(tm, s)
    ensures After(tm, s, actions).Some? ==> Inv(tm, After(tm, s, actions).value)
    decreases |actions|
  {
    hide Inv, Enabled, Apply;
    if actions != [] && Enabled(tm, s, actions[0]) {
      StepKeeps(tm, s, actions[0]);
      AfterKeeps(tm, Apply(tm, s, actions[0]), actions[1..]);
    }
  }

  /** A worker that will start a run: it has not started one yet, or it was asked for another one. */
  predicate Obliged(s: State, w: Worker) {
    w.phase.Spawned? || w.phase.Sleeping? || w.phase.Cleared? || Marked(s.slots, w.key)
  }

  /** The latest start of a run that answers an event. */
  function Deadline(tm: Timing, e: Event): int {
    e.time + tm.window + tm.maxRun
  }

  /** Coalescing loses no event. In every state any interleaving can reach: a slot exists exactly when one worker of
      its key is alive; runs of one key never overlap and start at least a window apart; an answered event was
      answered by a run that started after it and no later than its deadline; an event that still waits has a
      worker that owes it a run, and its deadline has not passed. */
  lemma NoEventIsLost(tm: Timing, actions: seq<Action>)
    requires Trace(tm, actions).Some?
    ensures var s := Trace(tm, actions).value;
            && OneWorkerPerSlot(s)
            && (forall key :: Separated(tm, RunsOf(s, key)))
            && (forall i :: 0 <= i < |s.events| && s.events[i].start.Some? ==>
                  s.events[i].time <= s.events[i].start.value <= Deadline(tm, s.events[i]))
            && (forall i :: 0 <= i < |s.events| && s.events[i].start.None? ==>
                  && s.now <= Deadline(tm, s.events[i])
                  && exists id :: id in s.workers && s.workers[id].key == s.events[i].key && Obliged(s, s.workers[id]))
  {
    hide After, Over, Inv;
    InitialInv(tm);
    AfterKeeps(tm, INITIAL, actions);
    var s := Trace(tm, actions).value;
    ServedInDeadline(tm, s);
    forall key ensures Separated(tm, RunsOf(s, key)) {
      KeySeparated(tm, s, key);
    }
    forall i | 0 <= i < |s.events| && s.events[i].start.None?
      ensures s.now <= Deadline(tm, s.events[i])
      ensures exists id :: id in s.workers && s.workers[id].key == s.events[i].key && Obliged(s, s.workers[id])
    {
      var id := WaitingHasWorker(tm, s, i);
    }
  }

  lemma ServedInDeadline(tm: Timing, s: State)
    requires Inv(tm, s)
    ensures OneWorkerPerSlot(s)
    ensures forall i :: 0 <= i < |s.events| && s.events[i].start.Some? ==>
              s.events[i].time <= s.events[i].start.value <= Deadline(tm, s.events[i])
  {
    hide OneWorkerPerSlot, WorkerOk, IdleOk;
  }

  lemma KeySeparated(tm: Timing, s: State, key: Key)
    requires Inv(tm, s)
    ensures Separated(tm, RunsOf(s, key))
  {
    hide Separated, Over, WaitsSince, NobodyWaits, InTime;
    if key in s.slots {
      var id :| id in s.workers && s.workers[id].key == key;
      assert WorkerOk(tm, s, s.workers[id]);
    } else {
      assert IdleOk(tm, s, key);
    }
  }

  lemma WaitingHasWorker(tm: Timing, s: State, i: nat) returns (id: nat)
    requires Inv(tm, s) && i < |s.events| && s.events[i].start.None?
    ensures id in s.workers && s.workers[id].key == s.events[i].key && Obliged(s, s.workers[id])
    ensures s.now <= Deadline(tm, s.events[i])
  {
    hide Separated, Over, InTime;
    var key := s.events[i].key;
    assert Waits(s.events[i], key);
    assert key in s.slots by {
      assert key !in s.slots ==> IdleOk(tm, s, key);
    }
    id :| id in s.workers && s.workers[id].key == key;
    assert WorkerOk(tm, s, s.workers[id]);
  }

  // ---- every event is answered ----------------------------------------------------------------

  /** How many steps a worker has before it when no event comes; a mark after the run began means another round. */
  function Rank(s: State, w: Worker): nat {
    match w.phase
    case Spawned => 5
    case Sleeping(_) => 4
    case Cleared => if Marked(s.slots, w.key) then 8 else 3
    case Running(_) => if Marked(s.slots, w.key) then 7 else 2
    case Ended(_) => if Marked(s.slots, w.key) then 6 else 1
  }

  function Ranks(s: State): (r: map<nat, nat>)
    ensures r.Keys == s.workers.Keys
  {
    map id | id in s.workers :: Rank(s, s.workers[id])
  }

  ghost function Work(s: State): nat {
    Sum(Ranks(s))
  }

  predicate OfWorker(a: Action) {
    !a.Arrive? && !a.Tick?
  }

  /** Every step of a worker brings it nearer to its end and changes nothing for the others. */
  lemma StepShrinks(tm: Timing, s: State, a: Action)
    requires Inv(tm, s) && Enabled(tm, s, a) && OfWorker(a)
    ensures Work(Apply(tm, s, a)) < Work(s)
  {
    hide Sum, InTime, WorkerOk, IdleOk, SlotsHaveWorkers, WorkersHaveSlots, RunsOf, Serve, CloseLast;
    var id, t := a.id, Apply(tm, s, a);
    SumRemove(Ranks(s), id);
    OthersKeepRank(tm, s, a);
    if id in t.workers {
      SumRemove(Ranks(t), id);
    } else {
      assert Ranks(t) - {id} == Ranks(t);
    }
  }

  /** A step of one worker leaves the marks of other keys and the other workers alone. */
  lemma OthersStay(tm: Timing, s: State, a: Action)
    requires Enabled(tm, s, a) && OfWorker(a)
    ensures a.id in s.workers && Apply(tm, s, a).workers - {a.id} == s.workers - {a.id}
    ensures forall key :: key != s.workers[a.id].key ==> Marked(Apply(tm, s, a).slots, key) == Marked(s.slots, key)
  {
    hide RunsOf, Serve, CloseLast;
  }

  lemma OthersKeepRank(tm: Timing, s: State, a: Action)
    requires WorkersAreUnique(s) && Enabled(tm, s, a) && OfWorker(a)
    ensures Ranks(Apply(tm, s, a)) - {a.id} == Ranks(s) - {a.id}
  {
    hide Enabled, Apply, Marked;
    OthersStay(tm, s, a);
    var t := Apply(tm, s, a);
    forall id | id in (s.workers - {a.id}).Keys ensures id in t.workers && Rank(t, t.workers[id]) == Rank(s, s.workers[id]) {
      assert (t.workers - {a.id})[id] == (s.workers - {a.id})[id];
      assert s.workers[id].key != s.workers[a.id].key;
    }
    forall id | id in t.workers && id != a.id ensures id in s.workers {
      assert id in t.workers - {a.id};
    }
  }

  lemma TickKeepsWork(s: State, dt: nat)
    ensures Work(s.(now := s.now + dt)) == Work(s)
  {
    assert Ranks(s.(now := s.now + dt)) == Ranks(s);
  }

  predicate NoneArrives(actions: seq<Action>) {
    forall i :: 0 <= i < |actions| ==> !actions[i].Arrive?
  }

  function WorkerSteps(actions: seq<Action>): nat {
    if actions == [] then 0 else (if OfWorker(actions[0]) then 1 else 0) + WorkerSteps(actions[1..])
  }

  /** When no event comes, the workers together make only so many steps, at most eight each, whatever the order. */
  lemma {:induction false} WorkIsBounded(tm: Timing, s: State, actions: seq<Action>)
    requires Inv(tm, s) && NoneArrives(actions) && After(tm, s, actions).Some?
    ensures WorkerSteps(actions) + Work(After(tm, s, actions).value) <= Work(s)
    decreases |actions|
  {
    hide Inv, Apply, Enabled, Work;
    if actions != [] {
      var a := actions[0];
      StepKeeps(tm, s, a);
      if OfWorker(a) {
        StepShrinks(tm, s, a);
      } else {
        TickApplies(tm, s, a);
      }
      WorkIsBounded(tm, Apply(tm, s, a), actions[1..]);
    }
  }

  lemma TickApplies(tm: Timing, s: State, a: Action)
    requires Enabled(tm, s, a) && a.Tick?
    ensures Work(Apply(tm, s, a)) == Work(s) && Apply(tm, s, a) == s.(now := s.now + a.dt)
  {
    hide Work, Enabled;
    TickKeepsWork(s, a.dt);
  }

  /** Nothing is ever stuck: some worker can go on, or time can pass. */
  lemma NeverStuck(tm: Timing, s: State) returns (a: Action)
    requires Inv(tm, s)
    ensures Enabled(tm, s, a) && (OfWorker(a) || a == Tick(1))
  {
    hide Separated, Over, InTime, WaitsSince, NobodyWaits, OneWorkerPerSlot;
    a := Tick(1);
    if !Enabled(tm, s, a) {
      var id :| id in s.workers && !Patient(tm, s, id, 1);
      assert WorkerOk(tm, s, s.workers[id]);
      a := match s.workers[id].phase
        case Spawned => Sleep(id)
        case Sleeping(_) => Wake(id)
        case Cleared => Start(id)
        case Running(_) => End(id)
        case Ended(_) => Check(id);
    }
  }

  /** An event stays the same event. */
  lemma EventStays(tm: Timing, s: State, a: Action, i: nat)
    requires Enabled(tm, s, a) && i < |s.events|
    ensures var t := Apply(tm, s, a);
            && i < |t.events| && t.events[i].key == s.events[i].key && t.events[i].time == s.events[i].time
  {
    hide Enabled;
  }

  lemma AfterOne(tm: Timing, s: State, a: Action, rest: seq<Action>)
    requires Enabled(tm, s, a)
    ensures After(tm, s, [a] + rest) == After(tm, Apply(tm, s, a), rest)
  {
    hide Enabled, Apply;
    assert ([a] + rest)[0] == a && ([a] + rest)[1..] == rest;
  }

  /** From every state that can be reached the worker steps and the clock alone lead to the run that answers a given
      event, and that run starts before the deadline: the work left and the time to the deadline only shrink. */
  lemma EventIsAnswered(tm: Timing, s: State, i: nat) returns (actions: seq<Action>)
    requires Inv(tm, s) && i < |s.events|
    ensures NoneArrives(actions) && After(tm, s, actions).Some? && i < |After(tm, s, actions).value.events|
    ensures After(tm, s, actions).value.events[i].time == s.events[i].time
    ensures var start := After(tm, s, actions).value.events[i].start;
            start.Some? && s.events[i].time <= start.value <= Deadline(tm, s.events[i])
    decreases Work(s), Deadline(tm, s.events[i]) - s.now
  {
    hide Inv, Apply, Enabled, Work;
    if s.events[i].start.Some? {
      ServedInDeadline(tm, s);
      actions := [];
    } else {
      var a := NeverStuck(tm, s);
      StepKeeps(tm, s, a);
      EventStays(tm, s, a, i);
      if OfWorker(a) {
        StepShrinks(tm, s, a);
      } else {
        TickApplies(tm, s, a);
        var _ := WaitingHasWorker(tm, Apply(tm, s, a), i);
      }
      var rest := EventIsAnswered(tm, Apply(tm, s, a), i);
      AfterOne(tm, s, a, rest);
      actions := [a] + rest;
    }
  }
}
