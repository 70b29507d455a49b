/** The register under concurrency: calls of OnChange, Lock, Delete, Set, Enqueue and Unlock as threads
    whose atomic steps are the critical sections, in any interleaving.

    Three locks of the source appear. stateMapLock and keyMapLock each guard one step of the model.
    mutateMu, the mutex of an objectSetState which DeepCopy shares, is held across steps; who holds it
    can be read off the program counters, so it is not stored. */
module LockProtocol {
  import opened Prelude
  import LockIndex

  type Ref = nat
  type Tid = nat

  /** A pointer to an ObjectSet: two parses of one manifest have different ids. */
  datatype ObjectSet = ObjectSet(id: nat, groups: Objects)

  /** An objectSetState on the heap. `mu` identifies its mutateMu. */
  datatype State = State(key: Key, objectSet: Option<ObjectSet>, locked: bool, mu: Ref)

  datatype SetArgs = SetArgs(objectSet: Option<ObjectSet>, locked: Option<bool>, force: bool)

  /** What a thread does next. */
  datatype Pc =
    | Returned
    // handler.OnChange
    | ChangeStart(key: Key)
    | ChangeUnlock(key: Key, s: Ref)
    | ChangeCheck(key: Key, s: Ref)
    | ChangeApply(key: Key, s: Ref)
    // Lock, which OnChange defers
    | LockGet(key: Key)
    | LockAcquire(key: Key, s: Ref)
    | LockRead(key: Key, s: Ref)
    | LockEnter(key: Key, s: Ref, os: ObjectSet)
    | LockRelease(key: Key, s: Ref)
    // Delete
    | DeleteGet(key: Key)
    | DeleteMap(key: Key, s: Ref)
    | DeleteAcquire(key: Key, s: Ref)
    | DeleteNil(key: Key, s: Ref)
    | DeleteRelease(key: Key, s: Ref)
    | DeleteEmit(key: Key, s: Ref)
    | DeleteUnlock(key: Key)
    // Set and Enqueue
    | SetGet(key: Key, args: SetArgs)
    | SetCopy(key: Key, original: Option<Ref>, args: SetArgs)
    | SetCompare(key: Key, original: Option<Ref>, s: Ref, args: SetArgs)
    | SetStore(key: Key, s: Ref)
    // Unlock
    | UnlockStart(key: Key)
  {
    predicate InChange() { ChangeStart? || ChangeUnlock? || ChangeCheck? || ChangeApply? }

    predicate InLock() { LockGet? || LockAcquire? || LockRead? || LockEnter? || LockRelease? }

    predicate InDelete() {
      DeleteGet? || DeleteMap? || DeleteAcquire? || DeleteNil? || DeleteRelease? || DeleteEmit? || DeleteUnlock?
    }

    predicate Reads() { LockRead? || LockEnter? || LockRelease? }

    predicate Writes() { DeleteNil? || DeleteRelease? }

    /** A call that has not taken a step yet. */
    predicate Starting() {
      ChangeStart? || LockGet? || DeleteGet? || SetGet? || UnlockStart?
    }

    /** Lock(k) has fetched a state and has not finished with it. */
    predicate LockWindow(k: Key) {
      (LockAcquire? || LockRead? || LockEnter?) && key == k
    }

    /** Delete(k) has fetched a state and not yet dropped it from the map. */
    predicate DeleteWindow(k: Key) { DeleteMap? && key == k }

    /** Delete(k) has dropped the state and has not yet cleared its object set. */
    predicate Dooms(k: Key, ref: Ref) {
      (DeleteAcquire? || DeleteNil?) && key == k && s == ref
    }

    /** Delete(k) will still remove the index entries of k, and k has left the map or never was there. */
    predicate WillUnlock(k: Key) {
      (DeleteAcquire? || DeleteNil? || DeleteRelease? || DeleteEmit? || DeleteUnlock?) && key == k
    }

    /** OnChange(k) is under way: one worker of the queue holds k. */
    predicate Handles(k: Key) {
      (ChangeUnlock? || ChangeCheck? || ChangeApply? || LockGet? || LockAcquire? || LockRead? || LockEnter?
       || LockRelease?) && key == k
    }

    /** OnChange(k) is between its Unlock and the end of its deferred Lock. */
    predicate Unprotected(k: Key) {
      (ChangeCheck? || ChangeApply? || LockGet? || LockAcquire? || LockRead? || LockEnter?) && key == k
    }
  }

  datatype Sys = Sys(
    threads: map<Tid, Pc>,
    states: map<Key, Ref>,
    heap: map<Ref, State>,
    emitted: set<Ref>,
    idx: LockIndex.Index)

  /** What the environment decides: the event delivered or the address allocated, and the kinds that
      are entered before a watch fails. */
  datatype Choice = Choice(ref: Ref, written: set<Gvk>)

  predicate MuRead(sys: Sys, mu: Ref) {
    exists t | t in sys.threads ::
      sys.threads[t].Reads() && sys.threads[t].s in sys.heap && sys.heap[sys.threads[t].s].mu == mu
  }

  predicate MuWritten(sys: Sys, mu: Ref) {
    exists t | t in sys.threads ::
      sys.threads[t].Writes() && sys.threads[t].s in sys.heap && sys.heap[sys.threads[t].s].mu == mu
  }

  function Override<T>(given: Option<T>, default: T): T {
    if given.Some? then given.value else default
  }

  /** The state that setState builds, from scratch or from a copy that shares mutateMu. */
  function Built(sys: Sys, key: Key, original: Option<Ref>, args: SetArgs, at: Ref): State
    requires original.Some? ==> original.value in sys.heap
  {
    if original.None? then
      State(key, args.objectSet, Override(args.locked, false), at)
    else
      var o := sys.heap[original.value];
      State(key, if args.objectSet.Some? then args.objectSet else o.objectSet, Override(args.locked, o.locked), o.mu)
  }

  predicate Changed(sys: Sys, original: Option<Ref>, s: Ref, args: SetArgs)
    requires s in sys.heap && (original.Some? ==> original.value in sys.heap)
  {
    || args.force
    || original.None?
    || sys.heap[s].objectSet != sys.heap[original.value].objectSet
    || sys.heap[s].locked != sys.heap[original.value].locked
  }

  ghost predicate PcOk(heap: map<Ref, State>, pc: Pc) {
    match pc
    case ChangeUnlock(k, s) => s in heap && heap[s].key == k
    case ChangeCheck(k, s) => s in heap && heap[s].key == k
    case ChangeApply(k, s) => s in heap && heap[s].key == k
    case LockAcquire(k, s) => s in heap && heap[s].key == k
    case LockRead(k, s) => s in heap && heap[s].key == k
    case LockEnter(k, s, os) => s in heap && heap[s].key == k && heap[s].objectSet == Some(os)
    case LockRelease(k, s) => s in heap && heap[s].key == k
    case DeleteMap(k, s) => s in heap && heap[s].key == k
    case DeleteAcquire(k, s) => s in heap && heap[s].key == k
    case DeleteNil(k, s) => s in heap && heap[s].key == k
    case DeleteRelease(k, s) => s in heap && heap[s].key == k && heap[s].objectSet == None
    case DeleteEmit(k, s) => s in heap && heap[s].key == k && heap[s].objectSet == None
    case SetCopy(k, o, _) => o.Some? ==> o.value in heap && heap[o.value].key == k
    case SetCompare(k, o, s, _) =>
      && (o.Some? ==> o.value in heap && heap[o.value].key == k)
      && s in heap && heap[s].key == k
    case SetStore(k, s) => s in heap && heap[s].key == k
    case _ => true
  }

  /** A reader and a writer never hold one mutateMu together. */
  ghost predicate Exclusive(sys: Sys) {
    forall r, w | r in sys.threads && w in sys.threads && sys.threads[r].Reads() && sys.threads[w].Writes() ::
      sys.threads[r].s in sys.heap && sys.threads[w].s in sys.heap
      ==> sys.heap[sys.threads[r].s].mu != sys.heap[sys.threads[w].s].mu
  }

  ghost predicate WellFormed(sys: Sys) {
    && (forall k | k in sys.states :: sys.states[k] in sys.heap && sys.heap[sys.states[k]].key == k)
    && sys.emitted <= sys.heap.Keys
    && (forall t | t in sys.threads :: PcOk(sys.heap, sys.threads[t]))
    && Exclusive(sys)
  }

  /** What a step does to the shared state, and where the thread goes next. */
  datatype Effect =
    | Jump(pc: Pc)
    | Reindex(pc: Pc, idx: LockIndex.Index)
    | Drop(pc: Pc, key: Key)
    | Clear(pc: Pc, ref: Ref)
    | Announce(pc: Pc, ref: Ref)
    | Allocate(pc: Pc, ref: Ref, state: State)
    | Store(pc: Pc, key: Key, ref: Ref)

  /** The next atomic step of a thread at `pc`, or None when it has returned or has to wait. */
  ghost function EffectOf(sys: Sys, pc: Pc, c: Choice): Option<Effect>
    requires PcOk(sys.heap, pc) && sys.emitted <= sys.heap.Keys
  {
    match pc
    case Returned => None
    case ChangeStart(k) =>
      if c.ref in sys.emitted && sys.heap[c.ref].key == k then Some(Jump(ChangeUnlock(k, c.ref))) else None
    case ChangeUnlock(k, s) => Some(Reindex(ChangeCheck(k, s), LockIndex.Unlock(sys.idx, k)))
    case ChangeCheck(k, s) => Some(Jump(if sys.heap[s].locked then ChangeApply(k, s) else Returned))
    case ChangeApply(k, s) => Some(Jump(LockGet(k))) // whether or not the apply succeeds
    case LockGet(k) => Some(Jump(if k in sys.states then LockAcquire(k, sys.states[k]) else Returned))
    case LockAcquire(k, s) => if MuWritten(sys, sys.heap[s].mu) then None else Some(Jump(LockRead(k, s)))
    case LockRead(k, s) =>
      var found := sys.heap[s].objectSet;
      Some(Jump(if found.None? then LockRelease(k, s) else LockEnter(k, s, found.value)))
    case LockEnter(k, s, os) => Some(Reindex(LockRelease(k, s), LockIndex.Lock(sys.idx, k, os.groups, c.written)))
    case LockRelease(k, s) => Some(Jump(Returned))
    case DeleteGet(k) => Some(Jump(if k in sys.states then DeleteMap(k, sys.states[k]) else DeleteUnlock(k)))
    case DeleteMap(k, s) => Some(Drop(DeleteAcquire(k, s), k))
    case DeleteAcquire(k, s) =>
      var mu := sys.heap[s].mu;
      if MuWritten(sys, mu) || MuRead(sys, mu) then None else Some(Jump(DeleteNil(k, s)))
    case DeleteNil(k, s) => Some(Clear(DeleteRelease(k, s), s))
    case DeleteRelease(k, s) => Some(Jump(DeleteEmit(k, s)))
    case DeleteEmit(k, s) => Some(Announce(DeleteUnlock(k), s))
    case DeleteUnlock(k) => Some(Reindex(Returned, LockIndex.Unlock(sys.idx, k)))
    case SetGet(k, args) => Some(Jump(SetCopy(k, if k in sys.states then Some(sys.states[k]) else None, args)))
    case SetCopy(k, o, args) =>
      if c.ref in sys.heap then None
      else Some(Allocate(SetCompare(k, o, c.ref, args), c.ref, Built(sys, k, o, args, c.ref)))
    case SetCompare(k, o, s, args) => Some(Jump(if Changed(sys, o, s, args) then SetStore(k, s) else Returned))
    case SetStore(k, s) => Some(Store(Returned, k, s))
    case UnlockStart(k) => Some(Reindex(Returned, LockIndex.Unlock(sys.idx, k)))
  }

  function HeapAfter(heap: map<Ref, State>, e: Effect): map<Ref, State>
    requires e.Clear? || e.Announce? ==> e.ref in heap
  {
    match e
    case Clear(_, s) => heap[s := heap[s].(objectSet := None)]
    case Announce(_, s) => heap[s := heap[s].(locked := false)]
    case Allocate(_, s, st) => heap[s := st]
    case _ => heap
  }

  function Perform(sys: Sys, t: Tid, e: Effect): Sys
    requires e.Clear? || e.Announce? ==> e.ref in sys.heap
  {
    Sys(sys.threads[t := e.pc],
        if e.Drop? then sys.states - {e.key} else if e.Store? then sys.states[e.key := e.ref] else sys.states,
        HeapAfter(sys.heap, e),
        if e.Announce? || e.Store? then sys.emitted + {e.ref} else sys.emitted,
        if e.Reindex? then e.idx else sys.idx)
  }

  /** Why a step is safe: what it refers to exists, it takes a mutex only when that is free, and it
      clears an object set only while no reader is entering it. */
  ghost predicate EffectOk(sys: Sys, t: Tid, e: Effect)
    requires t in sys.threads
  {
    var pc := sys.threads[t];
    && (e.Clear? || e.Announce? || e.Store? ==> e.ref in sys.heap)
    && (e.Store? ==> sys.heap[e.ref].key == e.key)
    && (e.Allocate? ==> e.ref !in sys.heap)
    && (e.Clear? ==> forall u | u in sys.threads && u != t && sys.threads[u].LockEnter? :: sys.threads[u].s != e.ref)
    && PcOk(HeapAfter(sys.heap, e), e.pc)
    && (e.pc.Reads() ==> e.pc.s in sys.heap)
    && (e.pc.Reads() ==> if pc.Reads() then e.pc.s == pc.s else !MuWritten(sys, sys.heap[e.pc.s].mu))
    && (e.pc.Writes() ==> e.pc.s in sys.heap)
    && (e.pc.Writes() && pc.Writes() ==> e.pc.s == pc.s)
    && (e.pc.Writes() && !pc.Writes() ==>
          !MuWritten(sys, sys.heap[e.pc.s].mu) && !MuRead(sys, sys.heap[e.pc.s].mu))
  }

  lemma ChangeEffectsAreOk(sys: Sys, t: Tid, c: Choice)
    requires WellFormed(sys) && t in sys.threads && sys.threads[t].InChange()
    ensures var e := EffectOf(sys, sys.threads[t], c); e.Some? ==> EffectOk(sys, t, e.value)
  {
    hide LockIndex.Lock, LockIndex.Unlock, Exclusive;
    assert PcOk(sys.heap, sys.threads[t]);
  }

  lemma LockEffectsAreOk(sys: Sys, t: Tid, c: Choice)
    requires WellFormed(sys) && t in sys.threads && sys.threads[t].InLock()
    ensures var e := EffectOf(sys, sys.threads[t], c); e.Some? ==> EffectOk(sys, t, e.value)
  {
    hide LockIndex.Lock, LockIndex.Unlock, Exclusive;
    assert PcOk(sys.heap, sys.threads[t]);
  }

  lemma DeleteEffectsAreOk(sys: Sys, t: Tid, c: Choice)
    requires WellFormed(sys) && t in sys.threads && sys.threads[t].InDelete()
    ensures var e := EffectOf(sys, sys.threads[t], c); e.Some? ==> EffectOk(sys, t, e.value)
  {
    hide LockIndex.Lock, LockIndex.Unlock;
    assert PcOk(sys.heap, sys.threads[t]);
  }

  lemma EffectsAreOk(sys: Sys, t: Tid, c: Choice)
    requires WellFormed(sys) && t in sys.threads
    ensures var e := EffectOf(sys, sys.threads[t], c); e.Some? ==> EffectOk(sys, t, e.value)
  {
    var pc := sys.threads[t];
    if pc.InChange() {
      ChangeEffectsAreOk(sys, t, c);
    } else if pc.InLock() {
      LockEffectsAreOk(sys, t, c);
    } else if pc.InDelete() {
      DeleteEffectsAreOk(sys, t, c);
    } else {
      assert PcOk(sys.heap, pc);
    }
  }

  lemma PerformKeepsPcs(sys: Sys, t: Tid, e: Effect)
    requires WellFormed(sys) && t in sys.threads && EffectOk(sys, t, e)
    ensures var after := Perform(sys, t, e); forall u | u in after.threads :: PcOk(after.heap, after.threads[u])
  {
  }

  lemma PerformKeepsExclusive(sys: Sys, t: Tid, e: Effect)
    requires WellFormed(sys) && t in sys.threads && EffectOk(sys, t, e)
    ensures Exclusive(Perform(sys, t, e))
  {
    var after := Perform(sys, t, e);
    forall u | u in sys.threads ensures PcOk(sys.heap, sys.threads[u]) {}
  }

  lemma PerformKeepsWellFormed(sys: Sys, t: Tid, e: Effect)
    requires WellFormed(sys) && t in sys.threads && EffectOk(sys, t, e)
    ensures WellFormed(Perform(sys, t, e))
  {
    PerformKeepsPcs(sys, t, e);
    PerformKeepsExclusive(sys, t, e);
  }

  /** One step of one thread. */
  datatype Act = Act(thread: Tid, choice: Choice)

  ghost function Step(sys: Sys, a: Act): (r: Option<Sys>)
    requires WellFormed(sys)
    ensures r.Some? ==> WellFormed(r.value) && a.thread in sys.threads
  {
    if a.thread !in sys.threads then None else
      var e := EffectOf(sys, sys.threads[a.thread], a.choice);
      if e.None? then None else
        EffectsAreOk(sys, a.thread, a.choice);
        PerformKeepsWellFormed(sys, a.thread, e.value);
        Some(Perform(sys, a.thread, e.value))
  }

  ghost predicate Moves(sys: Sys, a: Act, after: Sys) {
    WellFormed(sys) && Step(sys, a) == Some(after)
  }

  /** An interleaving: the states it passes through and the steps between them. */
  datatype Run = Run(states: seq<Sys>, acts: seq<Act>) {
    ghost predicate Valid() {
      && |states| == |acts| + 1
      && WellFormed(states[0])
      && forall i | 0 <= i < |acts| :: Moves(states[i], acts[i], states[i + 1])
    }

    function First(): Sys requires states != [] { states[0] }

    function Last(): Sys requires states != [] { states[|states| - 1] }
  }

  /** Any number of calls, none of which has begun, on an empty register. */
  ghost predicate Initial(sys: Sys)
    ensures Initial(sys) ==> WellFormed(sys)
  {
    && sys.states == map[] && sys.heap == map[] && sys.emitted == {} && sys.idx == map[]
    && forall t | t in sys.threads :: sys.threads[t].Starting()
  }
}
