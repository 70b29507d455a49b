/** What every interleaving of register calls keeps: a released key owns nothing, Delete wins against
    Lock, and a key owns nothing while its OnChange applies. */
module LockSafety {
  import opened Prelude
  import opened LockProtocol
  import LockIndex

  // ---------------------------------------------------------------- no lock outlives its release

  function SetOf(sys: Sys, s: Ref): Option<ObjectSet> {
    if s in sys.heap then sys.heap[s].objectSet else None
  }

  function MuOf(sys: Sys, s: Ref): Option<Ref> {
    if s in sys.heap then Some(sys.heap[s].mu) else None
  }

  function Current(sys: Sys, k: Key): Option<Ref> {
    if k in sys.states then Some(sys.states[k]) else None
  }

  predicate IsCurrent(sys: Sys, k: Key, s: Ref) {
    k in sys.states && sys.states[k] == s
  }

  /** Lock(k) has fetched a state that has an object set, and waits for its mutex. */
  predicate Fetched(sys: Sys, t: Tid, k: Key) {
    t in sys.threads && sys.threads[t].LockAcquire? && sys.threads[t].key == k && SetOf(sys, sys.threads[t].s).Some?
  }

  /** Lock(k) holds the mutex of such a state and has yet to enter its objects. */
  predicate Entering(sys: Sys, t: Tid, k: Key) {
    && t in sys.threads && (sys.threads[t].LockRead? || sys.threads[t].LockEnter?) && sys.threads[t].key == k
    && SetOf(sys, sys.threads[t].s).Some?
  }

  /** Delete(k) has fetched a state and not yet dropped it from the map. */
  predicate Dropping(sys: Sys, d: Tid, k: Key) {
    d in sys.threads && sys.threads[d].DeleteWindow(k)
  }

  ghost predicate DoomedBy(sys: Sys, k: Key, s: Ref) {
    exists d | d in sys.threads :: sys.threads[d].Dooms(k, s)
  }

  /** A Delete(k) that has dropped its state waits for the mutex. */
  ghost predicate WaitedFor(sys: Sys, k: Key, mu: Option<Ref>) {
    exists d | d in sys.threads ::
      sys.threads[d].DeleteAcquire? && sys.threads[d].key == k && MuOf(sys, sys.threads[d].s) == mu
  }

  ghost predicate UnlockPending(sys: Sys, k: Key) {
    exists d | d in sys.threads :: sys.threads[d].WillUnlock(k)
  }

  /** A state that a Lock has fetched is the current one, or a Delete is going to clear it. */
  ghost predicate FetchedIsLiveOrDoomed(sys: Sys, k: Key) {
    forall t | Fetched(sys, t, k) ::
      IsCurrent(sys, k, sys.threads[t].s) || DoomedBy(sys, k, sys.threads[t].s)
  }

  /** Whichever Delete comes to drop the current state has to wait for a Lock that is entering. */
  ghost predicate DeleteWaits(sys: Sys, k: Key) {
    forall t | Entering(sys, t, k) ::
      var mu := MuOf(sys, sys.threads[t].s);
      (k in sys.states && MuOf(sys, sys.states[k]) == mu) || WaitedFor(sys, k, mu)
  }

  /** Nobody can enter objects behind the back of a Delete that drops s. */
  ghost predicate NobodyBehind(sys: Sys, k: Key, s: Ref) {
    && (forall t | Fetched(sys, t, k) :: DoomedBy(sys, k, sys.threads[t].s))
    && (forall t | Entering(sys, t, k) ::
          var mu := MuOf(sys, sys.threads[t].s); mu == MuOf(sys, s) || WaitedFor(sys, k, mu))
  }

  /** The state that a Delete is about to drop is the current one, or the current one has no object set
      and nobody is entering another. */
  ghost predicate DroppedIsCurrent(sys: Sys, k: Key) {
    forall d | Dropping(sys, d, k) && k in sys.states ::
      var s := sys.threads[d].s;
      sys.states[k] == s || (SetOf(sys, sys.states[k]) == None && NobodyBehind(sys, k, s))
  }

  /** While the key has index entries but no state, some Delete is still going to remove them. */
  ghost predicate EntriesCovered(sys: Sys, k: Key) {
    LockIndex.Owned(sys.idx, k) != {} && k !in sys.states ==> UnlockPending(sys, k)
  }

  /** No Lock that is under way can outlive the Delete of what it locks. */
  ghost predicate Guarded(sys: Sys, k: Key) {
    WellFormed(sys) && FetchedIsLiveOrDoomed(sys, k) && DeleteWaits(sys, k) && DroppedIsCurrent(sys, k)
  }

  ghost predicate NoOrphan(sys: Sys, k: Key) {
    Guarded(sys, k) && EntriesCovered(sys, k)
  }

  // ---------------------------------------------------------------- the stores that spoil it

  /** A Lock waits for the mutex of a state that the store of s supersedes. */
  ghost predicate SpoilsFetched(sys: Sys, k: Key, s: Ref) {
    exists t | Fetched(sys, t, k) :: sys.threads[t].s != s && !DoomedBy(sys, k, sys.threads[t].s)
  }

  /** A Lock is entering under a mutex that the stored state does not share. */
  ghost predicate SpoilsEntering(sys: Sys, k: Key, s: Ref) {
    exists t | Entering(sys, t, k) ::
      MuOf(sys, sys.threads[t].s) != MuOf(sys, s) && !WaitedFor(sys, k, MuOf(sys, sys.threads[t].s))
  }

  /** A Delete is about to drop a state that the store supersedes by one with an object set. */
  ghost predicate SpoilsDropping(sys: Sys, k: Key, s: Ref) {
    exists d | Dropping(sys, d, k) :: sys.threads[d].s != s && SetOf(sys, s).Some?
  }

  ghost predicate Spoils(sys: Sys, k: Key, s: Ref) {
    SpoilsFetched(sys, k, s) || SpoilsEntering(sys, k, s) || SpoilsDropping(sys, k, s)
  }

  // ---------------------------------------------------------------- the invariant, step by step

  ghost predicate EffectRespects(sys: Sys, t: Tid, k: Key, e: Effect)
    requires t in sys.threads
  {
    var pc := sys.threads[t];
    && (e.pc.LockWindow(k) ==>
          if pc.LockWindow(k) then e.pc.s == pc.s && !e.pc.LockAcquire?
          else e.pc.LockAcquire? && IsCurrent(sys, k, e.pc.s))
    && (e.pc.DeleteWindow(k) ==> IsCurrent(sys, k, e.pc.s))
    && (e.pc.LockWindow(k) || e.pc.DeleteWindow(k) ==> e.Jump?)
    && (pc.WillUnlock(k) ==> e.pc.WillUnlock(k) || (e.Reindex? && LockIndex.Owned(e.idx, k) == {}))
    && (forall s :: pc.Dooms(k, s) ==> e.pc.Dooms(k, s) || e == Clear(e.pc, s))
    && (pc.DeleteAcquire? ==> e.pc == DeleteNil(pc.key, pc.s) && e.Jump?)
    && (e.Drop? && e.key == k ==> pc.DeleteWindow(k) && e.pc == DeleteAcquire(k, pc.s))
    && (e.Drop? && e.key != k ==> !pc.DeleteWindow(k))
    && (e.Reindex? ==>
          (pc.LockWindow(k) && pc.LockEnter?) || LockIndex.Owned(e.idx, k) <= LockIndex.Owned(sys.idx, k))
    && (e.Store? && e.key == k ==> !Spoils(sys, k, e.ref))
  }

  /** Only Lock(k) itself can add index entries of k. */
  lemma ReindexRespects(sys: Sys, pc: Pc, c: Choice, k: Key)
    requires PcOk(sys.heap, pc) && sys.emitted <= sys.heap.Keys
    requires Reindexes(pc)
    ensures var e := EffectOf(sys, pc, c); e.Some? && e.value.Reindex?
    ensures var after := LockIndex.Owned(EffectOf(sys, pc, c).value.idx, k);
      if pc.key != k then after == LockIndex.Owned(sys.idx, k) else pc.LockEnter? || after == {}
  {
    if pc.LockEnter? {
      LockIndex.LockIsExact(sys.idx, pc.key, pc.os.groups, c.written);
    } else {
      LockIndex.UnlockIsExact(sys.idx, pc.key);
    }
  }

  predicate Reindexes(pc: Pc) {
    pc.ChangeUnlock? || pc.DeleteUnlock? || pc.UnlockStart? || pc.LockEnter?
  }

  lemma ReindexingEffectsRespect(sys: Sys, t: Tid, c: Choice, k: Key)
    requires WellFormed(sys) && t in sys.threads && Reindexes(sys.threads[t])
    ensures var e := EffectOf(sys, sys.threads[t], c); e.Some? && EffectRespects(sys, t, k, e.value)
  {
    ReindexRespects(sys, sys.threads[t], c, k);
    hide LockIndex.Lock, LockIndex.Unlock, LockIndex.Owned, Exclusive, Spoils;
  }

  lemma EffectsRespect(sys: Sys, t: Tid, c: Choice, k: Key)
    requires WellFormed(sys) && t in sys.threads
    requires sys.threads[t].SetStore? && sys.threads[t].key == k ==> !Spoils(sys, k, sys.threads[t].s)
    ensures var e := EffectOf(sys, sys.threads[t], c); e.Some? ==> EffectRespects(sys, t, k, e.value)
  {
    hide LockIndex.Lock, LockIndex.Unlock, LockIndex.Owned, MuRead, MuWritten, Exclusive, Spoils;
    if Reindexes(sys.threads[t]) {
      ReindexingEffectsRespect(sys, t, c, k);
    }
  }

  /** States keep their mutex, and lose their object set only when a Delete clears them. */
  lemma PerformKeepsStates(sys: Sys, t: Tid, e: Effect)
    requires t in sys.threads && EffectOk(sys, t, e)
    ensures var after := Perform(sys, t, e); forall s | s in sys.heap ::
      MuOf(after, s) == MuOf(sys, s)
      && SetOf(after, s) == if e.Clear? && e.ref == s then None else SetOf(sys, s)
  {
  }

  /** What covers a Lock keeps doing so: a doomed state until it is cleared, a mutex while the Lock has it. */
  lemma PerformKeepsDoomed(sys: Sys, t: Tid, k: Key, e: Effect, s: Ref)
    requires WellFormed(sys) && t in sys.threads && EffectOk(sys, t, e) && EffectRespects(sys, t, k, e)
    requires DoomedBy(sys, k, s)
    ensures var after := Perform(sys, t, e); DoomedBy(after, k, s) || (s in after.heap && SetOf(after, s) == None)
  {
    var after := Perform(sys, t, e);
    var d :| d in sys.threads && sys.threads[d].Dooms(k, s);
    assert after.threads[d].Dooms(k, s) || e == Clear(e.pc, s);
  }

  lemma PerformKeepsWaited(sys: Sys, t: Tid, k: Key, e: Effect, u: Tid, mu: Option<Ref>)
    requires WellFormed(sys) && t in sys.threads && EffectOk(sys, t, e) && EffectRespects(sys, t, k, e)
    requires Entering(sys, u, k) && mu == MuOf(sys, sys.threads[u].s) && WaitedFor(sys, k, mu)
    ensures WaitedFor(Perform(sys, t, e), k, mu)
  {
    var after := Perform(sys, t, e);
    PerformKeepsStates(sys, t, e);
    var d :| d in sys.threads && sys.threads[d].DeleteAcquire? && sys.threads[d].key == k
      && MuOf(sys, sys.threads[d].s) == mu;
    assert PcOk(sys.heap, sys.threads[d]);
    assert sys.threads[u].Reads();
    assert after.threads[d] == sys.threads[d];
  }

  /** A Lock that gets the mutex of a doomed state makes the Delete wait. */
  lemma DoomedIsWaitedFor(sys: Sys, k: Key, s: Ref)
    requires WellFormed(sys) && s in sys.heap && DoomedBy(sys, k, s) && !MuWritten(sys, sys.heap[s].mu)
    ensures WaitedFor(sys, k, MuOf(sys, s))
  {
    var d :| d in sys.threads && sys.threads[d].Dooms(k, s);
    assert !sys.threads[d].Writes();
  }

  /** What a Lock that fetches or enters after a step did before it. */
  lemma LocksBefore(sys: Sys, t: Tid, k: Key, e: Effect, u: Tid)
    requires WellFormed(sys) && t in sys.threads && EffectOk(sys, t, e) && EffectRespects(sys, t, k, e)
    requires Fetched(Perform(sys, t, e), u, k) || Entering(Perform(sys, t, e), u, k)
    ensures var after := Perform(sys, t, e); var s := after.threads[u].s;
      && u in sys.threads && s in sys.heap && SetOf(sys, s).Some? && MuOf(after, s) == MuOf(sys, s)
      && (Fetched(after, u, k) && u == t ==> e.Jump? && IsCurrent(sys, k, s))
      && (Fetched(after, u, k) && u != t ==> Fetched(sys, u, k) && sys.threads[u].s == s)
      && (Entering(after, u, k) && u == t ==>
            && e.Jump? && sys.threads[t].s == s
            && (Entering(sys, t, k) || (Fetched(sys, t, k) && !MuWritten(sys, sys.heap[s].mu))))
      && (Entering(after, u, k) && u != t ==> Entering(sys, u, k) && sys.threads[u].s == s)
  {
    PerformKeepsStates(sys, t, e);
    hide Spoils, Exclusive, LockIndex.Owned, MuRead, MuWritten;
    if u != t {
      assert PcOk(sys.heap, sys.threads[u]);
    } else {
      assert PcOk(sys.heap, sys.threads[t]);
    }
  }

  /** Entering stays covered by a Delete that waits. */
  lemma PerformKeepsEnteringWaited(sys: Sys, t: Tid, k: Key, e: Effect, u: Tid)
    requires WellFormed(sys) && t in sys.threads && EffectOk(sys, t, e) && EffectRespects(sys, t, k, e)
    requires Entering(Perform(sys, t, e), u, k) && u in sys.threads
    requires Entering(sys, u, k) ==> WaitedFor(sys, k, MuOf(sys, sys.threads[u].s))
    requires Fetched(sys, u, k) ==> DoomedBy(sys, k, sys.threads[u].s)
    ensures var after := Perform(sys, t, e); WaitedFor(after, k, MuOf(after, after.threads[u].s))
  {
    var after := Perform(sys, t, e);
    var s := after.threads[u].s;
    LocksBefore(sys, t, k, e, u);
    hide EffectRespects, EffectOk, Exclusive, WellFormed;
    if Entering(sys, u, k) {
      PerformKeepsWaited(sys, t, k, e, u, MuOf(sys, s));
    } else {
      DoomedIsWaitedFor(sys, k, s);
      var d :| d in sys.threads && sys.threads[d].DeleteAcquire? && sys.threads[d].key == k
        && MuOf(sys, sys.threads[d].s) == MuOf(sys, s);
      assert after.threads[d] == sys.threads[d] && after.heap == sys.heap;
    }
  }

  lemma PerformKeepsFetched(sys: Sys, t: Tid, k: Key, e: Effect)
    requires Guarded(sys, k) && t in sys.threads && EffectOk(sys, t, e) && EffectRespects(sys, t, k, e)
    ensures FetchedIsLiveOrDoomed(Perform(sys, t, e), k)
  {
    var after := Perform(sys, t, e);
    forall u | Fetched(after, u, k)
      ensures IsCurrent(after, k, after.threads[u].s) || DoomedBy(after, k, after.threads[u].s)
    {
      var s := after.threads[u].s;
      LocksBefore(sys, t, k, e, u);
      hide Exclusive, LockIndex.Owned, EffectOk, DeleteWaits, NobodyBehind;
      if u != t {
        if DoomedBy(sys, k, s) {
          PerformKeepsDoomed(sys, t, k, e, s);
        } else if e.Drop? && e.key == k {
          assert Dropping(sys, t, k);
          assert after.threads[t].Dooms(k, s);
        } else if e.Store? && e.key == k {
          assert e.ref == s;
        }
      }
    }
  }

  lemma PerformKeepsWaits(sys: Sys, t: Tid, k: Key, e: Effect)
    requires Guarded(sys, k) && t in sys.threads && EffectOk(sys, t, e) && EffectRespects(sys, t, k, e)
    ensures DeleteWaits(Perform(sys, t, e), k)
  {
    var after := Perform(sys, t, e);
    forall u | Entering(after, u, k)
      ensures var mu := MuOf(after, after.threads[u].s);
        (k in after.states && MuOf(after, after.states[k]) == mu) || WaitedFor(after, k, mu)
    {
      var s := after.threads[u].s;
      var mu := MuOf(sys, s);
      LocksBefore(sys, t, k, e, u);
      PerformKeepsStates(sys, t, e);
      hide Exclusive, LockIndex.Owned, EffectOk, LockIndex.Unlock;
      if k in sys.states && MuOf(sys, sys.states[k]) == mu && !(Entering(sys, u, k) && WaitedFor(sys, k, mu)) {
        if e.Drop? && e.key == k {
          assert Dropping(sys, t, k) && u != t;
          assert after.threads[t].DeleteAcquire? && mu == MuOf(sys, sys.threads[t].s);
        } else if e.Store? && e.key == k {
          assert mu == MuOf(sys, e.ref);
        }
      } else {
        PerformKeepsEnteringWaited(sys, t, k, e, u);
      }
    }
  }

  /** A step that stores, or finds the current state without object set, leaves nobody behind a Delete. */
  lemma PerformKeepsNobodyBehind(sys: Sys, t: Tid, k: Key, e: Effect, s: Ref)
    requires WellFormed(sys) && t in sys.threads && EffectOk(sys, t, e) && EffectRespects(sys, t, k, e)
    requires NobodyBehind(sys, k, s) && s in sys.heap
    requires e.Store? || (k in sys.states && SetOf(sys, sys.states[k]) == None)
    ensures NobodyBehind(Perform(sys, t, e), k, s)
  {
    var after := Perform(sys, t, e);
    PerformKeepsStates(sys, t, e);
    forall u | Fetched(after, u, k) ensures DoomedBy(after, k, after.threads[u].s) {
      LocksBefore(sys, t, k, e, u);
      PerformKeepsDoomed(sys, t, k, e, after.threads[u].s);
    }
    forall u | Entering(after, u, k)
      ensures var mu := MuOf(after, after.threads[u].s); mu == MuOf(after, s) || WaitedFor(after, k, mu)
    {
      LocksBefore(sys, t, k, e, u);
      if !(Entering(sys, u, k) && MuOf(sys, sys.threads[u].s) == MuOf(sys, s)) {
        PerformKeepsEnteringWaited(sys, t, k, e, u);
      }
    }
  }

  /** The store of a state without object set that spoils nothing leaves nobody behind a Delete. */
  lemma StoreLeavesNobodyBehind(sys: Sys, t: Tid, k: Key, e: Effect, d: Tid)
    requires Guarded(sys, k) && t in sys.threads && EffectOk(sys, t, e) && EffectRespects(sys, t, k, e)
    requires e.Store? && e.key == k && Dropping(sys, d, k) && SetOf(sys, e.ref) == None
    ensures NobodyBehind(sys, k, sys.threads[d].s)
  {
    forall u | Entering(sys, u, k)
      ensures var mu := MuOf(sys, sys.threads[u].s); mu == MuOf(sys, sys.threads[d].s) || WaitedFor(sys, k, mu)
    {
      assert MuOf(sys, sys.threads[u].s) == MuOf(sys, e.ref) || WaitedFor(sys, k, MuOf(sys, sys.threads[u].s));
    }
  }

  lemma PerformKeepsDropped(sys: Sys, t: Tid, k: Key, e: Effect)
    requires Guarded(sys, k) && t in sys.threads && EffectOk(sys, t, e) && EffectRespects(sys, t, k, e)
    ensures DroppedIsCurrent(Perform(sys, t, e), k)
  {
    var after := Perform(sys, t, e);
    PerformKeepsStates(sys, t, e);
    forall d | Dropping(after, d, k) && k in after.states
      ensures var s := after.threads[d].s;
        after.states[k] == s || (SetOf(after, after.states[k]) == None && NobodyBehind(after, k, s))
    {
      var s := after.threads[d].s;
      if d != t {
        assert Dropping(sys, d, k) && PcOk(sys.heap, sys.threads[d]);
        if e.Store? && e.key == k {
          if e.ref != s {
            StoreLeavesNobodyBehind(sys, t, k, e, d);
            PerformKeepsNobodyBehind(sys, t, k, e, s);
          }
        } else if sys.states[k] != s {
          PerformKeepsNobodyBehind(sys, t, k, e, s);
        }
      }
    }
  }

  lemma PerformKeepsCovered(sys: Sys, t: Tid, k: Key, e: Effect)
    requires NoOrphan(sys, k) && t in sys.threads && EffectOk(sys, t, e) && EffectRespects(sys, t, k, e)
    ensures EntriesCovered(Perform(sys, t, e), k)
  {
    var after := Perform(sys, t, e);
    var pc := sys.threads[t];
    if LockIndex.Owned(after.idx, k) != {} && k !in after.states {
      if e.Drop? && e.key == k {
        assert after.threads[t].WillUnlock(k);
      } else if e.Reindex? && pc.LockWindow(k) && pc.LockEnter? {
        assert PcOk(sys.heap, pc) && Entering(sys, t, k);
        var d :| d in sys.threads && sys.threads[d].DeleteAcquire? && sys.threads[d].key == k;
        assert after.threads[d].WillUnlock(k);
      } else {
        var d :| d in sys.threads && sys.threads[d].WillUnlock(k);
        assert after.threads[d].WillUnlock(k);
      }
    }
  }

  lemma PerformKeepsGuarded(sys: Sys, t: Tid, k: Key, e: Effect)
    requires Guarded(sys, k) && t in sys.threads && EffectOk(sys, t, e) && EffectRespects(sys, t, k, e)
    ensures Guarded(Perform(sys, t, e), k)
  {
    PerformKeepsWellFormed(sys, t, e);
    PerformKeepsFetched(sys, t, k, e);
    PerformKeepsWaits(sys, t, k, e);
    PerformKeepsDropped(sys, t, k, e);
    hide WellFormed, FetchedIsLiveOrDoomed, DeleteWaits, DroppedIsCurrent;
  }

  // ---------------------------------------------------------------- runs

  /** The step stores a state of `k` and spoils the invariant. */
  ghost predicate StoreSpoils(sys: Sys, a: Act, k: Key) {
    && a.thread in sys.threads
    && sys.threads[a.thread].SetStore?
    && sys.threads[a.thread].key == k
    && Spoils(sys, k, sys.threads[a.thread].s)
  }

  /** What a step that does not spoil anything keeps, whether or not all entries are covered. */
  lemma StepKeepsGuarded(sys: Sys, a: Act, k: Key)
    requires Guarded(sys, k) && Step(sys, a).Some? && !StoreSpoils(sys, a, k)
    ensures Guarded(Step(sys, a).value, k)
    ensures EntriesCovered(sys, k) ==> EntriesCovered(Step(sys, a).value, k)
  {
    var e := EffectOf(sys, sys.threads[a.thread], a.choice).value;
    EffectsAreOk(sys, a.thread, a.choice);
    EffectsRespect(sys, a.thread, a.choice, k);
    PerformKeepsGuarded(sys, a.thread, k, e);
    if EntriesCovered(sys, k) {
      PerformKeepsCovered(sys, a.thread, k, e);
    }
    hide EffectOf, EffectOk, EffectRespects, Guarded, EntriesCovered;
  }

  lemma StepKeepsNoOrphan(sys: Sys, a: Act, k: Key)
    requires NoOrphan(sys, k) && Step(sys, a).Some? && !StoreSpoils(sys, a, k)
    ensures NoOrphan(Step(sys, a).value, k)
  {
    hide Guarded, EntriesCovered, StoreSpoils;
    StepKeepsGuarded(sys, a, k);
  }

  /** No store of a Set or Enqueue of `k` spoils the invariant. */
  ghost predicate Disciplined(run: Run, k: Key)
    requires run.Valid()
  {
    forall i | 0 <= i < |run.acts| :: !StoreSpoils(run.states[i], run.acts[i], k)
  }

  /** In every disciplined run, whatever the interleaving, every state keeps the invariant. */
  lemma {:induction false} RunKeepsNoOrphan(run: Run, k: Key, n: nat)
    requires run.Valid() && NoOrphan(run.First(), k) && Disciplined(run, k) && n < |run.states|
    ensures NoOrphan(run.states[n], k)
  {
    hide NoOrphan, StoreSpoils;
    if n == 0 {
    } else {
      RunKeepsNoOrphan(run, k, n - 1);
      assert Moves(run.states[n - 1], run.acts[n - 1], run.states[n - 1 + 1]);
      StepKeepsNoOrphan(run.states[n - 1], run.acts[n - 1], k);
    }
  }

  lemma InitialHasNoOrphan(sys: Sys, k: Key)
    requires Initial(sys)
    ensures NoOrphan(sys, k)
  {
  }

  /** The key has no state and no Delete is going to unlock it, and yet it owns something. */
  ghost predicate Orphaned(sys: Sys, k: Key) {
    k !in sys.states && !UnlockPending(sys, k) && LockIndex.Owned(sys.idx, k) != {}
  }

  /** No lock outlives its release: whenever k has no state and no Delete(k) is under way, no change in
      the cluster is resolved to k. */
  lemma ReleasedKeyOwnsNothing(run: Run, k: Key, n: nat, r: Resource)
    requires run.Valid() && Initial(run.First()) && Disciplined(run, k) && n < |run.states|
    requires k !in run.states[n].states && !UnlockPending(run.states[n], k)
    ensures LockIndex.Resolved(run.states[n].idx, r) != Some(k)
  {
    InitialHasNoOrphan(run.First(), k);
    RunKeepsNoOrphan(run, k, n);
    LockIndex.OwnedIsResolved(run.states[n].idx, k, r);
  }

  /** What a store leaves. */
  function Stored(sys: Sys, t: Tid, k: Key, s: Ref): Sys {
    sys.(threads := sys.threads[t := Returned], states := sys.states[k := s], emitted := sys.emitted + {s})
  }

  lemma StoreStep(sys: Sys, a: Act)
    requires WellFormed(sys) && a.thread in sys.threads && sys.threads[a.thread].SetStore?
    ensures var pc := sys.threads[a.thread]; var after := Stored(sys, a.thread, pc.key, pc.s);
      Step(sys, a) == Some(after) && WellFormed(after)
  {
    var pc := sys.threads[a.thread];
    assert EffectOf(sys, pc, a.choice) == Some(Store(Returned, pc.key, pc.s));
  }

  lemma SpoiltStoreBreaks(sys: Sys, t: Tid, k: Key, s: Ref)
    requires t in sys.threads && sys.threads[t] == SetStore(k, s) && Spoils(sys, k, s)
    ensures !NoOrphan(Stored(sys, t, k, s), k)
  {
    var after := Stored(sys, t, k, s);
    if SpoilsFetched(sys, k, s) {
      var u :| Fetched(sys, u, k) && sys.threads[u].s != s && !DoomedBy(sys, k, sys.threads[u].s);
      assert Fetched(after, u, k);
    } else if SpoilsEntering(sys, k, s) {
      var u :| Entering(sys, u, k) && MuOf(sys, sys.threads[u].s) != MuOf(sys, s)
        && !WaitedFor(sys, k, MuOf(sys, sys.threads[u].s));
      assert Entering(after, u, k);
    } else {
      var d :| Dropping(sys, d, k) && sys.threads[d].s != s && SetOf(sys, s).Some?;
      assert Dropping(after, d, k);
    }
  }

  /** The discipline is exact for the invariant: a store keeps it if and only if it does not spoil it. */
  lemma StoreKeepsIffNotSpoils(sys: Sys, t: Tid, k: Key, s: Ref)
    requires NoOrphan(sys, k) && t in sys.threads && sys.threads[t] == SetStore(k, s)
    ensures NoOrphan(Stored(sys, t, k, s), k) <==> !Spoils(sys, k, s)
  {
    var a := Act(t, Choice(s, {}));
    StoreStep(sys, a);
    if Spoils(sys, k, s) {
      SpoiltStoreBreaks(sys, t, k, s);
    } else {
      hide NoOrphan, Spoils;
      StepKeepsNoOrphan(sys, a, k);
    }
  }

  // ---------------------------------------------------------------- Lock against Delete

  predicate Sets(pc: Pc, k: Key) {
    (pc.SetGet? || pc.SetCopy? || pc.SetCompare? || pc.SetStore?) && pc.key == k
  }

  predicate NoSetInFlight(sys: Sys, k: Key) {
    forall t | t in sys.threads :: !Sets(sys.threads[t], k)
  }

  /** While k still has a state, the call `d` of Delete(k) has not dropped one. */
  predicate NotDropped(sys: Sys, k: Key, d: Tid) {
    && d in sys.threads
    && (k in sys.states ==> sys.threads[d] == DeleteGet(k) || sys.threads[d].DeleteWindow(k))
  }

  /** No thread begins to set k, and a Delete(k) goes on to drop what it finds. */
  ghost predicate EffectTowards(sys: Sys, pc: Pc, k: Key, e: Effect) {
    && !Sets(e.pc, k) && (e.Store? ==> e.key != k)
    && (pc == DeleteGet(k) ==> e.Jump? && (k in sys.states ==> e.pc.DeleteWindow(k)))
    && (pc.DeleteWindow(k) ==> e.Drop? && e.key == k)
  }

  lemma DeletesGoOn(sys: Sys, pc: Pc, c: Choice, k: Key)
    requires PcOk(sys.heap, pc) && sys.emitted <= sys.heap.Keys && pc.InDelete()
    ensures var e := EffectOf(sys, pc, c); e.Some? ==> EffectTowards(sys, pc, k, e.value)
  {
    hide LockIndex.Unlock, MuRead, MuWritten;
  }

  lemma LocksAndChangesGoOn(sys: Sys, pc: Pc, c: Choice, k: Key)
    requires PcOk(sys.heap, pc) && sys.emitted <= sys.heap.Keys && (pc.InChange() || pc.InLock())
    ensures var e := EffectOf(sys, pc, c); e.Some? ==> EffectTowards(sys, pc, k, e.value)
  {
    hide LockIndex.Lock, LockIndex.Unlock, MuRead, MuWritten;
  }

  lemma OthersGoOn(sys: Sys, pc: Pc, c: Choice, k: Key)
    requires PcOk(sys.heap, pc) && sys.emitted <= sys.heap.Keys && !Sets(pc, k)
    requires !pc.InDelete() && !pc.InChange() && !pc.InLock()
    ensures var e := EffectOf(sys, pc, c); e.Some? ==> EffectTowards(sys, pc, k, e.value)
  {
    hide LockIndex.Unlock;
  }

  lemma StepTowardsDeletion(sys: Sys, a: Act, k: Key, d: Tid)
    requires WellFormed(sys) && NoSetInFlight(sys, k) && NotDropped(sys, k, d) && Step(sys, a).Some?
    ensures NoSetInFlight(Step(sys, a).value, k) && NotDropped(Step(sys, a).value, k, d)
  {
    var pc := sys.threads[a.thread];
    assert !Sets(pc, k) && PcOk(sys.heap, pc);
    hide EffectOf, Exclusive, PcOk, WellFormed;
    if pc.InDelete() {
      DeletesGoOn(sys, pc, a.choice, k);
    } else if pc.InChange() || pc.InLock() {
      LocksAndChangesGoOn(sys, pc, a.choice, k);
    } else {
      OthersGoOn(sys, pc, a.choice, k);
    }
  }

  /** The call `d` of Delete(k) has yet to begin, or everything k owns is covered. */
  ghost predicate Healing(sys: Sys, k: Key, d: Tid) {
    Guarded(sys, k) && ((d in sys.threads && sys.threads[d] == DeleteGet(k)) || EntriesCovered(sys, k))
  }

  /** The Delete finds a state, or is going to unlock the key. */
  lemma DeleteBegins(sys: Sys, a: Act, k: Key)
    requires WellFormed(sys) && Step(sys, a).Some? && sys.threads[a.thread] == DeleteGet(k)
    ensures EntriesCovered(Step(sys, a).value, k)
  {
    var after := Step(sys, a).value;
    assert k !in sys.states ==> after.threads[a.thread].WillUnlock(k);
  }

  lemma StepKeepsThread(sys: Sys, a: Act, d: Tid)
    requires WellFormed(sys) && Step(sys, a).Some? && d in sys.threads && d != a.thread
    ensures d in Step(sys, a).value.threads && Step(sys, a).value.threads[d] == sys.threads[d]
  {
  }

  lemma StepKeepsHealing(sys: Sys, a: Act, k: Key, d: Tid)
    requires Healing(sys, k, d) && d in sys.threads && Step(sys, a).Some? && !StoreSpoils(sys, a, k)
    ensures Healing(Step(sys, a).value, k, d)
  {
    StepKeepsGuarded(sys, a, k);
    if !EntriesCovered(sys, k) {
      if a.thread == d {
        DeleteBegins(sys, a, k);
      } else {
        StepKeepsThread(sys, a, d);
      }
    }
    hide Guarded, EntriesCovered, Step, StoreSpoils;
  }

  lemma {:induction false} RunTowardsDeletion(run: Run, k: Key, d: Tid, n: nat)
    requires run.Valid() && Healing(run.First(), k, d) && n < |run.states|
    requires NoSetInFlight(run.First(), k) && NotDropped(run.First(), k, d)
    ensures Healing(run.states[n], k, d) && NoSetInFlight(run.states[n], k) && NotDropped(run.states[n], k, d)
  {
    hide Healing;
    if n == 0 {
    } else {
      var sys, a := run.states[n - 1], run.acts[n - 1];
      RunTowardsDeletion(run, k, d, n - 1);
      assert Moves(sys, a, run.states[n - 1 + 1]);
      assert !Sets(sys.threads[a.thread], k);
      StepKeepsHealing(sys, a, k, d);
      StepTowardsDeletion(sys, a, k, d);
    }
  }

  /** No Lock or Delete of k is under way. */
  predicate Calm(sys: Sys, k: Key) {
    forall t | t in sys.threads :: !sys.threads[t].LockWindow(k) && !sys.threads[t].DeleteWindow(k)
  }

  lemma CalmIsGuarded(sys: Sys, k: Key)
    requires WellFormed(sys) && Calm(sys, k)
    ensures Guarded(sys, k)
  {
  }

  /** Any number of OnChange(k), Lock(k), Unlock(k) and Delete(k), in any interleaving with each other and
      with all calls for other keys, and no Set of k under way: once a Delete(k) and all others have
      returned, k has no state and no resource is resolved to it. At the start the Locks and Deletes of k
      that are under way have to be guarded, which they are if there are none, and always are in a
      disciplined run; what k owns then does not matter. */
  lemma DeleteWins(run: Run, k: Key, d: Tid, r: Resource)
    requires run.Valid() && NoSetInFlight(run.First(), k)
    requires Calm(run.First(), k) || Guarded(run.First(), k)
    requires d in run.First().threads && run.First().threads[d] == DeleteGet(k)
    requires forall t | t in run.Last().threads :: run.Last().threads[t] == Returned
    ensures k !in run.Last().states && LockIndex.Resolved(run.Last().idx, r) != Some(k)
  {
    if Calm(run.First(), k) {
      CalmIsGuarded(run.First(), k);
    }
    hide Guarded, Calm;
    RunTowardsDeletion(run, k, d, |run.acts|);
    assert run.Last().threads[d] == Returned;
    LockIndex.OwnedIsResolved(run.Last().idx, k, r);
  }

  /** So a leak heals: a key that is orphaned owns nothing once another Delete of it has run. */
  lemma DeleteHeals(run: Run, k: Key, d: Tid)
    requires run.Valid() && Orphaned(run.First(), k) && NoSetInFlight(run.First(), k) && Calm(run.First(), k)
    requires d in run.First().threads && run.First().threads[d] == DeleteGet(k)
    requires forall t | t in run.Last().threads :: run.Last().threads[t] == Returned
    ensures !Orphaned(run.Last(), k) && LockIndex.Owned(run.Last().idx, k) == {}
  {
    forall r ensures r !in LockIndex.Owned(run.Last().idx, k) {
      DeleteWins(run, k, d, r);
      LockIndex.OwnedIsResolved(run.Last().idx, k, r);
    }
  }

  // ---------------------------------------------------------------- while OnChange applies

  /** The work queue hands a key to one worker at a time, and only OnChange calls Lock. */
  ghost predicate OneHandler(sys: Sys, k: Key) {
    forall t, u | t in sys.threads && u in sys.threads && sys.threads[t].Handles(k) && sys.threads[u].Handles(k) ::
      t == u
  }

  ghost predicate UnprotectedOwnsNothing(sys: Sys, k: Key) {
    forall t | t in sys.threads && sys.threads[t].Unprotected(k) :: LockIndex.Owned(sys.idx, k) == {}
  }

  lemma StepKeepsUnprotected(sys: Sys, a: Act, k: Key)
    requires WellFormed(sys) && Step(sys, a).Some?
    requires OneHandler(sys, k) && UnprotectedOwnsNothing(sys, k)
    ensures UnprotectedOwnsNothing(Step(sys, a).value, k)
  {
    EffectsProtect(sys, a.thread, a.choice, k);
    PerformKeepsUnprotected(sys, a.thread, k, EffectOf(sys, sys.threads[a.thread], a.choice).value);
    hide EffectOf, WellFormed, UnprotectedOwnsNothing;
  }

  /** A thread loses its protection only by unlocking, and only Lock(k) itself adds entries of k. */
  ghost predicate EffectProtects(sys: Sys, t: Tid, k: Key, e: Effect)
    requires t in sys.threads
  {
    var pc := sys.threads[t];
    && (e.pc.Unprotected(k) ==> pc.Unprotected(k) || (e.Reindex? && LockIndex.Owned(e.idx, k) == {}))
    && (e.Reindex? && e.pc.Unprotected(k) ==> LockIndex.Owned(e.idx, k) == {})
    && (e.Reindex? ==> LockIndex.Owned(e.idx, k) <= LockIndex.Owned(sys.idx, k) || pc.Handles(k))
  }

  lemma EffectsProtect(sys: Sys, t: Tid, c: Choice, k: Key)
    requires WellFormed(sys) && t in sys.threads
    ensures var e := EffectOf(sys, sys.threads[t], c); e.Some? ==> EffectProtects(sys, t, k, e.value)
  {
    hide LockIndex.Lock, LockIndex.Unlock, LockIndex.Owned, MuRead, MuWritten, Exclusive;
    if Reindexes(sys.threads[t]) {
      ReindexRespects(sys, sys.threads[t], c, k);
    }
  }

  lemma PerformKeepsUnprotected(sys: Sys, t: Tid, k: Key, e: Effect)
    requires t in sys.threads && EffectProtects(sys, t, k, e) && (e.Clear? || e.Announce? ==> e.ref in sys.heap)
    requires OneHandler(sys, k) && UnprotectedOwnsNothing(sys, k)
    ensures UnprotectedOwnsNothing(Perform(sys, t, e), k)
  {
  }

  lemma {:induction false} RunKeepsUnprotected(run: Run, k: Key, n: nat)
    requires run.Valid() && Initial(run.First()) && n < |run.states|
    requires forall i | 0 <= i <= n :: OneHandler(run.states[i], k)
    ensures UnprotectedOwnsNothing(run.states[n], k)
  {
    if n == 0 {
      assert LockIndex.Owned(run.First().idx, k) == {};
    } else {
      RunKeepsUnprotected(run, k, n - 1);
      assert Moves(run.states[n - 1], run.acts[n - 1], run.states[n - 1 + 1]);
      StepKeepsUnprotected(run.states[n - 1], run.acts[n - 1], k);
    }
  }

  /** Between the Unlock of an OnChange(k) and the moment its deferred Lock enters, no Resolve answers k,
      whatever other threads do. What happens to a change that is resolved later is in LockWakes. */
  lemma NothingResolvesInWindow(run: Run, k: Key, n: nat, t: Tid, r: Resource)
    requires run.Valid() && Initial(run.First()) && n < |run.states|
    requires forall i | 0 <= i <= n :: OneHandler(run.states[i], k)
    requires t in run.states[n].threads && run.states[n].threads[t].Unprotected(k)
    ensures LockIndex.Resolved(run.states[n].idx, r) != Some(k)
  {
    RunKeepsUnprotected(run, k, n);
    LockIndex.OwnedIsResolved(run.states[n].idx, k, r);
  }
}
