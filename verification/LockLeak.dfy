/** Why LockSafety asks that stores spoil nothing: after a store that does, a key can end deleted and yet
    own objects; after one that does not, it cannot. Four calls suffice. */
module LockLeak {
  import opened Prelude
  import opened LockProtocol
  import opened LockSafety
  import LockIndex

  ghost predicate Connects(run: Run, first: Sys, last: Sys, k: Key) {
    run.Valid() && run.First() == first && run.Last() == last && Disciplined(run, k)
  }

  /** Some interleaving in which no store of `k` spoils anything leads from `first` to `last`. */
  ghost predicate Leads(first: Sys, last: Sys, k: Key) {
    WellFormed(last) && exists run :: Connects(run, first, last, k)
  }

  ghost predicate MutexesFree(sys: Sys) {
    forall t | t in sys.threads :: !sys.threads[t].Reads() && !sys.threads[t].Writes()
  }

  /** What a thread needs of the shared state to take its steps. */
  ghost predicate Ready(sys: Sys, t: Tid, pc: Pc) {
    t in sys.threads && sys.threads[t] == pc && PcOk(sys.heap, pc) && sys.emitted <= sys.heap.Keys
  }

  lemma LeadsToItself(sys: Sys, k: Key)
    requires WellFormed(sys)
    ensures Leads(sys, sys, k)
  {
    assert Connects(Run([sys], []), sys, sys, k);
  }

  /** A run goes on. */
  lemma RunGoesOn(run: Run, a: Act, after: Sys, k: Key) returns (next: Run)
    requires run.Valid() && Disciplined(run, k) && Moves(run.Last(), a, after) && !StoreSpoils(run.Last(), a, k)
    ensures Connects(next, run.First(), after, k)
  {
    hide Moves, WellFormed, StoreSpoils;
    next := Run(run.states + [after], run.acts + [a]);
    forall i | 0 <= i < |next.acts|
      ensures Moves(next.states[i], next.acts[i], next.states[i + 1]) && !StoreSpoils(next.states[i], next.acts[i], k)
    {
      if i < |run.acts| {
        assert Moves(run.states[i], run.acts[i], run.states[i + 1]) && !StoreSpoils(run.states[i], run.acts[i], k);
      }
    }
  }

  lemma EffectMoves(sys: Sys, t: Tid, c: Choice, e: Effect)
    requires WellFormed(sys) && t in sys.threads && EffectOf(sys, sys.threads[t], c) == Some(e)
    ensures (e.Clear? || e.Announce? ==> e.ref in sys.heap) && Moves(sys, Act(t, c), Perform(sys, t, e))
    ensures WellFormed(Perform(sys, t, e))
  {
    EffectsAreOk(sys, t, c);
    PerformKeepsWellFormed(sys, t, e);
    assert Step(sys, Act(t, c)) == Some(Perform(sys, t, e));
  }

  /** Thread `t`, at `pc`, takes the step `e` next. */
  lemma Take(first: Sys, sys: Sys, k: Key, t: Tid, c: Choice, pc: Pc, e: Effect)
    requires Leads(first, sys, k) && Ready(sys, t, pc) && EffectOf(sys, pc, c) == Some(e)
    requires pc.SetStore? && pc.key == k ==> !Spoils(sys, k, pc.s)
    ensures (e.Clear? || e.Announce? ==> e.ref in sys.heap) && Leads(first, Perform(sys, t, e), k)
    ensures Ready(Perform(sys, t, e), t, e.pc)
  {
    EffectMoves(sys, t, c, e);
    var run :| Connects(run, first, sys, k);
    hide Spoils, Moves, EffectOf, PcOk;
    var next := RunGoesOn(run, Act(t, c), Perform(sys, t, e), k);
  }

  // ---------------------------------------------------------------- whole calls

  lemma StoreNext(first: Sys, sys: Sys, k: Key, t: Tid, s: Ref)
    requires Leads(first, sys, k) && Ready(sys, t, SetStore(k, s)) && !Spoils(sys, k, s)
    ensures Leads(first, Stored(sys, t, k, s), k)
  {
    hide Leads, Spoils;
    Take(first, sys, k, t, Choice(s, {}), SetStore(k, s), Store(Returned, k, s));
  }

  lemma LockFetches(first: Sys, sys: Sys, k: Key, t: Tid)
    requires Leads(first, sys, k) && Ready(sys, t, LockGet(k)) && k in sys.states
    ensures var after := sys.(threads := sys.threads[t := LockAcquire(k, sys.states[k])]);
      Leads(first, after, k) && Ready(after, t, LockAcquire(k, sys.states[k]))
  {
    hide Leads;
    Take(first, sys, k, t, Choice(0, {}), LockGet(k), Jump(LockAcquire(k, sys.states[k])));
  }

  function Locked(sys: Sys, t: Tid, idx: LockIndex.Index): Sys {
    sys.(threads := sys.threads[t := Returned], idx := idx)
  }

  function Advanced(sys: Sys, t: Tid, pc: Pc): Sys {
    sys.(threads := sys.threads[t := pc])
  }

  /** The rest of a Lock that is about to enter `os`. */
  lemma EntersNext(first: Sys, sys: Sys, k: Key, t: Tid, s: Ref, os: ObjectSet)
    requires Leads(first, sys, k) && Ready(sys, t, LockEnter(k, s, os))
    ensures Leads(first, Locked(sys, t, LockIndex.Lock(sys.idx, k, os.groups, os.groups.Keys)), k)
  {
    hide Leads, WellFormed, LockIndex.Lock, LockIndex.Unlock;
    var c := Choice(0, os.groups.Keys);
    var idx := LockIndex.Lock(sys.idx, k, os.groups, os.groups.Keys);
    Take(first, sys, k, t, c, LockEnter(k, s, os), Reindex(LockRelease(k, s), idx));
    var s1 := Perform(sys, t, Reindex(LockRelease(k, s), idx));
    Take(first, s1, k, t, c, LockRelease(k, s), Jump(Returned));
    assert Perform(s1, t, Jump(Returned)) == Locked(sys, t, idx);
  }

  lemma ReadsNext(first: Sys, sys: Sys, k: Key, t: Tid, s: Ref, os: ObjectSet)
    requires Leads(first, sys, k) && Ready(sys, t, LockRead(k, s)) && SetOf(sys, s) == Some(os)
    ensures Leads(first, Locked(sys, t, LockIndex.Lock(sys.idx, k, os.groups, os.groups.Keys)), k)
  {
    hide Leads, WellFormed, LockIndex.Lock, LockIndex.Unlock;
    Take(first, sys, k, t, Choice(0, {}), LockRead(k, s), Jump(LockEnter(k, s, os)));
    var s1 := Advanced(sys, t, LockEnter(k, s, os));
    EntersNext(first, s1, k, t, s, os);
    assert s1.threads[t := Returned] == sys.threads[t := Returned];
  }

  lemma LockEnters(first: Sys, sys: Sys, k: Key, t: Tid, s: Ref, os: ObjectSet)
    requires Leads(first, sys, k) && Ready(sys, t, LockAcquire(k, s)) && SetOf(sys, s) == Some(os)
    requires !MuWritten(sys, sys.heap[s].mu)
    ensures Leads(first, Locked(sys, t, LockIndex.Lock(sys.idx, k, os.groups, os.groups.Keys)), k)
  {
    hide Leads, WellFormed, LockIndex.Lock, LockIndex.Unlock;
    Take(first, sys, k, t, Choice(0, {}), LockAcquire(k, s), Jump(LockRead(k, s)));
    var s1 := Advanced(sys, t, LockRead(k, s));
    ReadsNext(first, s1, k, t, s, os);
    assert s1.threads[t := Returned] == sys.threads[t := Returned];
  }

  function Dropped(sys: Sys, t: Tid, k: Key, s: Ref): Sys {
    sys.(threads := sys.threads[t := DeleteNil(k, s)], states := sys.states - {k})
  }

  ghost predicate Free(sys: Sys, s: Ref)
    requires s in sys.heap
  {
    !MuRead(sys, sys.heap[s].mu) && !MuWritten(sys, sys.heap[s].mu)
  }

  /** From the state that the Delete has fetched, current or not. */
  lemma DeleteDrops(first: Sys, sys: Sys, k: Key, t: Tid, s: Ref)
    requires Leads(first, sys, k) && Ready(sys, t, DeleteMap(k, s)) && Free(sys, s)
    ensures var after := Dropped(sys, t, k, s); Leads(first, after, k) && Ready(after, t, DeleteNil(k, s))
  {
    hide Leads, WellFormed, LockIndex.Lock, LockIndex.Unlock;
    var c := Choice(0, {});
    Take(first, sys, k, t, c, DeleteMap(k, s), Drop(DeleteAcquire(k, s), k));
    var s1 := Perform(sys, t, Drop(DeleteAcquire(k, s), k));
    Take(first, s1, k, t, c, DeleteAcquire(k, s), Jump(DeleteNil(k, s)));
    assert Perform(s1, t, Jump(DeleteNil(k, s))) == Dropped(sys, t, k, s);
  }

  lemma DeleteFetches(first: Sys, sys: Sys, k: Key, t: Tid)
    requires Leads(first, sys, k) && Ready(sys, t, DeleteGet(k)) && k in sys.states
    ensures var after := Advanced(sys, t, DeleteMap(k, sys.states[k]));
      Leads(first, after, k) && Ready(after, t, DeleteMap(k, sys.states[k]))
  {
    hide Leads;
    Take(first, sys, k, t, Choice(0, {}), DeleteGet(k), Jump(DeleteMap(k, sys.states[k])));
  }

  function Cleared(sys: Sys, t: Tid, k: Key, s: Ref): Sys
    requires s in sys.heap
  {
    Sys(sys.threads[t := Returned], sys.states, sys.heap[s := sys.heap[s].(objectSet := None, locked := false)],
        sys.emitted + {s}, LockIndex.Unlock(sys.idx, k))
  }

  /** The object set is gone and the mutex released. */
  lemma DeleteNils(first: Sys, sys: Sys, k: Key, t: Tid, s: Ref)
    requires Leads(first, sys, k) && Ready(sys, t, DeleteNil(k, s))
    ensures var after := sys.(threads := sys.threads[t := DeleteEmit(k, s)],
                              heap := sys.heap[s := sys.heap[s].(objectSet := None)]);
      Leads(first, after, k) && Ready(after, t, DeleteEmit(k, s))
  {
    hide Leads, WellFormed, LockIndex.Lock, LockIndex.Unlock;
    var c := Choice(0, {});
    Take(first, sys, k, t, c, DeleteNil(k, s), Clear(DeleteRelease(k, s), s));
    var s1 := Perform(sys, t, Clear(DeleteRelease(k, s), s));
    Take(first, s1, k, t, c, DeleteRelease(k, s), Jump(DeleteEmit(k, s)));
    assert s1.threads[t := DeleteEmit(k, s)] == sys.threads[t := DeleteEmit(k, s)];
  }

  lemma DeleteClears(first: Sys, sys: Sys, k: Key, t: Tid, s: Ref)
    requires Leads(first, sys, k) && Ready(sys, t, DeleteNil(k, s))
    ensures Leads(first, Cleared(sys, t, k, s), k)
  {
    hide Leads, WellFormed, LockIndex.Lock, LockIndex.Unlock;
    var c := Choice(0, {});
    DeleteNils(first, sys, k, t, s);
    var s2 := sys.(threads := sys.threads[t := DeleteEmit(k, s)],
                   heap := sys.heap[s := sys.heap[s].(objectSet := None)]);
    Take(first, s2, k, t, c, DeleteEmit(k, s), Announce(DeleteUnlock(k), s));
    var s3 := Perform(s2, t, Announce(DeleteUnlock(k), s));
    Take(first, s3, k, t, c, DeleteUnlock(k), Reindex(Returned, LockIndex.Unlock(sys.idx, k)));
    assert Perform(s3, t, Reindex(Returned, LockIndex.Unlock(sys.idx, k))) == Cleared(sys, t, k, s);
  }

  /** The whole rest of a Delete that has fetched s. */
  function Deleted(sys: Sys, t: Tid, k: Key, s: Ref): Sys
    requires s in sys.heap
  {
    Cleared(Dropped(sys, t, k, s), t, k, s)
  }

  lemma DeleteRuns(first: Sys, sys: Sys, k: Key, t: Tid, s: Ref)
    requires Leads(first, sys, k) && Ready(sys, t, DeleteMap(k, s)) && Free(sys, s)
    ensures Leads(first, Deleted(sys, t, k, s), k)
  {
    hide Leads, EffectOf, WellFormed, LockIndex.Unlock;
    DeleteDrops(first, sys, k, t, s);
    DeleteClears(first, Dropped(sys, t, k, s), k, t, s);
  }

  // ---------------------------------------------------------------- three ways to leak

  /** What is left when the Delete `d` has run and then the Lock `l` has entered `os`. */
  ghost function Leaked(sys: Sys, k: Key, l: Tid, d: Tid, s2: Ref, os: ObjectSet): Sys
    requires s2 in sys.heap
  {
    var after := Deleted(sys, d, k, s2);
    Locked(after, l, LockIndex.Lock(after.idx, k, os.groups, os.groups.Keys))
  }

  lemma LeakedOwns(sys: Sys, k: Key, l: Tid, d: Tid, s2: Ref, os: ObjectSet)
    requires s2 in sys.heap && !LockIndex.Conflict(sys.idx, k, os.groups)
    ensures var after := Leaked(sys, k, l, d, s2, os);
      && after.threads == sys.threads[d := Returned][l := Returned]
      && k !in after.states && LockIndex.Owned(after.idx, k) == Members(os.groups)
  {
    LockIndex.UnlockKeepsConflict(sys.idx, k, os.groups);
    LockIndex.LockIsExact(LockIndex.Unlock(sys.idx, k), k, os.groups, os.groups.Keys);
    assert LockIndex.Restrict(os.groups, os.groups.Keys) == os.groups;
    hide LockIndex.Lock, LockIndex.Unlock, LockIndex.Owned, LockIndex.Conflict;
    assert sys.threads[d := DeleteNil(k, s2)][d := Returned] == sys.threads[d := Returned];
  }

  /** The state s that the Lock `l` has fetched is not s2, the one that the Delete `d` is going to drop:
      the Delete runs first, and the Lock survives it. */
  lemma PassedLockOutlivesDelete(first: Sys, sys: Sys, k: Key, l: Tid, d: Tid, s: Ref, s2: Ref, os: ObjectSet)
    returns (after: Sys)
    requires Leads(first, sys, k) && MutexesFree(sys) && l != d && s != s2
    requires Ready(sys, l, LockAcquire(k, s)) && Ready(sys, d, DeleteMap(k, s2))
    requires SetOf(sys, s) == Some(os) && !LockIndex.Conflict(sys.idx, k, os.groups)
    ensures Leads(first, after, k) && after.threads == sys.threads[d := Returned][l := Returned]
    ensures k !in after.states && LockIndex.Owned(after.idx, k) == Members(os.groups)
  {
    hide Leads, EffectOf, WellFormed, LockIndex.Lock, LockIndex.Unlock, LockIndex.Owned, LockIndex.Conflict;
    DeleteRuns(first, sys, k, d, s2);
    LockEnters(first, Deleted(sys, d, k, s2), k, l, s, os);
    LeakedOwns(sys, k, l, d, s2, os);
    after := Leaked(sys, k, l, d, s2, os);
  }

  lemma EnteringEnters(first: Sys, sys: Sys, k: Key, t: Tid, os: ObjectSet)
    requires Leads(first, sys, k) && Entering(sys, t, k) && SetOf(sys, sys.threads[t].s) == Some(os)
    ensures Leads(first, Locked(sys, t, LockIndex.Lock(sys.idx, k, os.groups, os.groups.Keys)), k)
  {
    hide EffectOf, LockIndex.Lock;
    var s := sys.threads[t].s;
    assert PcOk(sys.heap, sys.threads[t]);
    if sys.threads[t].LockRead? {
      ReadsNext(first, sys, k, t, s, os);
    } else {
      EntersNext(first, sys, k, t, s, os);
    }
  }

  /** The same when the Lock has a mutex already, which is not that of s2. */
  lemma PassedEntryOutlivesDelete(first: Sys, sys: Sys, k: Key, l: Tid, d: Tid, s2: Ref, os: ObjectSet)
    returns (after: Sys)
    requires Leads(first, sys, k) && Entering(sys, l, k) && Ready(sys, d, DeleteMap(k, s2)) && Free(sys, s2)
    requires SetOf(sys, sys.threads[l].s) == Some(os) && !LockIndex.Conflict(sys.idx, k, os.groups)
    ensures Leads(first, after, k) && after.threads == sys.threads[d := Returned][l := Returned]
    ensures k !in after.states && LockIndex.Owned(after.idx, k) == Members(os.groups)
  {
    var s := sys.threads[l].s;
    assert PcOk(sys.heap, sys.threads[l]) && sys.threads[l].Reads() && s != s2;
    hide Leads, EffectOf, WellFormed, Free, LockIndex.Lock, LockIndex.Unlock, LockIndex.Owned, LockIndex.Conflict;
    DeleteRuns(first, sys, k, d, s2);
    EnteringEnters(first, Deleted(sys, d, k, s2), k, l, os);
    LeakedOwns(sys, k, l, d, s2, os);
    after := Leaked(sys, k, l, d, s2, os);
  }

  /** A store has superseded by s2 the state s that the Lock `l` has fetched: from here the Delete `d` and
      the Lock can return with the key deleted and still owning the objects. */
  lemma SupersededLockOutlivesDelete(first: Sys, sys: Sys, k: Key, l: Tid, d: Tid, s: Ref, os: ObjectSet)
    returns (after: Sys)
    requires Leads(first, sys, k) && MutexesFree(sys) && k in sys.states && sys.states[k] != s
    requires Ready(sys, l, LockAcquire(k, s)) && Ready(sys, d, DeleteGet(k))
    requires SetOf(sys, s) == Some(os) && !LockIndex.Conflict(sys.idx, k, os.groups)
    ensures Leads(first, after, k) && after.threads == sys.threads[d := Returned][l := Returned]
    ensures k !in after.states && LockIndex.Owned(after.idx, k) == Members(os.groups)
  {
    hide EffectOf, WellFormed, Leads, LockIndex.Owned, LockIndex.Conflict;
    var s2 := sys.states[k];
    DeleteFetches(first, sys, k, d);
    after := PassedLockOutlivesDelete(first, Advanced(sys, d, DeleteMap(k, s2)), k, l, d, s, s2, os);
    assert after.threads == sys.threads[d := Returned][l := Returned];
  }

  /** The Lock `l` is already entering s, but the store has left a state with another mutex: the Delete
      does not wait for it. */
  lemma SupersededEntryOutlivesDelete(first: Sys, sys: Sys, k: Key, l: Tid, d: Tid, os: ObjectSet)
    returns (after: Sys)
    requires Leads(first, sys, k) && Entering(sys, l, k) && Ready(sys, d, DeleteGet(k))
    requires SetOf(sys, sys.threads[l].s) == Some(os) && !LockIndex.Conflict(sys.idx, k, os.groups)
    requires k in sys.states && sys.states[k] in sys.heap && Free(sys, sys.states[k])
    ensures Leads(first, after, k) && after.threads == sys.threads[d := Returned][l := Returned]
    ensures k !in after.states && LockIndex.Owned(after.idx, k) == Members(os.groups)
  {
    hide EffectOf, WellFormed, Leads, LockIndex.Owned, LockIndex.Conflict;
    var s2 := sys.states[k];
    DeleteFetches(first, sys, k, d);
    after := PassedEntryOutlivesDelete(first, Advanced(sys, d, DeleteMap(k, s2)), k, l, d, s2, os);
    assert after.threads == sys.threads[d := Returned][l := Returned];
  }

  /** The store has superseded the state s that the Delete `d` has fetched: the Delete drops the new
      state from the map but clears the old one, so that a Lock of the new state survives it. */
  lemma SupersededDeleteMissesLock(first: Sys, sys: Sys, k: Key, l: Tid, d: Tid, s: Ref, os: ObjectSet)
    returns (after: Sys)
    requires Leads(first, sys, k) && MutexesFree(sys) && k in sys.states && sys.states[k] != s
    requires Ready(sys, l, LockGet(k)) && Ready(sys, d, DeleteMap(k, s))
    requires SetOf(sys, sys.states[k]) == Some(os) && !LockIndex.Conflict(sys.idx, k, os.groups)
    ensures Leads(first, after, k) && after.threads == sys.threads[d := Returned][l := Returned]
    ensures k !in after.states && LockIndex.Owned(after.idx, k) == Members(os.groups)
  {
    hide EffectOf, WellFormed, Leads, LockIndex.Owned, LockIndex.Conflict;
    var s2 := sys.states[k];
    LockFetches(first, sys, k, l);
    after := PassedLockOutlivesDelete(first, Advanced(sys, l, LockAcquire(k, s2)), k, l, d, s2, s, os);
    assert after.threads == sys.threads[d := Returned][l := Returned];
  }

  // ---------------------------------------------------------------- exactly those stores leak

  /** The threads of `todo` have returned; of the shared state only entries of `k` have changed. */
  ghost predicate Drained(sys: Sys, after: Sys, k: Key, todo: set<Tid>) {
    && after.threads.Keys == sys.threads.Keys
    && (forall t | t in sys.threads :: after.threads[t] == if t in todo then Returned else sys.threads[t])
    && after.states == sys.states && after.heap == sys.heap && after.emitted == sys.emitted
    && forall other | other != k :: LockIndex.Owned(after.idx, other) == LockIndex.Owned(sys.idx, other)
  }

  /** A Lock that holds its mutex can finish. */
  lemma ReaderFinishes(first: Sys, sys: Sys, k: Key, t: Tid) returns (after: Sys)
    requires Leads(first, sys, k) && t in sys.threads && sys.threads[t].Reads() && sys.threads[t].key == k
    ensures Leads(first, after, k) && Drained(sys, after, k, {t})
  {
    hide Leads, WellFormed, LockIndex.Lock, LockIndex.Owned, LockIndex.Conflict;
    if Entering(sys, t, k) {
      var os := SetOf(sys, sys.threads[t].s).value;
      EnteringEnters(first, sys, k, t, os);
      LockIndex.LockIsExact(sys.idx, k, os.groups, os.groups.Keys);
      after := Locked(sys, t, LockIndex.Lock(sys.idx, k, os.groups, os.groups.Keys));
    } else {
      after := Locked(sys, t, sys.idx);
      EmptyReaderFinishes(first, sys, k, t);
    }
  }

  lemma ReleaseNext(first: Sys, sys: Sys, k: Key, t: Tid, s: Ref)
    requires Leads(first, sys, k) && Ready(sys, t, LockRelease(k, s))
    ensures Leads(first, Locked(sys, t, sys.idx), k)
  {
    hide Leads, WellFormed;
    Take(first, sys, k, t, Choice(0, {}), LockRelease(k, s), Jump(Returned));
    assert Perform(sys, t, Jump(Returned)) == Locked(sys, t, sys.idx);
  }

  lemma NothingToEnter(first: Sys, sys: Sys, k: Key, t: Tid, s: Ref)
    requires Leads(first, sys, k) && Ready(sys, t, LockRead(k, s)) && SetOf(sys, s) == None
    ensures Leads(first, Locked(sys, t, sys.idx), k)
  {
    hide Leads, WellFormed;
    Take(first, sys, k, t, Choice(0, {}), LockRead(k, s), Jump(LockRelease(k, s)));
    var s1 := Advanced(sys, t, LockRelease(k, s));
    ReleaseNext(first, s1, k, t, s);
    assert Locked(s1, t, sys.idx) == Locked(sys, t, sys.idx);
  }

  /** Nothing to enter, or entered already. */
  lemma EmptyReaderFinishes(first: Sys, sys: Sys, k: Key, t: Tid)
    requires Leads(first, sys, k) && t in sys.threads && sys.threads[t].Reads() && sys.threads[t].key == k
    requires !Entering(sys, t, k)
    ensures Leads(first, Locked(sys, t, sys.idx), k)
  {
    IsReady(first, sys, k, t);
    hide Leads, WellFormed;
    if sys.threads[t].LockRead? {
      NothingToEnter(first, sys, k, t, sys.threads[t].s);
    } else {
      ReleaseNext(first, sys, k, t, sys.threads[t].s);
    }
  }

  lemma {:induction false} ReadersFinish(first: Sys, sys: Sys, k: Key, todo: set<Tid>) returns (after: Sys)
    requires Leads(first, sys, k)
    requires forall t | t in todo :: t in sys.threads && sys.threads[t].Reads() && sys.threads[t].key == k
    ensures Leads(first, after, k) && Drained(sys, after, k, todo)
    decreases |todo|
  {
    hide Leads, LockIndex.Owned;
    if todo == {} {
      after := sys;
    } else {
      var t :| t in todo;
      var next := ReaderFinishes(first, sys, k, t);
      after := ReadersFinish(first, next, k, todo - {t});
    }
  }

  /** What a leak needs besides a store that spoils: a Delete and a Lock of the key are still to come, no
      Delete of it is past its map, only Locks of the key hold mutexes, and what states of the key track
      can be locked. */
  ghost predicate Open(sys: Sys, k: Key, d: Tid, l: Tid) {
    && d in sys.threads && sys.threads[d] == DeleteGet(k)
    && l in sys.threads && sys.threads[l] == LockGet(k)
    && !UnlockPending(sys, k)
    && (forall t | t in sys.threads :: !sys.threads[t].Writes() && (sys.threads[t].Reads() ==> sys.threads[t].key == k))
    && forall s | s in sys.heap && sys.heap[s].key == k && sys.heap[s].objectSet.Some? ::
         var groups := sys.heap[s].objectSet.value.groups;
         Members(groups) != {} && !LockIndex.Conflict(sys.idx, k, groups)
  }

  /** The key can end deleted, with no Delete under way, and own objects. */
  ghost predicate CanOrphan(sys: Sys, k: Key) {
    exists after :: Leads(sys, after, k) && Orphaned(after, k)
  }

  lemma UnspoiltCannotOrphan(sys: Sys, k: Key, after: Sys)
    requires NoOrphan(sys, k) && Leads(sys, after, k)
    ensures !Orphaned(after, k)
  {
    var run :| Connects(run, sys, after, k);
    hide NoOrphan;
    RunKeepsNoOrphan(run, k, |run.acts|);
    assert NoOrphan(after, k);
    NoOrphanIsNotOrphaned(after, k);
  }

  lemma NoOrphanIsNotOrphaned(sys: Sys, k: Key)
    requires NoOrphan(sys, k)
    ensures !Orphaned(sys, k)
  {
  }

  /** Threads that return leave no Delete pending. */
  lemma LeakIsOrphan(sys: Sys, after: Sys, k: Key)
    requires !UnlockPending(sys, k) && k !in after.states && LockIndex.Owned(after.idx, k) != {}
    requires forall t | t in after.threads ::
      after.threads[t] == Returned || (t in sys.threads && after.threads[t] == sys.threads[t])
    ensures Orphaned(after, k)
  {
  }

  lemma IsReady(first: Sys, sys: Sys, k: Key, t: Tid)
    requires Leads(first, sys, k) && t in sys.threads
    ensures Ready(sys, t, sys.threads[t])
  {
  }

  /** All threads that hold a mutex return, but for those to be kept. */
  lemma CalmDown(first: Sys, sys: Sys, k: Key, d: Tid, l: Tid, keep: set<Tid>) returns (calm: Sys)
    requires Leads(first, sys, k) && Open(sys, k, d, l)
    ensures Leads(first, calm, k) && calm.states == sys.states && calm.heap == sys.heap
    ensures calm.threads.Keys == sys.threads.Keys
    ensures forall t | t in sys.threads :: calm.threads[t] == sys.threads[t] || calm.threads[t] == Returned
    ensures forall t | t in sys.threads && (!sys.threads[t].Reads() || t in keep) :: calm.threads[t] == sys.threads[t]
    ensures forall t | t in calm.threads && (calm.threads[t].Reads() || calm.threads[t].Writes()) ::
      calm.threads[t].Reads() && t in keep
    ensures forall objects :: LockIndex.Conflict(calm.idx, k, objects) <==> LockIndex.Conflict(sys.idx, k, objects)
  {
    hide Leads, LockIndex.Owned, LockIndex.Conflict;
    calm := ReadersFinish(first, sys, k, set t | t in sys.threads && sys.threads[t].Reads() && t !in keep);
    forall objects ensures LockIndex.Conflict(calm.idx, k, objects) <==> LockIndex.Conflict(sys.idx, k, objects) {
      LockIndex.ConflictDependsOnOthers(sys.idx, calm.idx, k, objects);
    }
  }

  /** What a state of the key tracks, seen from a thread that refers to the state. */
  lemma Lockable(first: Sys, sys: Sys, k: Key, d: Tid, l: Tid, s: Ref)
    requires Leads(first, sys, k) && Open(sys, k, d, l) && SetOf(sys, s).Some? && sys.heap[s].key == k
    ensures var groups := SetOf(sys, s).value.groups; Members(groups) != {} && !LockIndex.Conflict(sys.idx, k, groups)
  {
  }

  lemma SpoiltFetchedOrphans(first: Sys, sys: Sys, k: Key, u: Tid, d: Tid, l: Tid)
    requires Leads(first, sys, k) && Open(sys, k, d, l) && k in sys.states
    requires Fetched(sys, u, k) && sys.threads[u].s != sys.states[k]
    ensures CanOrphan(first, k)
  {
    hide Leads, LockIndex.Conflict, LockIndex.Owned, UnlockPending;
    var s := sys.threads[u].s;
    var os := SetOf(sys, s).value;
    IsReady(first, sys, k, u);
    Lockable(first, sys, k, d, l, s);
    var calm := CalmDown(first, sys, k, d, l, {});
    IsReady(first, calm, k, u);
    IsReady(first, calm, k, d);
    var after := SupersededLockOutlivesDelete(first, calm, k, u, d, s, os);
    LeakIsOrphan(sys, after, k);
  }

  lemma SpoiltEnteringOrphans(first: Sys, sys: Sys, k: Key, u: Tid, d: Tid, l: Tid)
    requires Leads(first, sys, k) && Open(sys, k, d, l) && k in sys.states && sys.states[k] in sys.heap
    requires Entering(sys, u, k) && MuOf(sys, sys.threads[u].s) != MuOf(sys, sys.states[k])
    ensures CanOrphan(first, k)
  {
    hide Leads, LockIndex.Conflict, LockIndex.Owned, UnlockPending;
    var s := sys.threads[u].s;
    var os := SetOf(sys, s).value;
    IsReady(first, sys, k, u);
    Lockable(first, sys, k, d, l, s);
    var calm := CalmDown(first, sys, k, d, l, {u});
    IsReady(first, calm, k, d);
    var after := SupersededEntryOutlivesDelete(first, calm, k, u, d, os);
    LeakIsOrphan(sys, after, k);
  }

  lemma SpoiltDroppingOrphans(first: Sys, sys: Sys, k: Key, v: Tid, d: Tid, l: Tid)
    requires Leads(first, sys, k) && Open(sys, k, d, l)
    requires k in sys.states && sys.states[k] in sys.heap && sys.heap[sys.states[k]].key == k
    requires Dropping(sys, v, k) && sys.threads[v].s != sys.states[k] && SetOf(sys, sys.states[k]).Some?
    ensures CanOrphan(first, k)
  {
    hide Leads, LockIndex.Conflict, LockIndex.Owned, UnlockPending;
    var s := sys.threads[v].s;
    var os := SetOf(sys, sys.states[k]).value;
    Lockable(first, sys, k, d, l, sys.states[k]);
    var calm := CalmDown(first, sys, k, d, l, {});
    IsReady(first, calm, k, v);
    IsReady(first, calm, k, l);
    var after := SupersededDeleteMissesLock(first, calm, k, l, v, s, os);
    LeakIsOrphan(sys, after, k);
  }

  /** The discipline is exact. From a state that keeps the invariant, with a Delete and a Lock still to
      come, the key can end deleted and owning objects after a store if and only if the store spoils the
      invariant: it supersedes a state that a Lock has fetched, it leaves a state whose mutex a Lock that
      is entering does not hold, or it supersedes a state that a Delete is about to drop. */
  lemma OrphansIffSpoilt(sys: Sys, k: Key, w: Tid, s: Ref, d: Tid, l: Tid)
    requires NoOrphan(sys, k) && w in sys.threads && sys.threads[w] == SetStore(k, s) && Open(sys, k, d, l)
    ensures CanOrphan(Stored(sys, w, k, s), k) <==> Spoils(sys, k, s)
  {
    var after := Stored(sys, w, k, s);
    StoreKeepsIffNotSpoils(sys, w, k, s);
    StoreStep(sys, Act(w, Choice(s, {})));
    if Spoils(sys, k, s) {
      SpoiltOrphans(sys, k, w, s, d, l);
    } else if CanOrphan(after, k) {
      hide NoOrphan, Spoils, Open;
      var last :| Leads(after, last, k) && Orphaned(last, k);
      UnspoiltCannotOrphan(after, k, last);
    }
  }

  /** The other threads find after the store what they found before. */
  lemma StoredKeepsOthers(sys: Sys, k: Key, w: Tid, s: Ref)
    requires w in sys.threads && sys.threads[w] == SetStore(k, s)
    ensures forall u | Fetched(sys, u, k) || Entering(sys, u, k) || Dropping(sys, u, k) ::
      Stored(sys, w, k, s).threads[u] == sys.threads[u]
  {
  }

  lemma StoredIsOnItsWay(sys: Sys, k: Key, w: Tid, s: Ref, d: Tid, l: Tid)
    requires WellFormed(sys) && w in sys.threads && sys.threads[w] == SetStore(k, s) && Open(sys, k, d, l)
    ensures var after := Stored(sys, w, k, s);
      && Leads(after, after, k) && Open(after, k, d, l)
      && s in after.heap && after.heap[s].key == k
  {
    StoreStep(sys, Act(w, Choice(s, {})));
    assert PcOk(sys.heap, sys.threads[w]);
    hide Leads, WellFormed, Step, EffectOf, Open;
    LeadsToItself(Stored(sys, w, k, s), k);
    StoredIsOpen(sys, k, w, s, d, l);
  }

  lemma StoredIsOpen(sys: Sys, k: Key, w: Tid, s: Ref, d: Tid, l: Tid)
    requires w in sys.threads && sys.threads[w] == SetStore(k, s) && Open(sys, k, d, l)
    ensures Open(Stored(sys, w, k, s), k, d, l)
  {
    hide LockIndex.Conflict;
  }

  lemma SpoiltOrphans(sys: Sys, k: Key, w: Tid, s: Ref, d: Tid, l: Tid)
    requires WellFormed(sys) && w in sys.threads && sys.threads[w] == SetStore(k, s) && Open(sys, k, d, l)
    requires Spoils(sys, k, s)
    ensures CanOrphan(Stored(sys, w, k, s), k)
  {
    hide Leads, Open, WellFormed, CanOrphan, DoomedBy, WaitedFor;
    var after := Stored(sys, w, k, s);
    StoredIsOnItsWay(sys, k, w, s, d, l);
    StoredKeepsOthers(sys, k, w, s);
    if SpoilsFetched(sys, k, s) {
      var u :| Fetched(sys, u, k) && sys.threads[u].s != s;
      SpoiltFetchedOrphans(after, after, k, u, d, l);
    } else if SpoilsEntering(sys, k, s) {
      var u :| Entering(sys, u, k) && MuOf(sys, sys.threads[u].s) != MuOf(sys, s);
      SpoiltEnteringOrphans(after, after, k, u, d, l);
    } else {
      var v :| Dropping(sys, v, k) && sys.threads[v].s != s && SetOf(sys, s).Some?;
      SpoiltDroppingOrphans(after, after, k, v, d, l);
    }
  }

  // ---------------------------------------------------------------- four calls

  function Building(sys: Sys, t: Tid, pc: Pc, n: Ref, state: State): Sys {
    sys.(threads := sys.threads[t := pc], heap := sys.heap[n := state])
  }

  lemma SetBuilds(first: Sys, sys: Sys, k: Key, t: Tid, n: Ref, args: SetArgs)
    requires Leads(first, sys, k) && Ready(sys, t, SetGet(k, args)) && n !in sys.heap
    requires k in sys.states ==> sys.states[k] in sys.heap && sys.heap[sys.states[k]].key == k
    ensures var o := Current(sys, k);
      var after := Building(sys, t, SetCompare(k, o, n, args), n, Built(sys, k, o, args, n));
      Leads(first, after, k) && Ready(after, t, SetCompare(k, o, n, args))
  {
    hide Leads, WellFormed;
    var o := Current(sys, k);
    SetFetches(first, sys, k, t, args);
    var s1 := Advanced(sys, t, SetCopy(k, o, args));
    SetCopies(first, s1, k, t, n, o, args);
    assert s1.threads[t := SetCompare(k, o, n, args)] == sys.threads[t := SetCompare(k, o, n, args)];
  }

  lemma SetFetches(first: Sys, sys: Sys, k: Key, t: Tid, args: SetArgs)
    requires Leads(first, sys, k) && Ready(sys, t, SetGet(k, args))
    ensures var after := Advanced(sys, t, SetCopy(k, Current(sys, k), args));
      Leads(first, after, k) && Ready(after, t, SetCopy(k, Current(sys, k), args))
  {
    hide Leads, WellFormed;
    Take(first, sys, k, t, Choice(0, {}), SetGet(k, args), Jump(SetCopy(k, Current(sys, k), args)));
  }

  lemma SetCopies(first: Sys, sys: Sys, k: Key, t: Tid, n: Ref, o: Option<Ref>, args: SetArgs)
    requires Leads(first, sys, k) && Ready(sys, t, SetCopy(k, o, args)) && n !in sys.heap
    ensures var after := Building(sys, t, SetCompare(k, o, n, args), n, Built(sys, k, o, args, n));
      Leads(first, after, k) && Ready(after, t, SetCompare(k, o, n, args))
  {
    hide Leads, WellFormed;
    var state := Built(sys, k, o, args, n);
    Take(first, sys, k, t, Choice(n, {}), SetCopy(k, o, args), Allocate(SetCompare(k, o, n, args), n, state));
  }

  /** A Set that changes the object set runs up to its store. */
  lemma SetPrepares(first: Sys, sys: Sys, k: Key, t: Tid, n: Ref, args: SetArgs)
    requires Leads(first, sys, k) && Ready(sys, t, SetGet(k, args)) && n !in sys.heap
    requires k in sys.states ==>
      && sys.states[k] in sys.heap && sys.heap[sys.states[k]].key == k
      && (args.force || (args.objectSet.Some? && args.objectSet != sys.heap[sys.states[k]].objectSet))
    ensures var after := Building(sys, t, SetStore(k, n), n, Built(sys, k, Current(sys, k), args, n));
      Leads(first, after, k) && Ready(after, t, SetStore(k, n))
  {
    hide Leads, WellFormed, MuRead, MuWritten, LockIndex.Lock, LockIndex.Unlock;
    var o := Current(sys, k);
    SetBuilds(first, sys, k, t, n, args);
    var s2 := Building(sys, t, SetCompare(k, o, n, args), n, Built(sys, k, o, args, n));
    Take(first, s2, k, t, Choice(n, {}), SetCompare(k, o, n, args), Jump(SetStore(k, n)));
    assert s2.threads[t := SetStore(k, n)] == sys.threads[t := SetStore(k, n)];
  }

  /** Four calls on an empty register: two Sets of different object sets, a Lock and a Delete. */
  function FourCalls(k: Key, os: ObjectSet, os2: ObjectSet): Sys {
    Sys(map[0 := SetGet(k, SetArgs(Some(os), Some(true), false)), 1 := SetGet(k, SetArgs(Some(os2), Some(true), false)),
            2 := LockGet(k), 3 := DeleteGet(k)], map[], map[], {}, map[])
  }

  lemma FourCallsAreInitial(k: Key, os: ObjectSet, os2: ObjectSet)
    ensures Initial(FourCalls(k, os, os2)) && Leads(FourCalls(k, os, os2), FourCalls(k, os, os2), k)
  {
    LeadsToItself(FourCalls(k, os, os2), k);
  }

  /** The first Set is done. */
  function FirstIsSet(k: Key, os: ObjectSet, os2: ObjectSet): Sys {
    Sys(FourCalls(k, os, os2).threads[0 := Returned], map[k := 0], map[0 := State(k, Some(os), true, 0)], {0}, map[])
  }

  lemma FirstSet(k: Key, os: ObjectSet, os2: ObjectSet)
    ensures Leads(FourCalls(k, os, os2), FirstIsSet(k, os, os2), k)
  {
    hide Leads, EffectOf, Initial;
    var sys := FourCalls(k, os, os2);
    FourCallsAreInitial(k, os, os2);
    SetPrepares(sys, sys, k, 0, 0, sys.threads[0].args);
    var s1 := Building(sys, 0, SetStore(k, 0), 0, State(k, Some(os), true, 0));
    StoreNext(sys, s1, k, 0, 0);
    assert Stored(s1, 0, k, 0) == FirstIsSet(k, os, os2);
  }

  /** The Lock has fetched the state of the first Set, and the second is about to supersede it. */
  function AboutToLeak(k: Key, os: ObjectSet, os2: ObjectSet): Sys {
    Building(FirstIsFetched(k, os, os2), 1, SetStore(k, 1), 1, State(k, Some(os2), true, 0))
  }

  function FirstIsFetched(k: Key, os: ObjectSet, os2: ObjectSet): Sys {
    Advanced(FirstIsSet(k, os, os2), 2, LockAcquire(k, 0))
  }

  lemma FirstSetThenFetch(k: Key, os: ObjectSet, os2: ObjectSet)
    ensures Leads(FourCalls(k, os, os2), FirstIsFetched(k, os, os2), k)
  {
    FirstSet(k, os, os2);
    IsReady(FourCalls(k, os, os2), FirstIsSet(k, os, os2), k, 2);
    hide Leads, EffectOf, WellFormed;
    LockFetches(FourCalls(k, os, os2), FirstIsSet(k, os, os2), k, 2);
  }

  lemma SecondSetPrepares(k: Key, os: ObjectSet, os2: ObjectSet)
    requires os != os2
    ensures Leads(FourCalls(k, os, os2), AboutToLeak(k, os, os2), k)
  {
    var first, sys := FourCalls(k, os, os2), FirstIsFetched(k, os, os2);
    FirstSetThenFetch(k, os, os2);
    IsReady(first, sys, k, 1);
    hide Leads, EffectOf, WellFormed;
    SetPrepares(first, sys, k, 1, 1, first.threads[1].args);
  }

  /** Two runs and the step between them. */
  lemma JoinedRun(first: Sys, pre: Sys, a: Act, next: Sys, last: Sys, k: Key) returns (run: Run)
    requires Leads(first, pre, k) && Moves(pre, a, next) && Leads(next, last, k)
    ensures run.Valid() && run.First() == first && run.Last() == last
  {
    hide Moves, WellFormed, Disciplined;
    var r1 :| Connects(r1, first, pre, k);
    var r2 :| Connects(r2, next, last, k);
    run := Run(r1.states + r2.states, r1.acts + [a] + r2.acts);
    forall i | 0 <= i < |run.acts| ensures Moves(run.states[i], run.acts[i], run.states[i + 1]) {
      if i < |r1.acts| {
        assert Moves(r1.states[i], r1.acts[i], r1.states[i + 1]);
      } else if i > |r1.acts| {
        var j := i - |r1.acts| - 1;
        assert Moves(r2.states[j], r2.acts[j], r2.states[j + 1]);
      }
    }
  }

  lemma AboutToLeakStores(k: Key, os: ObjectSet, os2: ObjectSet)
    requires os != os2
    ensures var pre := AboutToLeak(k, os, os2); var next := Stored(pre, 1, k, 1);
      Moves(pre, Act(1, Choice(1, {})), next) && WellFormed(next)
  {
    SecondSetPrepares(k, os, os2);
    hide WellFormed, EffectOf;
    StoreStep(AboutToLeak(k, os, os2), Act(1, Choice(1, {})));
    hide Step;
  }

  lemma NothingConflicts(k: Key, objects: Objects)
    ensures !LockIndex.Conflict(map[], k, objects)
  {
  }

  lemma StoredLeaks(k: Key, os: ObjectSet, os2: ObjectSet, next: Sys) returns (last: Sys)
    requires next == Stored(AboutToLeak(k, os, os2), 1, k, 1) && WellFormed(next)
    ensures Leads(next, last, k) && forall t | t in last.threads :: last.threads[t] == Returned
    ensures k !in last.states && LockIndex.Owned(last.idx, k) == Members(os.groups)
  {
    hide Leads, EffectOf, WellFormed, PcOk, LockIndex.Owned, LockIndex.Conflict;
    LeadsToItself(next, k);
    IsReady(next, next, k, 2);
    IsReady(next, next, k, 3);
    NothingConflicts(k, os.groups);
    hide Ready;
    last := SupersededLockOutlivesDelete(next, next, k, 2, 3, 0, os);
  }

  /** Four calls suffice: all have returned, k is deleted, and k still owns the objects of its first set. */
  lemma FourCallsLeak(k: Key, os: ObjectSet, os2: ObjectSet) returns (run: Run)
    requires os != os2
    ensures run.Valid() && run.First() == FourCalls(k, os, os2) && Initial(run.First())
    ensures forall t | t in run.Last().threads :: run.Last().threads[t] == Returned
    ensures k !in run.Last().states && LockIndex.Owned(run.Last().idx, k) == Members(os.groups)
  {
    hide Leads, Moves, Initial, WellFormed, Stored, LockIndex.Owned;
    var first, pre := FourCalls(k, os, os2), AboutToLeak(k, os, os2);
    var next := Stored(pre, 1, k, 1);
    FourCallsAreInitial(k, os, os2);
    SecondSetPrepares(k, os, os2);
    AboutToLeakStores(k, os, os2);
    var last := StoredLeaks(k, os, os2, next);
    run := JoinedRun(first, pre, Act(1, Choice(1, {})), next, last, k);
  }
}
