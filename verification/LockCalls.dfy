/** What the calls of the concurrent register come to, in terms of their arguments: which states an OnChange
    applies, what setState builds and whether it stores it, and what is locked in the end. */
module LockCalls {
  import opened Prelude
  import opened LockProtocol
  import opened LockSafety
  import opened LockLeak
  import opened LockWakes
  import opened StateRaces
  import opened LostSets
  import LockIndex
  import LockProgress

  // ---------------------------------------------------------------- what an OnChange applies

  /** How an OnChange goes through its steps. */
  lemma ChangeSteps(sys: Sys, a: Act)
    requires WellFormed(sys) && Step(sys, a).Some?
    ensures var pc, next := sys.threads[a.thread], Step(sys, a).value.threads[a.thread];
      && (pc.ChangeStart? ==> next.ChangeUnlock? && next.key == pc.key && next.s in sys.emitted)
      && (pc.ChangeUnlock? ==> next == ChangeCheck(pc.key, pc.s))
      && (pc.ChangeCheck? ==>
            pc.s in sys.heap && next == if sys.heap[pc.s].locked then ChangeApply(pc.key, pc.s) else Returned)
      && (pc.ChangeApply? ==> next == LockGet(pc.key))
      && (next.ChangeUnlock? ==> pc == ChangeStart(next.key))
      && (next.ChangeCheck? ==> pc == ChangeUnlock(next.key, next.s))
      && (next.ChangeApply? ==> pc == ChangeCheck(next.key, next.s))
      && !pc.Returned? && !next.ChangeStart?
  {
    hide LockIndex.Lock, LockIndex.Unlock, MuRead, MuWritten, Exclusive;
    assert PcOk(sys.heap, sys.threads[a.thread]);
  }

  /** Step i of the run is that thread t looks whether s is locked. */
  ghost predicate Checks(run: Run, i: nat, t: Tid, k: Key, s: Ref)
    requires run.Valid()
  {
    && i < |run.acts| && run.acts[i].thread == t && t in run.states[i].threads
    && run.states[i].threads[t] == ChangeCheck(k, s) && s in run.states[i].heap
  }

  /** Step i of the run is that thread t applies s. */
  ghost predicate Applies(run: Run, i: nat, t: Tid, k: Key, s: Ref)
    requires run.Valid()
  {
    && i < |run.acts| && run.acts[i].thread == t && t in run.states[i].threads
    && run.states[i].threads[t] == ChangeApply(k, s)
  }

  lemma RunStep(run: Run, i: nat)
    requires run.Valid() && i < |run.acts|
    ensures WellFormed(run.states[i]) && Step(run.states[i], run.acts[i]) == Some(run.states[i + 1])
    ensures run.acts[i].thread in run.states[i].threads && run.acts[i].thread in run.states[i + 1].threads
    ensures forall t | t in run.states[i].threads && t != run.acts[i].thread ::
      t in run.states[i + 1].threads && run.states[i + 1].threads[t] == run.states[i].threads[t]
    ensures run.states[i + 1].threads.Keys == run.states[i].threads.Keys
    ensures forall s | s in run.states[i].heap :: s in run.states[i + 1].heap
  {
    assert Moves(run.states[i], run.acts[i], run.states[i + 1]);
    EffectsAreOk(run.states[i], run.acts[i].thread, run.acts[i].choice);
    hide EffectOf, WellFormed;
  }

  /** Whoever is about to apply a state has found it locked, and done nothing since. */
  lemma {:induction false} ApplyHasChecked(run: Run, n: nat, t: Tid) returns (i: nat)
    requires run.Valid() && Initial(run.First()) && n < |run.states|
    requires t in run.states[n].threads && run.states[n].threads[t].ChangeApply?
    ensures i < n && Checks(run, i, t, run.states[n].threads[t].key, run.states[n].threads[t].s)
    ensures run.states[i].heap[run.states[n].threads[t].s].locked
    ensures forall j | i < j < n :: run.acts[j].thread != t
  {
    hide WellFormed, Step, Moves;
    if n == 0 {
      assert false;
    } else {
      RunStep(run, n - 1);
      ChangeSteps(run.states[n - 1], run.acts[n - 1]);
      if run.acts[n - 1].thread == t {
        i := n - 1;
      } else {
        i := ApplyHasChecked(run, n - 1, t);
      }
    }
  }

  /** An OnChange(k) that has not looked at its state yet. */
  predicate Unchecked(pc: Pc, k: Key) {
    pc == ChangeStart(k) || ((pc.ChangeUnlock? || pc.ChangeCheck?) && pc.key == k)
  }

  lemma {:induction false} HasChecked(run: Run, n: nat, t: Tid, k: Key) returns (i: nat, s: Ref)
    requires run.Valid() && n < |run.states| && t in run.First().threads && run.First().threads[t] == ChangeStart(k)
    requires t in run.states[n].threads && !Unchecked(run.states[n].threads[t], k)
    ensures i < n && Checks(run, i, t, k, s)
  {
    hide WellFormed, Step, Moves;
    if n == 0 {
      assert false;
    } else {
      RunStep(run, n - 1);
      ChangeSteps(run.states[n - 1], run.acts[n - 1]);
      if run.acts[n - 1].thread == t && Unchecked(run.states[n - 1].threads[t], k) {
        i, s := n - 1, run.states[n - 1].threads[t].s;
      } else {
        i, s := HasChecked(run, n - 1, t, k);
      }
    }
  }

  lemma {:induction false} ReturnedStays(run: Run, i: nat, n: nat, t: Tid)
    requires run.Valid() && i <= n < |run.states| && t in run.states[i].threads && run.states[i].threads[t] == Returned
    ensures t in run.states[n].threads && run.states[n].threads[t] == Returned
    decreases n - i
  {
    hide WellFormed, Step, Moves;
    if i == n {
    } else {
      RunStep(run, n - 1);
      ChangeSteps(run.states[n - 1], run.acts[n - 1]);
      ReturnedStays(run, i, n - 1, t);
    }
  }

  lemma {:induction false} LeavesApply(run: Run, i: nat, n: nat, t: Tid, k: Key, s: Ref) returns (j: nat)
    requires run.Valid() && i <= n < |run.states| && t in run.states[i].threads
    requires run.states[i].threads[t] == ChangeApply(k, s)
    requires t in run.states[n].threads && run.states[n].threads[t] != ChangeApply(k, s)
    ensures i <= j < n && Applies(run, j, t, k, s)
    decreases n - i
  {
    hide WellFormed, Step, Moves;
    if i == n {
      assert false;
    } else {
      RunStep(run, i);
      if run.acts[i].thread == t {
        j := i;
      } else {
        j := LeavesApply(run, i + 1, n, t, k, s);
      }
    }
  }

  /** In every run, an OnChange that has returned has looked at a state, and has applied it if and only if
      that was locked then. */
  lemma AppliesIffLocked(run: Run, n: nat, t: Tid, k: Key) returns (i: nat, s: Ref)
    requires run.Valid() && n < |run.states| && t in run.First().threads && run.First().threads[t] == ChangeStart(k)
    requires t in run.states[n].threads && run.states[n].threads[t] == Returned
    ensures i < n && Checks(run, i, t, k, s)
    ensures (exists j | i < j < n :: Applies(run, j, t, k, s)) <==> run.states[i].heap[s].locked
  {
    i, s := HasChecked(run, n, t, k);
    hide WellFormed, Step, Moves;
    RunStep(run, i);
    ChangeSteps(run.states[i], run.acts[i]);
    if run.states[i].heap[s].locked {
      var j := LeavesApply(run, i + 1, n, t, k, s);
    } else {
      forall j | i < j < n ensures !Applies(run, j, t, k, s) {
        ReturnedStays(run, i + 1, j, t);
      }
    }
  }

  // ---------------------------------------------------------------- what setState builds

  /** The copy takes what is given; the rest is that of the state it was built from, with which it shares the
      mutex, or the start of a new state. */
  lemma BuildsAsGiven(run: Run, i: nat)
    requires run.Valid() && i < |run.acts| && PcAt(run, i).SetCopy?
    ensures var pc, s, sys, after := PcAt(run, i), run.acts[i].choice.ref, run.states[i], run.states[i + 1];
      var o := pc.original;
      && s !in sys.heap && after.heap.Keys == sys.heap.Keys + {s} && (o.Some? ==> o.value in sys.heap)
      && after.threads[run.acts[i].thread] == SetCompare(pc.key, o, s, pc.args)
      && after.heap[s].key == pc.key
      && (pc.args.objectSet.Some? ==> after.heap[s].objectSet == pc.args.objectSet)
      && (pc.args.objectSet.None? ==> after.heap[s].objectSet == if o.Some? then sys.heap[o.value].objectSet else None)
      && (pc.args.locked.Some? ==> after.heap[s].locked == pc.args.locked.value)
      && (pc.args.locked.None? ==> (after.heap[s].locked <==> o.Some? && sys.heap[o.value].locked))
      && after.heap[s].mu == if o.Some? then sys.heap[o.value].mu else s
  {
    BookMoves(run, PcAt(run, i).key, i);
    hide LockIndex.Lock, LockIndex.Unlock, MuRead, MuWritten, Exclusive;
  }

  /** And it is stored exactly when forced, new, or different. */
  lemma StoresIffDifferent(run: Run, i: nat)
    requires run.Valid() && i < |run.acts| && PcAt(run, i).SetCompare?
    ensures var pc, sys, after := PcAt(run, i), run.states[i], run.states[i + 1];
      && pc.s in sys.heap && (pc.original.Some? ==> pc.original.value in sys.heap)
      && after.threads[run.acts[i].thread]
         == if pc.args.force || pc.original.None?
              || sys.heap[pc.s].objectSet != sys.heap[pc.original.value].objectSet
              || sys.heap[pc.s].locked != sys.heap[pc.original.value].locked
            then SetStore(pc.key, pc.s) else Returned
  {
    BookMoves(run, PcAt(run, i).key, i);
    hide LockIndex.Lock, LockIndex.Unlock, MuRead, MuWritten, Exclusive;
  }

  /** A Delete has sent its event for s between the two points of the run. */
  ghost predicate Deletes(run: Run, s: Ref, i: nat, n: nat)
    requires run.Valid() && n < |run.states|
  {
    exists j | i <= j < n :: PcAt(run, j).DeleteEmit? && PcAt(run, j).s == s
  }

  lemma StepKeepsFlag(sys: Sys, a: Act, s: Ref)
    requires WellFormed(sys) && Step(sys, a).Some? && s in sys.heap
    ensures var pc, after := sys.threads[a.thread], Step(sys, a).value;
      && s in after.heap && after.heap[s].key == sys.heap[s].key && after.heap[s].mu == sys.heap[s].mu
      && (after.heap[s].locked <==> sys.heap[s].locked && !(pc.DeleteEmit? && pc.s == s))
  {
    var e := StepFits(sys, a);
    hide WellFormed, Step, EffectOk, Gone;
  }

  /** A state stays locked, or not, as it was built, until a Delete has sent its event. */
  lemma {:induction false} FlagStays(run: Run, s: Ref, i: nat, n: nat)
    requires run.Valid() && i <= n < |run.states| && s in run.states[i].heap
    ensures s in run.states[n].heap && run.states[n].heap[s].key == run.states[i].heap[s].key
    ensures run.states[n].heap[s].mu == run.states[i].heap[s].mu
    ensures run.states[n].heap[s].locked <==> run.states[i].heap[s].locked && !Deletes(run, s, i, n)
    decreases n - i
  {
    hide WellFormed, Step, Moves, PcAt;
    if i == n {
    } else {
      FlagStays(run, s, i, n - 1);
      BookMoves(run, run.states[i].heap[s].key, n - 1);
      StepKeepsFlag(run.states[n - 1], run.acts[n - 1], s);
      DeletesStep(run, s, i, n);
    }
  }

  lemma DeletesStep(run: Run, s: Ref, i: nat, n: nat)
    requires run.Valid() && i < n < |run.states|
    ensures Deletes(run, s, i, n)
       <==> Deletes(run, s, i, n - 1) || (PcAt(run, n - 1).DeleteEmit? && PcAt(run, n - 1).s == s)
  {
    hide PcAt, WellFormed, Moves;
  }

  /** The state of a Set that gives `false` is never applied, and whoever handles its event enters nothing:
      after its Unlock it returns. */
  lemma {:induction false} UnlockedEntersNothing(run: Run, i: nat, m: nat, n: nat, t: Tid, k: Key, s: Ref)
    requires run.Valid() && i < |run.acts| && m <= n < |run.states|
    requires PcAt(run, i).SetCopy? && PcAt(run, i).args.locked == Some(false) && run.acts[i].choice.ref == s
    requires t in run.states[m].threads && run.states[m].threads[t] == ChangeUnlock(k, s)
    ensures t in run.states[n].threads && run.states[n].threads[t] in {ChangeUnlock(k, s), ChangeCheck(k, s), Returned}
    decreases n - m
  {
    hide WellFormed, Step, Moves, PcAt, Deletes;
    if m == n {
    } else {
      UnlockedEntersNothing(run, i, m, n - 1, t, k, s);
      RunStep(run, n - 1);
      ChangeSteps(run.states[n - 1], run.acts[n - 1]);
      if run.acts[n - 1].thread == t && run.states[n - 1].threads[t].ChangeCheck? {
        BuildsAsGiven(run, i);
        BuiltBefore(run, i, n - 1, s);
        FlagStays(run, s, i + 1, n - 1);
      }
    }
  }

  lemma UnlockedIsNeverApplied(run: Run, i: nat, n: nat, t: Tid, k: Key, s: Ref)
    requires run.Valid() && Initial(run.First()) && i < |run.acts| && n < |run.states|
    requires PcAt(run, i).SetCopy? && PcAt(run, i).args.locked == Some(false) && run.acts[i].choice.ref == s
    ensures t in run.states[n].threads ==> run.states[n].threads[t] != ChangeApply(k, s)
  {
    hide WellFormed, Step, Moves, PcAt, Deletes, Initial;
    if t in run.states[n].threads && run.states[n].threads[t] == ChangeApply(k, s) {
      var j := ApplyHasChecked(run, n, t);
      BuildsAsGiven(run, i);
      BuiltBefore(run, i, j, s);
      FlagStays(run, s, i + 1, j);
    }
  }

  /** Where s is on the heap it has been built. */
  lemma BuiltBefore(run: Run, i: nat, j: nat, s: Ref)
    requires run.Valid() && i < |run.states| && j < |run.states|
    requires s !in run.states[i].heap && s in run.states[j].heap
    ensures i < j
  {
    hide WellFormed, Step, Moves;
    if j <= i {
      HeapGrows(run, j, i, s);
      assert false;
    }
  }

  lemma {:induction false} HeapGrows(run: Run, j: nat, i: nat, s: Ref)
    requires run.Valid() && j <= i < |run.states| && s in run.states[j].heap
    ensures s in run.states[i].heap
    decreases i - j
  {
    hide WellFormed, Step, Moves;
    if i == j {
    } else {
      HeapGrows(run, j, i - 1, s);
      RunStep(run, i - 1);
    }
  }

  // ---------------------------------------------------------------- what an Unlock leaves

  /** The Unlock of an OnChange, that of a Delete, and the call itself leave the key nothing and every other
      key what it had. */
  lemma UnlockLeavesNothing(run: Run, i: nat, r: Resource)
    requires run.Valid() && i < |run.acts|
    requires PcAt(run, i).ChangeUnlock? || PcAt(run, i).DeleteUnlock? || PcAt(run, i).UnlockStart?
    ensures var k, sys, after := PcAt(run, i).key, run.states[i], run.states[i + 1];
      LockIndex.Resolved(after.idx, r)
      == if LockIndex.Resolved(sys.idx, r) == Some(k) then None else LockIndex.Resolved(sys.idx, r)
  {
    BookMoves(run, PcAt(run, i).key, i);
    LockIndex.UnlockResolves(run.states[i].idx, PcAt(run, i).key, r);
    hide LockIndex.Unlock, LockIndex.Resolved, WellFormed;
  }

  // ---------------------------------------------------------------- what is locked in the end

  lemma CalmSpoilsNothing(sys: Sys, k: Key, s: Ref)
    requires WellFormed(sys) && Calm(sys, k)
    ensures !Spoils(sys, k, s)
  {
  }

  /** What a Set or Enqueue leaves that has run by itself. */
  ghost predicate SetDone(sys: Sys, k: Key, t: Tid, args: SetArgs, s: Ref, after: Sys) {
    && s !in sys.heap
    && after.threads == sys.threads[t := Returned] && after.idx == sys.idx
    && after.states == sys.states[k := s] && after.emitted == sys.emitted + {s}
    && after.heap.Keys == sys.heap.Keys + {s} && (forall o | o in sys.heap :: after.heap[o] == sys.heap[o])
    && after.heap[s].key == k
    && (args.objectSet.Some? ==> after.heap[s].objectSet == args.objectSet)
    && (args.objectSet.None? ==> after.heap[s].objectSet == CurrentSet(sys, k))
    && (args.locked.Some? ==> after.heap[s].locked == args.locked.value)
    && (args.locked.None? && k in sys.states && sys.states[k] in sys.heap ==>
          after.heap[s].locked == sys.heap[sys.states[k]].locked)
  }

  /** A Set of a new key, or an Enqueue, runs by itself. */
  lemma SetRuns(first: Sys, sys: Sys, k: Key, t: Tid, args: SetArgs) returns (s: Ref, after: Sys)
    requires Leads(first, sys, k) && Calm(sys, k) && Ready(sys, t, SetGet(k, args))
    requires args.force || k !in sys.states
    ensures Leads(first, after, k) && Calm(after, k) && SetDone(sys, k, t, args, s, after)
  {
    hide Leads, WellFormed, Spoils, Calm, SetDone, Built, Building, PcOk, Stored;
    s := LockProgress.Above(sys.heap.Keys);
    CurrentIsThere(first, sys, k);
    SetPrepares(first, sys, k, t, s, args);
    var ready := Building(sys, t, SetStore(k, s), s, Built(sys, k, Current(sys, k), args, s));
    LeadsIsWellFormed(first, ready, k);
    StaysCalm(sys, t, k, s, args);
    CalmSpoilsNothing(ready, k, s);
    StoreNext(first, ready, k, t, s);
    after := Stored(ready, t, k, s);
    StoreIsDone(sys, t, k, s, args);
  }

  lemma CurrentIsThere(first: Sys, sys: Sys, k: Key)
    requires Leads(first, sys, k)
    ensures k in sys.states ==> sys.states[k] in sys.heap && sys.heap[sys.states[k]].key == k
  {
  }

  lemma StaysCalm(sys: Sys, t: Tid, k: Key, s: Ref, args: SetArgs)
    requires Calm(sys, k) && (k in sys.states ==> sys.states[k] in sys.heap)
    ensures var ready := Building(sys, t, SetStore(k, s), s, Built(sys, k, Current(sys, k), args, s));
      Calm(ready, k) && Calm(Stored(ready, t, k, s), k)
  {
  }

  lemma StoreIsDone(sys: Sys, t: Tid, k: Key, s: Ref, args: SetArgs)
    requires s !in sys.heap && (k in sys.states ==> sys.states[k] in sys.heap)
    ensures var ready := Building(sys, t, SetStore(k, s), s, Built(sys, k, Current(sys, k), args, s));
      SetDone(sys, k, t, args, s, Stored(ready, t, k, s))
  {
  }

  lemma LeadsIsWellFormed(first: Sys, sys: Sys, k: Key)
    requires Leads(first, sys, k)
    ensures WellFormed(sys)
  {
  }

  /** The register tracks `os` for k, and its state says locked. */
  predicate TracksLocked(sys: Sys, k: Key, os: ObjectSet) {
    CurrentSet(sys, k) == Some(os) && k in sys.states && sys.states[k] in sys.heap && sys.heap[sys.states[k]].locked
  }

  /** Some calls have returned, and nothing that was there has changed but the current state. */
  ghost predicate OnlyReturned(sys: Sys, after: Sys, done: set<Tid>) {
    && after.threads.Keys == sys.threads.Keys && after.idx == sys.idx && sys.emitted <= after.emitted
    && (forall u | u in sys.threads :: after.threads[u] == if u in done then Returned else sys.threads[u])
    && forall o | o in sys.heap :: o in after.heap && after.heap[o] == sys.heap[o]
  }

  /** Enqueues of k, one after the other, leave what is tracked. */
  lemma {:induction false} EnqueuesRun(first: Sys, sys: Sys, k: Key, calls: set<Tid>, os: ObjectSet)
    returns (after: Sys)
    requires Leads(first, sys, k) && Calm(sys, k) && TracksLocked(sys, k, os)
    requires forall e | e in calls :: e in sys.threads && sys.threads[e] == SetGet(k, ENQUEUE)
    ensures Leads(first, after, k) && Calm(after, k) && TracksLocked(after, k, os) && OnlyReturned(sys, after, calls)
    decreases |calls|
  {
    hide Leads, Calm, WellFormed, PcOk;
    if calls == {} {
      after := sys;
    } else {
      var e :| e in calls;
      EnqueueIsReady(first, sys, k, e);
      var s, next := SetRuns(first, sys, k, e, ENQUEUE);
      after := EnqueuesRun(first, next, k, calls - {e}, os);
    }
  }

  lemma EnqueueIsReady(first: Sys, sys: Sys, k: Key, t: Tid)
    requires Leads(first, sys, k) && t in sys.threads
    ensures Ready(sys, t, sys.threads[t])
  {
    IsReady(first, sys, k, t);
  }

  /** The handler comes from the event of s, which is locked, to its apply. */
  lemma ChangeRuns(first: Sys, sys: Sys, k: Key, t: Tid, s: Ref)
    requires Leads(first, sys, k) && Ready(sys, t, ChangeStart(k))
    requires s in sys.emitted && s in sys.heap && sys.heap[s].key == k && sys.heap[s].locked
    ensures Leads(first, Handling(sys, t, k, s), k)
  {
    hide Leads, WellFormed, LockIndex.Unlock;
    var c := Choice(s, {});
    Take(first, sys, k, t, c, ChangeStart(k), Jump(ChangeUnlock(k, s)));
    var s1 := Perform(sys, t, Jump(ChangeUnlock(k, s)));
    Take(first, s1, k, t, c, ChangeUnlock(k, s), Reindex(ChangeCheck(k, s), LockIndex.Unlock(sys.idx, k)));
    var s2 := Perform(s1, t, Reindex(ChangeCheck(k, s), LockIndex.Unlock(sys.idx, k)));
    Take(first, s2, k, t, c, ChangeCheck(k, s), Jump(ChangeApply(k, s)));
    assert Perform(s2, t, Jump(ChangeApply(k, s))) == Handling(sys, t, k, s);
  }

  function Handling(sys: Sys, t: Tid, k: Key, s: Ref): Sys {
    sys.(threads := sys.threads[t := ChangeApply(k, s)], idx := LockIndex.Unlock(sys.idx, k))
  }

  lemma StartsCalm(sys: Sys, k: Key)
    requires Initial(sys)
    ensures WellFormed(sys) && Calm(sys, k) && MutexesFree(sys) && sys.states == map[] && sys.idx == map[]
  {
  }

  lemma ReturningKeepsFree(sys: Sys, t: Tid, stored: Sys, calls: set<Tid>, after: Sys)
    requires MutexesFree(sys) && stored.threads == sys.threads[t := Returned] && OnlyReturned(stored, after, calls)
    ensures MutexesFree(after)
  {
  }

  /** The Set and the Enqueues. */
  lemma SetAndEnqueues(sys: Sys, k: Key, t: Tid, calls: set<Tid>, os: ObjectSet, force: bool)
    returns (s: Ref, after: Sys)
    requires Initial(sys) && t in sys.threads && sys.threads[t] == SetGet(k, SetArgs(Some(os), Some(true), force))
    requires t !in calls && forall e | e in calls :: e in sys.threads && sys.threads[e] == SetGet(k, ENQUEUE)
    ensures Leads(sys, after, k) && TracksLocked(after, k, os) && MutexesFree(after) && after.idx == map[]
    ensures after.threads.Keys == sys.threads.Keys
    ensures forall u | u in sys.threads :: after.threads[u] == if u in calls + {t} then Returned else sys.threads[u]
    ensures s in after.emitted && s in after.heap && after.heap[s].key == k && after.heap[s].locked
  {
    hide Initial, Leads, Calm, WellFormed, PcOk, MutexesFree;
    StartsCalm(sys, k);
    LeadsToItself(sys, k);
    EnqueueIsReady(sys, sys, k, t);
    var stored: Sys;
    s, stored := SetRuns(sys, sys, k, t, sys.threads[t].args);
    after := EnqueuesRun(sys, stored, k, calls, os);
    ReturningKeepsFree(sys, t, stored, calls, after);
  }

  /** The OnChange after them. */
  lemma HandlesAndLocks(first: Sys, sys: Sys, k: Key, c: Tid, s: Ref, os: ObjectSet) returns (after: Sys)
    requires Leads(first, sys, k) && TracksLocked(sys, k, os) && MutexesFree(sys) && sys.idx == map[]
    requires c in sys.threads && sys.threads[c] == ChangeStart(k)
    requires s in sys.emitted && s in sys.heap && sys.heap[s].key == k && sys.heap[s].locked
    ensures Leads(first, after, k) && after.threads == sys.threads[c := Returned]
    ensures forall r | r in Members(os.groups) :: LockIndex.Resolved(after.idx, r) == Some(k)
  {
    hide Leads, WellFormed, LockIndex.Unlock, LockIndex.Conflict, LockIndex.Resolved, PcOk;
    EnqueueIsReady(first, sys, k, c);
    ChangeRuns(first, sys, k, c, s);
    NothingLocked(k, os.groups);
    var handling := Handling(sys, c, k, s);
    assert forall mu :: !MuWritten(handling, mu);
    hide MuWritten, MutexesFree;
    after := ApplyCanWakeItself(first, handling, k, c, os);
    assert handling.threads[c := Returned] == sys.threads[c := Returned];
  }

  lemma NothingLocked(k: Key, objects: Objects)
    ensures !LockIndex.Conflict(LockIndex.Unlock(map[], k), k, objects)
  {
  }

  /** From the empty register: a Set of `os` that locks it, any number of Enqueues of the key, and an OnChange
      of the Set's event can all return such that every object of `os` resolves to the key. */
  lemma SetThenChangeLocks(sys: Sys, k: Key, t: Tid, calls: set<Tid>, c: Tid, os: ObjectSet, force: bool)
    returns (after: Sys)
    requires Initial(sys) && {t, c} <= sys.threads.Keys
    requires sys.threads[t] == SetGet(k, SetArgs(Some(os), Some(true), force)) && sys.threads[c] == ChangeStart(k)
    requires t !in calls && forall e | e in calls :: e in sys.threads && sys.threads[e] == SetGet(k, ENQUEUE)
    ensures Leads(sys, after, k) && forall u | u in calls + {t, c} :: u in after.threads && after.threads[u] == Returned
    ensures forall r | r in Members(os.groups) :: LockIndex.Resolved(after.idx, r) == Some(k)
  {
    hide Initial, Leads, TracksLocked, MutexesFree, LockIndex.Resolved;
    var s, enqueued := SetAndEnqueues(sys, k, t, calls, os, force);
    after := HandlesAndLocks(sys, enqueued, k, c, s, os);
  }
}
