/** When the changes that an OnChange applies wake it again.

    The handler unlocks its key before it applies, so that its own changes do not enqueue it. But a change
    is resolved in another controller, whenever that controller comes to the event, and nothing makes
    this happen before the deferred Lock. Here is exactly when a change wakes the key. */
module LockWakes {
  import opened Prelude
  import opened LockProtocol
  import opened LockSafety
  import opened LockLeak
  import LockIndex

  /** The step gives `k` new entries or takes them away; a Lock that is refused does neither. */
  ghost predicate Replaces(sys: Sys, a: Act, k: Key) {
    && a.thread in sys.threads
    && var pc := sys.threads[a.thread];
       Reindexes(pc) && pc.key == k && (pc.LockEnter? ==> !LockIndex.Conflict(sys.idx, k, pc.os.groups))
  }

  /** The step is a Lock(k) that enters `r`. */
  ghost predicate Enters(sys: Sys, a: Act, k: Key, r: Resource) {
    && Replaces(sys, a, k)
    && sys.threads[a.thread].LockEnter?
    && r in Members(LockIndex.Restrict(sys.threads[a.thread].os.groups, a.choice.written))
  }

  lemma StepResolves(sys: Sys, a: Act, k: Key, r: Resource)
    requires WellFormed(sys) && Step(sys, a).Some?
    ensures LockIndex.Resolved(Step(sys, a).value.idx, r) == Some(k)
       <==> if Replaces(sys, a, k) then Enters(sys, a, k, r) else LockIndex.Resolved(sys.idx, r) == Some(k)
  {
    var pc := sys.threads[a.thread];
    var after := Step(sys, a).value;
    assert PcOk(sys.heap, pc);
    LockIndex.OwnedIsResolved(sys.idx, k, r);
    LockIndex.OwnedIsResolved(after.idx, k, r);
    if Reindexes(pc) {
      ReindexResolves(sys, pc, a.choice, k);
    } else {
      OthersKeepIndex(sys, pc, a.choice);
    }
    hide EffectOf, WellFormed, LockIndex.Owned, LockIndex.Resolved, LockIndex.Conflict;
  }

  lemma OthersKeepIndex(sys: Sys, pc: Pc, c: Choice)
    requires PcOk(sys.heap, pc) && sys.emitted <= sys.heap.Keys && !Reindexes(pc)
    ensures var e := EffectOf(sys, pc, c); e.Some? ==> !e.value.Reindex?
  {
  }

  /** What `k` owns after a step that touches the index. */
  lemma ReindexResolves(sys: Sys, pc: Pc, c: Choice, k: Key)
    requires PcOk(sys.heap, pc) && sys.emitted <= sys.heap.Keys && Reindexes(pc)
    ensures var e := EffectOf(sys, pc, c);
      && e.Some? && e.value.Reindex?
      && LockIndex.Owned(e.value.idx, k)
         == if pc.key != k then LockIndex.Owned(sys.idx, k)
            else if !pc.LockEnter? then {}
            else if LockIndex.Conflict(sys.idx, k, pc.os.groups) then LockIndex.Owned(sys.idx, k)
            else Members(LockIndex.Restrict(pc.os.groups, c.written))
  {
    if pc.LockEnter? {
      LockIndex.LockIsExact(sys.idx, pc.key, pc.os.groups, c.written);
    } else {
      LockIndex.UnlockIsExact(sys.idx, pc.key);
    }
    hide LockIndex.Owned, LockIndex.Conflict, LockIndex.Unlock;
  }

  /** Some step from n on entered `r` for `k`, and none before m has replaced that. */
  ghost predicate EnteredBetween(run: Run, k: Key, r: Resource, n: nat, m: nat)
    requires run.Valid() && m < |run.states|
  {
    exists i | n <= i < m ::
      && Enters(run.states[i], run.acts[i], k, r)
      && forall j | i < j < m :: !Replaces(run.states[j], run.acts[j], k)
  }

  lemma EnteredStep(run: Run, k: Key, r: Resource, n: nat, m: nat)
    requires run.Valid() && n < m < |run.states|
    ensures EnteredBetween(run, k, r, n, m)
       <==> if Replaces(run.states[m - 1], run.acts[m - 1], k) then Enters(run.states[m - 1], run.acts[m - 1], k, r)
            else EnteredBetween(run, k, r, n, m - 1)
  {
    hide Enters, Replaces;
    var sys, a := run.states[m - 1], run.acts[m - 1];
    if Replaces(sys, a, k) {
      if EnteredBetween(run, k, r, n, m) {
        var i :| n <= i < m && Enters(run.states[i], run.acts[i], k, r)
          && forall j | i < j < m :: !Replaces(run.states[j], run.acts[j], k);
        assert i == m - 1;
      }
    } else {
      EntersReplaces(sys, a, k, r);
    }
  }

  lemma EntersReplaces(sys: Sys, a: Act, k: Key, r: Resource)
    ensures Enters(sys, a, k, r) ==> Replaces(sys, a, k)
  {
  }

  lemma NothingEnteredYet(run: Run, k: Key, r: Resource, n: nat)
    requires run.Valid() && n < |run.states|
    ensures !EnteredBetween(run, k, r, n, n)
  {
  }

  lemma MoveIsStep(run: Run, i: nat)
    requires run.Valid() && i < |run.acts|
    ensures WellFormed(run.states[i]) && Step(run.states[i], run.acts[i]) == Some(run.states[i + 1])
  {
    assert Moves(run.states[i], run.acts[i], run.states[i + 1]);
  }

  /** From a state in which k owns nothing, Resolve comes to answer k for r exactly when the last step that
      replaced the entries of k was a Lock that entered r. */
  lemma {:induction false} ResolvedIffEntered(run: Run, k: Key, r: Resource, n: nat, m: nat)
    requires run.Valid() && n <= m < |run.states|
    requires LockIndex.Resolved(run.states[n].idx, r) != Some(k)
    ensures LockIndex.Resolved(run.states[m].idx, r) == Some(k) <==> EnteredBetween(run, k, r, n, m)
  {
    hide Replaces, Enters, EnteredBetween, WellFormed, Step, LockIndex.Resolved;
    if m == n {
      NothingEnteredYet(run, k, r, n);
    } else {
      ResolvedIffEntered(run, k, r, n, m - 1);
      MoveIsStep(run, m - 1);
      StepResolves(run.states[m - 1], run.acts[m - 1], k, r);
      EnteredStep(run, k, r, n, m);
    }
  }

  // ---------------------------------------------------------------- changes in flight

  /** A change of `r` that was made at one point of a run and is delivered to the watcher at a later one. */
  datatype Change = Change(r: Resource, made: nat, delivered: nat)

  /** What the watcher does with it: the key that Resolve answers is enqueued. */
  predicate Wakes(run: Run, c: Change, k: Key)
    requires c.delivered < |run.states|
  {
    LockIndex.Resolved(run.states[c.delivered].idx, c.r) == Some(k)
  }

  /** In every interleaving with one handler per key: a change that an OnChange(k) makes in its apply wakes
      k exactly when it is delivered after a Lock(k), its own deferred one or a later one, has entered the
      resource, and before that is undone. */
  lemma ApplyWakesIffDeliveredLate(run: Run, k: Key, t: Tid, c: Change)
    requires run.Valid() && Initial(run.First()) && c.made <= c.delivered < |run.states|
    requires forall i | 0 <= i <= c.made :: OneHandler(run.states[i], k)
    requires t in run.states[c.made].threads && run.states[c.made].threads[t].ChangeApply?
    requires run.states[c.made].threads[t].key == k
    ensures Wakes(run, c, k) <==> EnteredBetween(run, k, c.r, c.made, c.delivered)
  {
    NothingResolvesInWindow(run, k, c.made, t, c.r);
    ResolvedIffEntered(run, k, c.r, c.made, c.delivered);
  }

  /** And this does happen. Whenever an OnChange(k) is about to apply while the current state of k tracks
      objects that nobody else has locked, and the state's mutex is not being written, the run can go on so
      that the call returns and every change of such an object that is delivered then wakes k. */
  lemma ApplyCanWakeItself(first: Sys, sys: Sys, k: Key, t: Tid, os: ObjectSet) returns (after: Sys)
    requires Leads(first, sys, k) && t in sys.threads && sys.threads[t].ChangeApply? && sys.threads[t].key == k
    requires k in sys.states && SetOf(sys, sys.states[k]) == Some(os) && !MuWritten(sys, sys.heap[sys.states[k]].mu)
    requires !LockIndex.Conflict(sys.idx, k, os.groups)
    ensures Leads(first, after, k) && after.threads == sys.threads[t := Returned]
    ensures forall r | r in Members(os.groups) :: LockIndex.Resolved(after.idx, r) == Some(k)
  {
    var s := sys.states[k];
    hide Leads, WellFormed, EffectOf, LockIndex.Lock, LockIndex.Unlock, LockIndex.Conflict, LockIndex.Resolved;
    ApplyThenFetch(first, sys, k, t);
    MutexStaysFree(sys, t, k, s);
    LockEnters(first, Advanced(sys, t, LockAcquire(k, s)), k, t, s, os);
    after := Locked(sys, t, LockIndex.Lock(sys.idx, k, os.groups, os.groups.Keys));
    assert Advanced(sys, t, LockAcquire(k, s)).threads[t := Returned] == sys.threads[t := Returned];
    LockedResolves(sys.idx, k, os.groups);
  }

  lemma ApplyThenFetch(first: Sys, sys: Sys, k: Key, t: Tid)
    requires Leads(first, sys, k) && t in sys.threads && sys.threads[t].ChangeApply? && sys.threads[t].key == k
    requires k in sys.states
    ensures var after := Advanced(sys, t, LockAcquire(k, sys.states[k]));
      Leads(first, after, k) && Ready(after, t, LockAcquire(k, sys.states[k]))
  {
    IsReady(first, sys, k, t);
    hide Leads, WellFormed;
    Take(first, sys, k, t, Choice(0, {}), sys.threads[t], Jump(LockGet(k)));
    var s1 := Advanced(sys, t, LockGet(k));
    LockFetches(first, s1, k, t);
    assert s1.threads[t := LockAcquire(k, sys.states[k])] == sys.threads[t := LockAcquire(k, sys.states[k])];
  }

  lemma MutexStaysFree(sys: Sys, t: Tid, k: Key, s: Ref)
    requires t in sys.threads && s in sys.heap && !MuWritten(sys, sys.heap[s].mu)
    ensures !MuWritten(Advanced(sys, t, LockAcquire(k, s)), sys.heap[s].mu)
  {
  }

  /** Once a Lock has entered its object set, every member is resolved to it. */
  lemma LockedResolves(idx: LockIndex.Index, k: Key, objects: Objects)
    requires !LockIndex.Conflict(idx, k, objects)
    ensures forall r | r in Members(objects) ::
      LockIndex.Resolved(LockIndex.Lock(idx, k, objects, objects.Keys), r) == Some(k)
  {
    LockIndex.LockIsExact(idx, k, objects, objects.Keys);
    assert LockIndex.Restrict(objects, objects.Keys) == objects;
    hide LockIndex.Lock, LockIndex.Owned, LockIndex.Resolved, LockIndex.Conflict;
    forall r | r in Members(objects)
      ensures LockIndex.Resolved(LockIndex.Lock(idx, k, objects, objects.Keys), r) == Some(k)
    {
      LockIndex.OwnedIsResolved(LockIndex.Lock(idx, k, objects, objects.Keys), k, r);
    }
  }
}
