/** When the object set of the last Set survives the Enqueues that race with it. An Enqueue stores a copy of
    the state it has fetched, so what was set in between is lost. */
module LostSets {
  import opened Prelude
  import opened LockProtocol
  import opened LockSafety
  import opened LockLeak
  import opened StateRaces
  import LockProgress

  function CurrentSet(sys: Sys, k: Key): Option<ObjectSet> {
    if k in sys.states then SetOf(sys, sys.states[k]) else None
  }

  /** The current state has been stored, and what is being built has not: each call builds its own. */
  ghost predicate BuiltApart(sys: Sys, k: Key) {
    && (k in sys.states ==> sys.states[k] in sys.emitted)
    && (forall t | t in sys.threads && Builds(sys.threads[t], k) :: sys.threads[t].s !in sys.emitted)
    && (forall t, u | t in sys.threads && u in sys.threads && t != u
          && Builds(sys.threads[t], k) && Builds(sys.threads[u], k) :: sys.threads[t].s != sys.threads[u].s)
  }

  /** What a Delete has dropped does not come back. */
  ghost predicate DroppedForGood(sys: Sys, k: Key) {
    && (forall t | t in sys.threads && sys.threads[t].DeleteWindow(k) :: sys.threads[t].s in sys.emitted)
    && (forall t | t in sys.threads && Gone(sys.threads[t], k) ::
          sys.threads[t].s in sys.emitted && !IsCurrent(sys, k, sys.threads[t].s))
  }

  /** What a Set or Enqueue starts from has been stored. */
  ghost predicate BasesStored(sys: Sys, b: Book, k: Key) {
    forall t | t in sys.threads && (sys.threads[t].SetCopy? || Builds(sys.threads[t], k)) && sys.threads[t].key == k ::
      Basis(b, sys.threads[t]).Some? ==> Basis(b, sys.threads[t]).value in sys.emitted
  }

  ghost predicate Apart(sys: Sys, b: Book, k: Key) {
    BuiltApart(sys, k) && DroppedForGood(sys, k) && BasesStored(sys, b, k)
  }

  /** A step with its effect and what the other lemmas say of it. */
  ghost predicate Stepping(sys: Sys, t: Tid, c: Choice, e: Effect) {
    && WellFormed(sys) && t in sys.threads && EffectOk(sys, t, e)
    && PcOk(sys.heap, sys.threads[t]) && Fits(sys, sys.threads[t], c, e)
  }

  lemma StepKeepsBuiltApart(sys: Sys, t: Tid, c: Choice, e: Effect, k: Key)
    requires Stepping(sys, t, c, e) && BuiltApart(sys, k) && DroppedForGood(sys, k)
    ensures BuiltApart(Perform(sys, t, e), k)
  {
    hide EffectOk, Exclusive;
    forall u | u in sys.threads && Builds(sys.threads[u], k)
      ensures sys.threads[u].s in sys.heap && sys.heap[sys.threads[u].s].key == k
    {
      assert PcOk(sys.heap, sys.threads[u]);
    }
  }

  lemma StepKeepsDroppedForGood(sys: Sys, t: Tid, c: Choice, e: Effect, k: Key)
    requires Stepping(sys, t, c, e) && BuiltApart(sys, k) && DroppedForGood(sys, k)
    ensures DroppedForGood(Perform(sys, t, e), k)
  {
    hide EffectOk, Exclusive;
  }

  lemma StepKeepsBasesStored(sys: Sys, t: Tid, c: Choice, e: Effect, b: Book, k: Key)
    requires Stepping(sys, t, c, e) && Booked(sys, b) && BuiltApart(sys, k) && BasesStored(sys, b, k)
    ensures BasesStored(Perform(sys, t, e), Noted(b, sys, sys.threads[t], c, k), k)
  {
    hide EffectOk, Exclusive, DeletePending, Grown, Gone;
  }

  /** The object set of a state that is being built is the one given, or else that of the state it was
      built from, if that is still the current one. */
  predicate Copied(sys: Sys, b: Book, k: Key, s: Ref) {
    s in b.made ==>
      var m := b.made[s];
      if m.args.objectSet.Some? then SetOf(sys, s) == m.args.objectSet
      else if m.original.None? then SetOf(sys, s) == None
      else IsCurrent(sys, k, m.original.value) ==> SetOf(sys, s) == SetOf(sys, m.original.value)
  }

  predicate AllCopied(sys: Sys, b: Book, k: Key) {
    forall t | t in sys.threads && Builds(sys.threads[t], k) :: Copied(sys, b, k, sys.threads[t].s)
  }

  /** The step leaves the object set of a state that is current, or that is not stored yet. */
  lemma StepKeepsSets(sys: Sys, t: Tid, c: Choice, e: Effect, b: Book, k: Key)
    requires Stepping(sys, t, c, e) && Apart(sys, b, k)
    ensures forall s | s in sys.heap && sys.heap[s].key == k && (IsCurrent(sys, k, s) || s !in sys.emitted) ::
      SetOf(Perform(sys, t, e), s) == SetOf(sys, s)
  {
    hide EffectOk, Exclusive;
  }

  lemma CopiedStays(sys: Sys, t: Tid, c: Choice, e: Effect, b: Book, k: Key, s: Ref)
    requires Stepping(sys, t, c, e) && Booked(sys, b) && Apart(sys, b, k) && Copied(sys, b, k, s)
    requires s in sys.heap && sys.heap[s].key == k && s !in sys.emitted
    requires b.made[s].original.Some? ==> b.made[s].original.value in sys.emitted
    ensures Copied(Perform(sys, t, e), Noted(b, sys, sys.threads[t], c, k), k, s)
  {
    hide EffectOk, Exclusive, DeletePending, Grown, Gone, DroppedForGood, BasesStored;
    StepKeepsSets(sys, t, c, e, b, k);
    var after := Perform(sys, t, e);
    var m := b.made[s];
    assert Noted(b, sys, sys.threads[t], c, k).made[s] == m;
    if m.original.Some? && IsCurrent(after, k, m.original.value) {
      StaysCurrent(sys, t, c, e, k, m.original.value);
    }
    hide Stepping, Apart, Grown, Noted, Perform;
  }

  /** What has been stored is current only if it was. */
  lemma StaysCurrent(sys: Sys, t: Tid, c: Choice, e: Effect, k: Key, o: Ref)
    requires Stepping(sys, t, c, e) && BuiltApart(sys, k) && o in sys.emitted && IsCurrent(Perform(sys, t, e), k, o)
    ensures IsCurrent(sys, k, o) && o in sys.heap && sys.heap[o].key == k
  {
    hide EffectOk, Exclusive, Gone;
  }

  lemma BuiltIsCopied(sys: Sys, t: Tid, c: Choice, e: Effect, b: Book, k: Key)
    requires Stepping(sys, t, c, e) && Booked(sys, b) && e.Allocate?
    ensures Copied(Perform(sys, t, e), Noted(b, sys, sys.threads[t], c, k), k, c.ref)
  {
    hide EffectOk, Exclusive, DeletePending, Grown, Gone, WellFormed;
  }

  lemma StepKeepsCopied(sys: Sys, t: Tid, c: Choice, e: Effect, b: Book, k: Key)
    requires Stepping(sys, t, c, e) && Booked(sys, b) && Apart(sys, b, k) && AllCopied(sys, b, k)
    ensures AllCopied(Perform(sys, t, e), Noted(b, sys, sys.threads[t], c, k), k)
  {
    hide Exclusive, EffectOk, DeletePending, Grown;
    var after, noted := Perform(sys, t, e), Noted(b, sys, sys.threads[t], c, k);
    if e.Allocate? {
      BuiltIsCopied(sys, t, c, e, b, k);
    }
    forall u | u in after.threads && Builds(after.threads[u], k) ensures Copied(after, noted, k, after.threads[u].s) {
      if u == t && e.Allocate? {
      } else {
        assert Builds(sys.threads[u], k) && sys.threads[u].s == after.threads[u].s && PcOk(sys.heap, sys.threads[u]);
        hide Fits, Copied, Gone, Noted, Perform;
        CopiedStays(sys, t, c, e, b, k, sys.threads[u].s);
      }
    }
  }

  ghost predicate SetsOk(sys: Sys, b: Book, k: Key) {
    Booked(sys, b) && Apart(sys, b, k) && AllCopied(sys, b, k)
  }

  lemma StepKeepsSetsOk(sys: Sys, a: Act, b: Book, k: Key)
    requires WellFormed(sys) && Step(sys, a).Some? && SetsOk(sys, b, k)
    ensures SetsOk(Step(sys, a).value, Noted(b, sys, sys.threads[a.thread], a.choice, k), k)
  {
    StepKeepsBooked(sys, a, b, k);
    var e := StepFits(sys, a);
    hide WellFormed, EffectOk, Fits, Noted, Step, BuiltApart, DroppedForGood, BasesStored, AllCopied, Booked, Perform;
    StepKeepsBuiltApart(sys, a.thread, a.choice, e, k);
    StepKeepsDroppedForGood(sys, a.thread, a.choice, e, k);
    StepKeepsBasesStored(sys, a.thread, a.choice, e, b, k);
    StepKeepsCopied(sys, a.thread, a.choice, e, b, k);
  }

  // ---------------------------------------------------------------- the last Set

  /** The register holds the object set of the last Set that was stored, or none after a Delete. */
  predicate Kept(sys: Sys, b: Book, k: Key) {
    CurrentSet(sys, k) == b.wish
  }

  predicate Enqueues(b: Book, pc: Pc, k: Key) {
    pc.SetStore? && pc.key == k && pc.s in b.made && b.made[pc.s].args.objectSet.None?
  }

  /** An Enqueue that stores leaves the object set as it is. */
  predicate LeavesSet(sys: Sys, b: Book, pc: Pc, k: Key) {
    Enqueues(b, pc, k) ==> SetOf(sys, pc.s) == CurrentSet(sys, k)
  }

  lemma CurrentSetAfter(sys: Sys, t: Tid, c: Choice, e: Effect, b: Book, k: Key)
    requires Stepping(sys, t, c, e) && Apart(sys, b, k)
    ensures CurrentSet(Perform(sys, t, e), k)
         == if e.Store? && e.key == k then SetOf(sys, e.ref)
            else if e.Drop? && e.key == k then None
            else CurrentSet(sys, k)
  {
    StepKeepsSets(sys, t, c, e, b, k);
    hide EffectOk, Exclusive, Gone, DroppedForGood, BasesStored;
  }

  lemma StepKeepsIffLeaves(sys: Sys, a: Act, b: Book, k: Key)
    requires WellFormed(sys) && Step(sys, a).Some? && SetsOk(sys, b, k) && Kept(sys, b, k)
    ensures Kept(Step(sys, a).value, Noted(b, sys, sys.threads[a.thread], a.choice, k), k)
       <==> LeavesSet(sys, b, sys.threads[a.thread], k)
  {
    var e := StepFits(sys, a);
    CurrentSetAfter(sys, a.thread, a.choice, e, b, k);
    hide EffectOk, WellFormed, DeletePending, Grown, Gone, Step, Perform, Apart, CurrentSet;
    assert Builds(sys.threads[a.thread], k) ==> Copied(sys, b, k, sys.threads[a.thread].s);
  }

  /** A store of what was built from the current state leaves the object set. */
  lemma FreshLeavesSet(sys: Sys, b: Book, t: Tid, k: Key)
    requires SetsOk(sys, b, k) && t in sys.threads && Fresh(sys, b, sys.threads[t], k)
    ensures LeavesSet(sys, b, sys.threads[t], k)
  {
  }

  ghost predicate AllKept(run: Run, k: Key, n: nat)
    requires run.Valid() && n < |run.states|
  {
    forall i | 0 <= i <= n :: Kept(run.states[i], BookAt(run, k, i), k)
  }

  ghost predicate AllLeave(run: Run, k: Key, n: nat)
    requires run.Valid() && n < |run.states|
  {
    forall i | 0 <= i < n :: LeavesSet(run.states[i], BookAt(run, k, i), PcAt(run, i), k)
  }

  lemma KeptSteps(run: Run, k: Key, n: nat)
    requires run.Valid() && 0 < n < |run.states|
    ensures AllKept(run, k, n) <==> AllKept(run, k, n - 1) && Kept(run.states[n], BookAt(run, k, n), k)
    ensures AllLeave(run, k, n)
       <==> AllLeave(run, k, n - 1) && LeavesSet(run.states[n - 1], BookAt(run, k, n - 1), PcAt(run, n - 1), k)
  {
    hide Kept, LeavesSet, BookAt, PcAt, Moves, WellFormed;
  }

  lemma SetsStart(sys: Sys, k: Key)
    requires Initial(sys)
    ensures SetsOk(sys, EMPTY_BOOK, k) && Kept(sys, EMPTY_BOOK, k)
  {
  }

  lemma {:induction false} RunKeepsSetsOk(run: Run, k: Key, n: nat)
    requires run.Valid() && Initial(run.First()) && n < |run.states|
    ensures SetsOk(run.states[n], BookAt(run, k, n), k)
  {
    hide SetsOk, Noted, WellFormed, Initial, Moves, PcAt, PcOk, Step;
    if n == 0 {
      SetsStart(run.First(), k);
    } else {
      RunKeepsSetsOk(run, k, n - 1);
      BookMoves(run, k, n - 1);
      StepKeepsSetsOk(run.states[n - 1], run.acts[n - 1], BookAt(run, k, n - 1), k);
    }
  }

  /** In every interleaving: the register always holds the object set of the last Set, if and only if no
      Enqueue stores an object set other than the current one. */
  lemma {:induction false} LastSetIsKeptIff(run: Run, k: Key, n: nat)
    requires run.Valid() && Initial(run.First()) && n < |run.states|
    ensures AllKept(run, k, n) <==> AllLeave(run, k, n)
  {
    hide SetsOk, Noted, WellFormed, Initial, Moves, PcAt, PcOk, Step, AllKept, AllLeave, Kept, LeavesSet;
    if n == 0 {
      SetsStart(run.First(), k);
      KeptAtStart(run, k);
    } else {
      LastSetIsKeptIff(run, k, n - 1);
      KeptSteps(run, k, n);
      RunKeepsSetsOk(run, k, n - 1);
      BookMoves(run, k, n - 1);
      if AllKept(run, k, n - 1) {
        KeptNow(run, k, n - 1);
        StepKeepsIffLeaves(run.states[n - 1], run.acts[n - 1], BookAt(run, k, n - 1), k);
      }
    }
  }

  lemma KeptNow(run: Run, k: Key, n: nat)
    requires run.Valid() && n < |run.states| && AllKept(run, k, n)
    ensures Kept(run.states[n], BookAt(run, k, n), k)
  {
  }

  lemma KeptAtStart(run: Run, k: Key)
    requires run.Valid() && Kept(run.First(), EMPTY_BOOK, k)
    ensures AllKept(run, k, 0) && AllLeave(run, k, 0)
  {
  }

  /** So it is if every store is of a state built from the one then current. */
  lemma FreshStoresKeepLastSet(run: Run, k: Key, n: nat)
    requires run.Valid() && Initial(run.First()) && n < |run.states| && AllFresh(run, k, n)
    ensures AllKept(run, k, n)
  {
    hide SetsOk, Noted, WellFormed, Initial, Moves, Step, Kept, LeavesSet, Fresh, AllKept;
    forall i | 0 <= i < n ensures LeavesSet(run.states[i], BookAt(run, k, i), PcAt(run, i), k) {
      RunKeepsSetsOk(run, k, i);
      BookMoves(run, k, i);
      FreshLeavesSet(run.states[i], BookAt(run, k, i), run.acts[i].thread, k);
    }
    LastSetIsKeptIff(run, k, n);
  }

  const ENQUEUE := SetArgs(None, None, true)

  /** The Enqueue goes on from the state o that it has fetched. */
  function Enqueued(sys: Sys, k: Key, t: Tid, o: Ref, s: Ref): Sys
    requires o in sys.heap
  {
    Perform(sys, t, Allocate(SetCompare(k, Some(o), s, ENQUEUE), s, Built(sys, k, Some(o), ENQUEUE, s)))
  }

  lemma EnqueueBuilds(sys: Sys, k: Key, t: Tid, o: Ref, s: Ref)
    requires WellFormed(sys) && t in sys.threads && sys.threads[t] == SetCopy(k, Some(o), ENQUEUE) && s !in sys.heap
    ensures o in sys.heap && Moves(sys, Act(t, Choice(s, {})), Enqueued(sys, k, t, o, s))
    ensures WellFormed(Enqueued(sys, k, t, o, s))
  {
    assert PcOk(sys.heap, sys.threads[t]);
    hide WellFormed, Moves;
    EffectMoves(sys, t, Choice(s, {}),
                Allocate(SetCompare(k, Some(o), s, ENQUEUE), s, Built(sys, k, Some(o), ENQUEUE, s)));
  }

  lemma EnqueueStores(sys: Sys, k: Key, t: Tid, o: Ref, s: Ref)
    requires WellFormed(sys) && t in sys.threads && sys.threads[t] == SetCompare(k, Some(o), s, ENQUEUE)
    ensures var s2 := Perform(sys, t, Jump(SetStore(k, s)));
      var c := Choice(s, {});
      Moves(sys, Act(t, c), s2) && WellFormed(s2) && Moves(s2, Act(t, c), Perform(s2, t, Store(Returned, k, s)))
  {
    assert PcOk(sys.heap, sys.threads[t]);
    hide WellFormed, Moves;
    EffectMoves(sys, t, Choice(s, {}), Jump(SetStore(k, s)));
    EffectMoves(Perform(sys, t, Jump(SetStore(k, s))), t, Choice(s, {}), Store(Returned, k, s));
  }

  /** And this is how it gets lost. An Enqueue that has fetched the state o can, whatever has been stored or
      deleted since, go on to make the object set of o the current one again. */
  lemma LateEnqueueRestores(sys: Sys, k: Key, t: Tid, o: Ref) returns (run: Run)
    requires WellFormed(sys) && t in sys.threads && sys.threads[t] == SetCopy(k, Some(o), ENQUEUE)
    ensures run.Valid() && run.First() == sys && run.Last().threads == sys.threads[t := Returned]
    ensures k in run.Last().states && CurrentSet(run.Last(), k) == SetOf(sys, o)
  {
    hide WellFormed, Moves;
    var s := LockProgress.Above(sys.heap.Keys);
    EnqueueBuilds(sys, k, t, o, s);
    var s1 := Enqueued(sys, k, t, o, s);
    EnqueueStores(s1, k, t, o, s);
    var s2 := Perform(s1, t, Jump(SetStore(k, s)));
    var a := Act(t, Choice(s, {}));
    run := Run([sys, s1, s2, Perform(s2, t, Store(Returned, k, s))], [a, a, a]);
  }
}
