/** The index in every interleaving: the steps of LockProtocol that touch it are operations of LockIndex, so
    that what is proved of its runs holds in every state of every run of the protocol. */
module LockRuns {
  import opened Prelude
  import opened LockProtocol
  import opened LockSafety
  import LockIndex

  /** What a thread at `pc` does to the index in its next step. */
  function OpsOf(pc: Pc, c: Choice): seq<LockIndex.Op> {
    if pc.LockEnter? then [LockIndex.LockOp(pc.key, pc.os.groups, c.written)]
    else if Reindexes(pc) then [LockIndex.UnlockOp(pc.key)]
    else []
  }

  /** The operations of the first n steps. */
  ghost function Ops(run: Run, n: nat): seq<LockIndex.Op>
    requires run.Valid() && n < |run.states|
  {
    if n == 0 then []
    else
      var sys, a := run.states[n - 1], run.acts[n - 1];
      Ops(run, n - 1) + if a.thread in sys.threads then OpsOf(sys.threads[a.thread], a.choice) else []
  }

  lemma StepIsOps(sys: Sys, a: Act)
    requires WellFormed(sys) && Step(sys, a).Some?
    ensures var ops := OpsOf(sys.threads[a.thread], a.choice);
      Step(sys, a).value.idx == if ops == [] then sys.idx else LockIndex.Apply(sys.idx, ops[0])
  {
    hide LockIndex.Lock, LockIndex.Unlock, MuRead, MuWritten, Exclusive;
  }

  lemma {:induction false} IndexIsRunOfOps(run: Run, n: nat)
    requires run.Valid() && Initial(run.First()) && n < |run.states|
    ensures run.states[n].idx == LockIndex.Run(map[], Ops(run, n))
  {
    hide WellFormed, Step, LockIndex.Apply, LockIndex.Run;
    if n == 0 {
      NothingRuns();
    } else {
      var sys, a := run.states[n - 1], run.acts[n - 1];
      IndexIsRunOfOps(run, n - 1);
      assert Moves(sys, a, run.states[n - 1 + 1]);
      StepIsOps(sys, a);
      var ops := OpsOf(sys.threads[a.thread], a.choice);
      if ops == [] {
        assert Ops(run, n) == Ops(run, n - 1);
      } else {
        LockIndex.RunAppend(map[], Ops(run, n - 1), ops[0]);
        assert Ops(run, n) == Ops(run, n - 1) + [ops[0]];
      }
    }
  }

  lemma NothingRuns()
    ensures LockIndex.Run(map[], []) == map[]
  {
  }

  /** What each key holds after n steps. */
  ghost function HeldAfter(run: Run, n: nat, k: Key): set<Resource>
    requires run.Valid() && n < |run.states|
  {
    LockIndex.Held(LockIndex.RunForward(map[], Ops(run, n)), k)
  }

  /** In every state of every interleaving Resolve answers k exactly for the resources that the locks and
      unlocks so far have left to k, and no two keys hold one resource. */
  lemma IndexIsInverse(run: Run, n: nat)
    requires run.Valid() && Initial(run.First()) && n < |run.states|
    ensures forall k, r :: LockIndex.Resolved(run.states[n].idx, r) == Some(k) <==> r in HeldAfter(run, n, k)
    ensures forall a, b | a != b :: HeldAfter(run, n, a) !! HeldAfter(run, n, b)
  {
    IndexIsRunOfOps(run, n);
    LockIndex.RunIsInverse(map[], map[], Ops(run, n));
    hide LockIndex.Resolved, LockIndex.Owned, LockIndex.Held, LockIndex.Run, LockIndex.RunForward;
    forall k, r ensures LockIndex.Resolved(run.states[n].idx, r) == Some(k) <==> r in HeldAfter(run, n, k) {
      LockIndex.OwnedIsResolved(run.states[n].idx, k, r);
    }
    forall a, b | a != b ensures HeldAfter(run, n, a) !! HeldAfter(run, n, b) {
      LockIndex.RunIsExclusive(Ops(run, n), a, b);
    }
  }

  // ---------------------------------------------------------------- no empty inner map

  predicate Proper(os: Option<ObjectSet>) {
    os.Some? ==> NonEmptyGroups(os.value.groups)
  }

  /** No object set that is stored or about to be stored has an empty group. */
  predicate AllProper(sys: Sys) {
    && (forall s | s in sys.heap :: Proper(sys.heap[s].objectSet))
    && (forall t | t in sys.threads && (sys.threads[t].SetGet? || sys.threads[t].SetCopy?) ::
          Proper(sys.threads[t].args.objectSet))
  }

  lemma EffectsAreProper(sys: Sys, t: Tid, c: Choice)
    requires WellFormed(sys) && AllProper(sys) && t in sys.threads
    ensures var e := EffectOf(sys, sys.threads[t], c);
      && (e.Some? && e.value.Allocate? ==> Proper(e.value.state.objectSet))
      && (e.Some? && (e.value.pc.SetGet? || e.value.pc.SetCopy?) ==> Proper(e.value.pc.args.objectSet))
  {
    hide NonEmptyGroups, LockIndex.Lock, LockIndex.Unlock, MuRead, MuWritten, Exclusive;
    assert PcOk(sys.heap, sys.threads[t]);
  }

  /** Then no step locks one either. */
  lemma StepKeepsProper(sys: Sys, a: Act)
    requires WellFormed(sys) && AllProper(sys) && Step(sys, a).Some?
    ensures AllProper(Step(sys, a).value)
    ensures forall op | op in OpsOf(sys.threads[a.thread], a.choice) :: LockIndex.GroupsNonEmpty(op)
  {
    EffectsAreProper(sys, a.thread, a.choice);
    EffectsAreOk(sys, a.thread, a.choice);
    assert PcOk(sys.heap, sys.threads[a.thread]);
    hide NonEmptyGroups, EffectOf, Exclusive;
  }

  lemma {:induction false} RunKeepsProper(run: Run, n: nat)
    requires run.Valid() && AllProper(run.First()) && n < |run.states|
    ensures AllProper(run.states[n])
    ensures forall op | op in Ops(run, n) :: LockIndex.GroupsNonEmpty(op)
  {
    hide AllProper, WellFormed, Step, LockIndex.GroupsNonEmpty;
    if n == 0 {
    } else {
      RunKeepsProper(run, n - 1);
      assert Moves(run.states[n - 1], run.acts[n - 1], run.states[n - 1 + 1]);
      StepKeepsProper(run.states[n - 1], run.acts[n - 1]);
    }
  }

  /** In every state of every interleaving no inner map of the index is empty, if no object set that is
      given to Set has an empty group. */
  lemma InnerMapsAreNonEmpty(run: Run, n: nat)
    requires run.Valid() && Initial(run.First()) && AllProper(run.First()) && n < |run.states|
    ensures LockIndex.NoEmptyInner(run.states[n].idx)
  {
    IndexIsRunOfOps(run, n);
    RunKeepsProper(run, n);
    LockIndex.RunKeepsInnerNonEmpty(map[], Ops(run, n));
  }
}
