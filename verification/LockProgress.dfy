/** The mutexes of the register cannot deadlock: who holds one can always go on. The channel that takes the
    events never blocks its sender here; module EventChannel is about that. */
module LockProgress {
  import opened Prelude
  import opened LockProtocol
  import LockIndex

  ghost predicate CanStep(sys: Sys, t: Tid)
    requires WellFormed(sys)
  {
    exists c :: Step(sys, Act(t, c)).Some?
  }

  /** Returned, or a handler for whose key no event has been sent. */
  ghost predicate Idle(sys: Sys, t: Tid)
    requires WellFormed(sys) && t in sys.threads
  {
    var pc := sys.threads[t];
    pc.Returned? || (pc.ChangeStart? && forall s | s in sys.emitted :: sys.heap[s].key != pc.key)
  }

  /** At a mutex that another thread holds. */
  ghost predicate Waits(sys: Sys, t: Tid)
    requires WellFormed(sys) && t in sys.threads
  {
    var pc := sys.threads[t];
    assert PcOk(sys.heap, pc);
    || (pc.LockAcquire? && MuWritten(sys, sys.heap[pc.s].mu))
    || (pc.DeleteAcquire? && (MuWritten(sys, sys.heap[pc.s].mu) || MuRead(sys, sys.heap[pc.s].mu)))
  }

  lemma {:induction false} Above(refs: set<Ref>) returns (bound: Ref)
    ensures forall r | r in refs :: r < bound
    decreases |refs|
  {
    if refs == {} {
      bound := 0;
    } else {
      var r :| r in refs;
      var b := Above(refs - {r});
      bound := if r < b then b else r + 1;
      assert forall x | x in refs :: x == r || x in refs - {r};
    }
  }

  /** The choice with which a thread that has something to do takes its next step. */
  lemma NextChoice(sys: Sys, t: Tid) returns (c: Choice)
    requires WellFormed(sys) && t in sys.threads && !Idle(sys, t)
    ensures !Waits(sys, t) ==> EffectOf(sys, sys.threads[t], c).Some?
  {
    var pc := sys.threads[t];
    assert PcOk(sys.heap, pc);
    hide LockIndex.Lock, LockIndex.Unlock, MuRead, MuWritten;
    if pc.ChangeStart? {
      var s :| s in sys.emitted && sys.heap[s].key == pc.key;
      c := Choice(s, {});
    } else {
      var unused := Above(sys.heap.Keys);
      c := Choice(unused, {});
    }
  }

  /** Exactly the threads that are idle or wait for a mutex cannot step. */
  lemma StuckIffIdleOrWaits(sys: Sys, t: Tid)
    requires WellFormed(sys) && t in sys.threads
    ensures CanStep(sys, t) <==> !Idle(sys, t) && !Waits(sys, t)
  {
    if !Idle(sys, t) && !Waits(sys, t) {
      var c := NextChoice(sys, t);
      assert Step(sys, Act(t, c)).Some?;
    } else {
      IdleOrWaitingIsStuck(sys, t);
    }
  }

  lemma IdleOrWaitingIsStuck(sys: Sys, t: Tid)
    requires WellFormed(sys) && t in sys.threads && (Idle(sys, t) || Waits(sys, t))
    ensures forall c :: EffectOf(sys, sys.threads[t], c).None?
  {
  }

  /** Whoever holds a mutex can go on. */
  lemma HolderCanStep(sys: Sys, t: Tid)
    requires WellFormed(sys) && t in sys.threads && (sys.threads[t].Reads() || sys.threads[t].Writes())
    ensures CanStep(sys, t)
  {
    StuckIffIdleOrWaits(sys, t);
  }

  /** No deadlock: some thread can step unless all are idle. */
  lemma SomeThreadCanStep(sys: Sys, t: Tid)
    requires WellFormed(sys) && t in sys.threads && !Idle(sys, t)
    ensures exists u | u in sys.threads :: CanStep(sys, u)
  {
    StuckIffIdleOrWaits(sys, t);
    if Waits(sys, t) {
      var u :| u in sys.threads && (sys.threads[u].Reads() || sys.threads[u].Writes());
      HolderCanStep(sys, u);
    }
  }

  // ---------------------------------------------------------------- writers first

  /** Go's RWMutex lets no new reader pass a writer that waits: a Lock may also wait for a Delete that has
      come to the same mutex. */
  ghost predicate WaitsInLine(sys: Sys, t: Tid)
    requires WellFormed(sys) && t in sys.threads
  {
    var pc := sys.threads[t];
    assert PcOk(sys.heap, pc);
    pc.LockAcquire? && exists u | u in sys.threads && sys.threads[u].DeleteAcquire? ::
      sys.threads[u].s in sys.heap && sys.heap[sys.threads[u].s].mu == sys.heap[pc.s].mu
  }

  /** With this rule, too, some thread can step unless all are idle. */
  lemma SomeThreadIsNext(sys: Sys, t: Tid)
    requires WellFormed(sys) && t in sys.threads && !Idle(sys, t)
    ensures exists u | u in sys.threads :: CanStep(sys, u) && !WaitsInLine(sys, u)
  {
    if WaitsInLine(sys, t) {
      var d :| d in sys.threads && sys.threads[d].DeleteAcquire?;
      WaiterOrHolder(sys, d);
    } else {
      WaiterOrHolder(sys, t);
    }
  }

  /** A thread that is not idle can step, or waits for one that can. */
  lemma WaiterOrHolder(sys: Sys, t: Tid)
    requires WellFormed(sys) && t in sys.threads && !Idle(sys, t) && !WaitsInLine(sys, t)
    ensures exists u | u in sys.threads :: CanStep(sys, u) && !WaitsInLine(sys, u)
  {
    StuckIffIdleOrWaits(sys, t);
    if Waits(sys, t) {
      var u :| u in sys.threads && (sys.threads[u].Reads() || sys.threads[u].Writes());
      HolderCanStep(sys, u);
      assert !WaitsInLine(sys, u);
    }
  }
}
