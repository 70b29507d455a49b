/** Calls of Set, Enqueue and Delete that race for one key. setState reads the state under one lock and
    writes it under another, and deleteState drops it from the map before it sends the Deleted event. Here
    is exactly when an informer still sees what the register holds, when the log of events stays in order,
    and when the last Set survives. */
module StateRaces {
  import opened Prelude
  import opened EventLog
  import opened LockProtocol
  import opened LockSafety
  import opened LockLeak
  import LockIndex

  /** How setState built a state: from which one, with which arguments, at which generation. */
  datatype Made = Made(original: Option<Ref>, args: SetArgs, generation: nat)

  /** What has become of the calls for one key: the states built so far, the events sent, the state that
      replaying them leaves, the object set of the last Set since the last Delete, and whether the current
      state was stored while a Delete had yet to send its event. */
  datatype Book = Book(
    made: map<Ref, Made>, log: seq<Entry>, seen: Option<Ref>, wish: Option<ObjectSet>, overtook: bool)

  const EMPTY_BOOK := Book(map[], [], None, None, false)

  function GenerationOf(made: map<Ref, Made>, s: Option<Ref>): Option<nat> {
    if s.Some? && s.value in made then Some(made[s.value].generation) else None
  }

  function MadeFrom(made: map<Ref, Made>, original: Option<Ref>, args: SetArgs): Made {
    var g := GenerationOf(made, original);
    Made(original, args, if g.None? then 0 else g.value + 1)
  }

  function EventOf(k: Key, kind: EventType, generation: nat): Entry {
    Entry(kind, k, generation, Decimal(generation))
  }

  /** A Delete(k) has dropped its state and not yet sent the event. */
  predicate Gone(pc: Pc, k: Key) {
    (pc.DeleteAcquire? || pc.DeleteNil? || pc.DeleteRelease? || pc.DeleteEmit?) && pc.key == k
  }

  ghost predicate DeletePending(sys: Sys, k: Key) {
    exists d | d in sys.threads :: Gone(sys.threads[d], k)
  }

  /** The book after a thread at `pc` has taken a step in `sys`. */
  ghost function Noted(b: Book, sys: Sys, pc: Pc, c: Choice, k: Key): Book {
    if pc.SetCopy? then
      b.(made := b.made[c.ref := MadeFrom(b.made, pc.original, pc.args)])
    else if pc.SetStore? && pc.key == k && pc.s in b.made then
      var m := b.made[pc.s];
      b.(log := b.log + [EventOf(k, if m.original.None? then Added else Modified, m.generation)],
         seen := Some(pc.s),
         wish := if m.args.objectSet.Some? then m.args.objectSet else b.wish,
         overtook := DeletePending(sys, k))
    else if pc.DeleteMap? && pc.key == k then
      b.(wish := None, overtook := false)
    else if pc.DeleteEmit? && pc.key == k && pc.s in b.made then
      b.(log := b.log + [EventOf(k, Deleted, b.made[pc.s].generation)], seen := None)
    else b
  }

  ghost function PcAt(run: Run, i: nat): Pc
    requires run.Valid() && i < |run.acts|
  {
    assert Moves(run.states[i], run.acts[i], run.states[i + 1]);
    run.states[i].threads[run.acts[i].thread]
  }

  ghost function BookAt(run: Run, k: Key, n: nat): Book
    requires run.Valid() && n < |run.states|
  {
    if n == 0 then EMPTY_BOOK
    else Noted(BookAt(run, k, n - 1), run.states[n - 1], PcAt(run, n - 1), run.acts[n - 1].choice, k)
  }

  // ---------------------------------------------------------------- what a step does

  /** The steps that matter here, one by one. */
  ghost predicate Fits(sys: Sys, pc: Pc, c: Choice, e: Effect) {
    && (e.Store? <==> pc.SetStore?) && (e.Store? ==> e == Store(Returned, pc.key, pc.s))
    && (e.Drop? <==> pc.DeleteMap?) && (e.Drop? ==> e == Drop(DeleteAcquire(pc.key, pc.s), pc.key))
    && (e.Clear? <==> pc.DeleteNil?) && (e.Clear? ==> e == Clear(DeleteRelease(pc.key, pc.s), pc.s))
    && (e.Announce? <==> pc.DeleteEmit?) && (e.Announce? ==> e == Announce(DeleteUnlock(pc.key), pc.s))
    && (e.Allocate? <==> pc.SetCopy?)
    && (e.Allocate? ==>
          && c.ref !in sys.heap && (pc.original.Some? ==> pc.original.value in sys.heap)
          && e == Allocate(SetCompare(pc.key, pc.original, c.ref, pc.args), c.ref,
                           Built(sys, pc.key, pc.original, pc.args, c.ref)))
    && (e.pc.SetCopy? ==> pc.SetGet? && e.pc == SetCopy(pc.key, Current(sys, pc.key), pc.args))
    && (e.pc.SetCompare? ==> e.Allocate?)
    && (e.pc.SetStore? ==> pc.SetCompare? && e.pc == SetStore(pc.key, pc.s))
    && (e.pc.DeleteMap? ==> pc.DeleteGet? && e.pc.key == pc.key && IsCurrent(sys, pc.key, e.pc.s))
    && (forall k :: Gone(pc, k) && !e.Announce? ==> Gone(e.pc, k) && e.pc.s == pc.s)
    && (forall k :: Gone(e.pc, k) && !e.Drop? ==> Gone(pc, k) && e.pc.s == pc.s)
  }

  lemma SetsFit(sys: Sys, pc: Pc, c: Choice)
    requires PcOk(sys.heap, pc) && sys.emitted <= sys.heap.Keys && !pc.InChange() && !pc.InLock() && !pc.InDelete()
    ensures var e := EffectOf(sys, pc, c); e.Some? ==> Fits(sys, pc, c, e.value)
  {
    hide LockIndex.Unlock;
  }

  lemma DeletesFit(sys: Sys, pc: Pc, c: Choice)
    requires PcOk(sys.heap, pc) && sys.emitted <= sys.heap.Keys && pc.InDelete()
    ensures var e := EffectOf(sys, pc, c); e.Some? ==> Fits(sys, pc, c, e.value)
  {
    hide LockIndex.Unlock, MuRead, MuWritten;
  }

  lemma ChangesAndLocksFit(sys: Sys, pc: Pc, c: Choice)
    requires PcOk(sys.heap, pc) && sys.emitted <= sys.heap.Keys && (pc.InChange() || pc.InLock())
    ensures var e := EffectOf(sys, pc, c); e.Some? ==> Fits(sys, pc, c, e.value)
  {
    hide LockIndex.Lock, LockIndex.Unlock, MuRead, MuWritten;
  }

  /** A step as its effect. */
  lemma StepFits(sys: Sys, a: Act) returns (e: Effect)
    requires WellFormed(sys) && Step(sys, a).Some?
    ensures a.thread in sys.threads && PcOk(sys.heap, sys.threads[a.thread]) && EffectOk(sys, a.thread, e)
    ensures Step(sys, a).value == Perform(sys, a.thread, e) && Fits(sys, sys.threads[a.thread], a.choice, e)
  {
    var pc := sys.threads[a.thread];
    assert PcOk(sys.heap, pc);
    EffectsAreOk(sys, a.thread, a.choice);
    e := EffectOf(sys, pc, a.choice).value;
    hide EffectOf, EffectOk, Exclusive, PcOk, Fits;
    if pc.InDelete() {
      DeletesFit(sys, pc, a.choice);
    } else if pc.InChange() || pc.InLock() {
      ChangesAndLocksFit(sys, pc, a.choice);
    } else {
      SetsFit(sys, pc, a.choice);
    }
  }

  // ---------------------------------------------------------------- the informer and the register

  /** Every state is built from one that was there. */
  ghost predicate Grown(made: map<Ref, Made>) {
    forall s | s in made ::
      && made[s] == MadeFrom(made, made[s].original, made[s].args)
      && (made[s].original.Some? ==> made[s].original.value in made)
  }

  ghost predicate Booked(sys: Sys, b: Book) {
    b.made.Keys == sys.heap.Keys && (b.seen.Some? ==> b.seen.value in b.made) && Grown(b.made)
  }

  lemma BuildingKeepsGrown(made: map<Ref, Made>, s: Ref, original: Option<Ref>, args: SetArgs)
    requires Grown(made) && s !in made && (original.Some? ==> original.value in made)
    ensures Grown(made[s := MadeFrom(made, original, args)])
  {
  }

  lemma StepKeepsBooked(sys: Sys, a: Act, b: Book, k: Key)
    requires WellFormed(sys) && Step(sys, a).Some? && Booked(sys, b)
    ensures Booked(Step(sys, a).value, Noted(b, sys, sys.threads[a.thread], a.choice, k))
  {
    var e := StepFits(sys, a);
    var pc := sys.threads[a.thread];
    hide WellFormed, Step, EffectOk, DeletePending, Grown, MadeFrom, Gone;
    if pc.SetCopy? {
      BuildingKeepsGrown(b.made, a.choice.ref, pc.original, pc.args);
    } else {
      assert HeapAfter(sys.heap, e).Keys == sys.heap.Keys;
    }
  }

  /** What replaying the events yields, compared with the map. */
  ghost predicate InformerOk(sys: Sys, b: Book, k: Key) {
    if k !in sys.states then !b.overtook && (b.seen.Some? ==> DeletePending(sys, k))
    else if !b.overtook then b.seen == Some(sys.states[k]) && !DeletePending(sys, k)
    else b.seen == None || (b.seen == Some(sys.states[k]) && DeletePending(sys, k))
  }

  lemma StepKeepsInformer(sys: Sys, a: Act, b: Book, k: Key)
    requires WellFormed(sys) && Step(sys, a).Some? && Booked(sys, b) && InformerOk(sys, b, k)
    ensures InformerOk(Step(sys, a).value, Noted(b, sys, sys.threads[a.thread], a.choice, k), k)
  {
    var e := StepFits(sys, a);
    PendingAfter(sys, a.thread, a.choice, e, k);
    hide WellFormed, Step, EffectOk, DeletePending, Gone, HeapAfter, Grown;
  }

  lemma PendingAfter(sys: Sys, t: Tid, c: Choice, e: Effect, k: Key)
    requires t in sys.threads && Fits(sys, sys.threads[t], c, e) && (e.Clear? || e.Announce? ==> e.ref in sys.heap)
    ensures var after := Perform(sys, t, e);
      && (e.Drop? && e.key == k ==> DeletePending(after, k))
      && (!(e.Drop? && e.key == k) && DeletePending(after, k) ==> DeletePending(sys, k))
      && (DeletePending(sys, k) ==> DeletePending(after, k) || (e.Announce? && sys.threads[t].key == k))
  {
    var after := Perform(sys, t, e);
    if DeletePending(sys, k) {
      var d :| d in sys.threads && Gone(sys.threads[d], k);
      assert after.threads[d] == if d == t then e.pc else sys.threads[d];
    }
    if e.Drop? && e.key == k {
      assert Gone(after.threads[t], k);
    }
  }

  lemma BookMoves(run: Run, k: Key, i: nat)
    requires run.Valid() && i < |run.acts|
    ensures WellFormed(run.states[i]) && Step(run.states[i], run.acts[i]) == Some(run.states[i + 1])
    ensures PcAt(run, i) == run.states[i].threads[run.acts[i].thread] && PcOk(run.states[i].heap, PcAt(run, i))
    ensures BookAt(run, k, i + 1)
         == Noted(BookAt(run, k, i), run.states[i], PcAt(run, i), run.acts[i].choice, k)
  {
    assert Moves(run.states[i], run.acts[i], run.states[i + 1]);
    hide Noted;
  }

  lemma BookStarts(sys: Sys, k: Key)
    requires Initial(sys)
    ensures Booked(sys, EMPTY_BOOK) && InformerOk(sys, EMPTY_BOOK, k)
  {
  }

  lemma {:induction false} RunKeepsBook(run: Run, k: Key, n: nat)
    requires run.Valid() && Initial(run.First()) && n < |run.states|
    ensures Booked(run.states[n], BookAt(run, k, n)) && InformerOk(run.states[n], BookAt(run, k, n), k)
  {
    hide Booked, InformerOk, Noted, WellFormed, Step, Initial, Moves, PcAt, PcOk;
    if n == 0 {
      BookStarts(run.First(), k);
    } else {
      RunKeepsBook(run, k, n - 1);
      BookMoves(run, k, n - 1);
      StepKeepsBooked(run.states[n - 1], run.acts[n - 1], BookAt(run, k, n - 1), k);
      StepKeepsInformer(run.states[n - 1], run.acts[n - 1], BookAt(run, k, n - 1), k);
    }
  }

  /** The step at i is a store or a drop of k. */
  ghost predicate Touches(run: Run, k: Key, i: nat)
    requires run.Valid() && i < |run.acts|
  {
    var pc := PcAt(run, i);
    (pc.SetStore? || pc.DeleteMap?) && pc.key == k
  }

  /** The last step that touched k in the map is a store made while a Delete(k) had yet to send its event. */
  ghost predicate StoreOvertakes(run: Run, k: Key, n: nat)
    requires run.Valid() && n < |run.states|
  {
    exists i | 0 <= i < n ::
      && Touches(run, k, i) && PcAt(run, i).SetStore? && DeletePending(run.states[i], k)
      && forall j | i < j < n :: !Touches(run, k, j)
  }

  lemma OvertakesStep(run: Run, k: Key, n: nat)
    requires run.Valid() && 0 < n < |run.states|
    ensures StoreOvertakes(run, k, n)
       <==> if Touches(run, k, n - 1) then PcAt(run, n - 1).SetStore? && DeletePending(run.states[n - 1], k)
            else StoreOvertakes(run, k, n - 1)
  {
    hide Touches, PcAt, Moves, WellFormed, DeletePending;
    if StoreOvertakes(run, k, n) {
      var i :| 0 <= i < n && Touches(run, k, i) && PcAt(run, i).SetStore? && DeletePending(run.states[i], k)
        && forall j | i < j < n :: !Touches(run, k, j);
      assert i < n - 1 ==> StoreOvertakes(run, k, n - 1);
    }
  }

  lemma NotedOvertook(b: Book, sys: Sys, pc: Pc, c: Choice, k: Key)
    requires Booked(sys, b) && PcOk(sys.heap, pc)
    ensures Noted(b, sys, pc, c, k).overtook
         == if (pc.SetStore? || pc.DeleteMap?) && pc.key == k then pc.SetStore? && DeletePending(sys, k)
            else b.overtook
  {
    hide Grown, DeletePending;
  }

  lemma {:induction false} OvertookIff(run: Run, k: Key, n: nat)
    requires run.Valid() && Initial(run.First()) && n < |run.states|
    ensures BookAt(run, k, n).overtook <==> StoreOvertakes(run, k, n)
  {
    hide Booked, InformerOk, Noted, WellFormed, Step, Initial, Moves, PcAt, PcOk, DeletePending, StoreOvertakes;
    if n == 0 {
      NothingOvertakes(run, k);
    } else {
      OvertookIff(run, k, n - 1);
      RunKeepsBook(run, k, n - 1);
      BookMoves(run, k, n - 1);
      NotedOvertook(BookAt(run, k, n - 1), run.states[n - 1], PcAt(run, n - 1), run.acts[n - 1].choice, k);
      OvertakesStep(run, k, n);
    }
  }

  lemma NothingOvertakes(run: Run, k: Key)
    requires run.Valid()
    ensures !StoreOvertakes(run, k, 0)
  {
  }

  /** In every interleaving, whenever no Delete of k has yet to send its event: replaying the events leaves
      just the state that the register holds, if and only if the last store of k did not come between the
      drop of a Delete(k) and its event. Otherwise the informer has lost a state that the register keeps. */
  lemma InformerAgreesIff(run: Run, k: Key, n: nat)
    requires run.Valid() && Initial(run.First()) && n < |run.states| && !DeletePending(run.states[n], k)
    ensures BookAt(run, k, n).seen == Current(run.states[n], k) <==> !StoreOvertakes(run, k, n)
    ensures StoreOvertakes(run, k, n) ==> BookAt(run, k, n).seen == None && k in run.states[n].states
  {
    RunKeepsBook(run, k, n);
    OvertookIff(run, k, n);
    hide StoreOvertakes, Booked, WellFormed, Initial;
  }

  lemma RunExtends(run: Run, a: Act, after: Sys) returns (next: Run)
    requires run.Valid() && Moves(run.Last(), a, after)
    ensures next.Valid() && next.First() == run.First() && next.Last() == after && next.acts == run.acts + [a]
    ensures next.states[|run.acts|] == run.Last()
  {
    hide Moves, WellFormed;
    next := Run(run.states + [after], run.acts + [a]);
    forall i | 0 <= i < |next.acts| ensures Moves(next.states[i], next.acts[i], next.states[i + 1]) {
      assert i < |run.acts| ==> Moves(run.states[i], run.acts[i], run.states[i + 1]);
    }
  }

  /** This does happen: when a Set of k is about to store while a Delete(k) has yet to send its event, the
      run can go on so that the informer has nothing and the register has what was set. */
  lemma SetOvertakesDelete(run: Run, k: Key, t: Tid, d: Tid, s: Ref, dropped: Ref) returns (next: Run)
    requires run.Valid() && Initial(run.First()) && t in run.Last().threads && d in run.Last().threads
    requires run.Last().threads[t] == SetStore(k, s) && run.Last().threads[d] == DeleteEmit(k, dropped)
    ensures next.Valid() && next.First() == run.First()
    ensures next.Last().threads == run.Last().threads[t := Returned][d := DeleteUnlock(k)]
    ensures BookAt(next, k, |next.acts|).seen == None && Current(next.Last(), k) == Some(s)
  {
    hide Initial, Noted, Moves, WellFormed, BookAt, PcOk, HeapAfter, Booked;
    var c := Choice(s, {});
    StoreMoves(run, k, t, d, s, dropped);
    var s1 := Perform(run.Last(), t, Store(Returned, k, s));
    var middle := RunExtends(run, Act(t, c), s1);
    next := RunExtends(middle, Act(d, c), Perform(s1, d, Announce(DeleteUnlock(k), dropped)));
    LastEventForgets(next, |middle.acts|, k, d, dropped, c);
  }

  lemma LastEventForgets(run: Run, n: nat, k: Key, d: Tid, dropped: Ref, c: Choice)
    requires run.Valid() && Initial(run.First()) && n + 1 == |run.acts| && run.acts[n] == Act(d, c)
    requires dropped in run.states[n].heap && d in run.states[n].threads
    requires run.states[n].threads[d] == DeleteEmit(k, dropped)
    ensures BookAt(run, k, n + 1).seen == None
  {
    hide Initial, Noted, Moves, WellFormed, Booked;
    RunKeepsBook(run, k, n);
    BookMoves(run, k, n);
    EventForgets(BookAt(run, k, n), run.states[n], k, dropped, c);
  }

  lemma StoreMoves(run: Run, k: Key, t: Tid, d: Tid, s: Ref, dropped: Ref)
    requires run.Valid() && t in run.Last().threads && d in run.Last().threads
    requires run.Last().threads[t] == SetStore(k, s) && run.Last().threads[d] == DeleteEmit(k, dropped)
    ensures var s1 := Perform(run.Last(), t, Store(Returned, k, s));
      && Moves(run.Last(), Act(t, Choice(s, {})), s1) && dropped in s1.heap
      && Moves(s1, Act(d, Choice(s, {})), Perform(s1, d, Announce(DeleteUnlock(k), dropped)))
  {
    LastIsWellFormed(run);
    hide WellFormed, Moves;
    var c := Choice(s, {});
    EffectMoves(run.Last(), t, c, Store(Returned, k, s));
    EffectMoves(Perform(run.Last(), t, Store(Returned, k, s)), d, c, Announce(DeleteUnlock(k), dropped));
  }

  lemma LastIsWellFormed(run: Run)
    requires run.Valid()
    ensures WellFormed(run.Last())
    ensures forall t | t in run.Last().threads :: PcOk(run.Last().heap, run.Last().threads[t])
  {
    if |run.acts| > 0 {
      var n := |run.acts| - 1;
      assert Moves(run.states[n], run.acts[n], run.states[n + 1]);
    }
  }

  lemma EventForgets(b: Book, sys: Sys, k: Key, s: Ref, c: Choice)
    requires Booked(sys, b) && s in sys.heap
    ensures Noted(b, sys, DeleteEmit(k, s), c, k).seen == None
  {
  }

  // ---------------------------------------------------------------- the order of the events

  /** The state from which the next event of k is made is at the generation that the informer has seen. */
  predicate OnTrack(b: Book, pc: Pc, k: Key) {
    && (pc.SetStore? && pc.key == k && pc.s in b.made ==>
          GenerationOf(b.made, b.made[pc.s].original) == GenerationOf(b.made, b.seen))
    && (pc.DeleteEmit? && pc.key == k ==> GenerationOf(b.made, Some(pc.s)) == GenerationOf(b.made, b.seen))
  }

  predicate Logged(b: Book, k: Key) {
    Live(b.log, k) == GenerationOf(b.made, b.seen)
  }

  /** What the next event of k says is what comes next for the state it was made from. */
  lemma EventFollowsIff(b: Book, k: Key, kind: EventType, s: Ref)
    requires Grown(b.made) && Logged(b, k) && s in b.made
    requires kind != Deleted ==> (kind == Added <==> b.made[s].original.None?)
    ensures Follows(Live(b.log, k), EventOf(k, kind, b.made[s].generation))
       <==> if kind == Deleted then GenerationOf(b.made, Some(s)) == GenerationOf(b.made, b.seen)
            else GenerationOf(b.made, b.made[s].original) == GenerationOf(b.made, b.seen)
  {
    assert b.made[s] == MadeFrom(b.made, b.made[s].original, b.made[s].args);
    hide Decimal, Live, Grown;
  }

  lemma NotedLog(b: Book, sys: Sys, pc: Pc, c: Choice, k: Key)
    requires Booked(sys, b) && PcOk(sys.heap, pc) && Logged(b, k) && (pc.SetCopy? ==> c.ref !in sys.heap)
    ensures var after := Noted(b, sys, pc, c, k);
      Logged(after, k) && (Legal(after.log) <==> Legal(b.log) && OnTrack(b, pc, k))
  {
    hide Decimal, DeletePending, Legal, Live, Follows, Grown;
    if pc.SetStore? && pc.key == k {
      var kind := if b.made[pc.s].original.None? then Added else Modified;
      EventFollowsIff(b, k, kind, pc.s);
      AppendIsLegalIff(b.log, EventOf(k, kind, b.made[pc.s].generation));
    } else if pc.DeleteEmit? && pc.key == k {
      EventFollowsIff(b, k, Deleted, pc.s);
      AppendIsLegalIff(b.log, EventOf(k, Deleted, b.made[pc.s].generation));
    }
  }

  lemma BuildsAfresh(sys: Sys, a: Act)
    requires WellFormed(sys) && Step(sys, a).Some?
    ensures sys.threads[a.thread].SetCopy? ==> a.choice.ref !in sys.heap
  {
    var e := StepFits(sys, a);
    hide EffectOk, Step, WellFormed;
  }

  ghost predicate InOrder(run: Run, k: Key, n: nat)
    requires run.Valid() && n < |run.states|
  {
    forall i | 0 <= i < n :: OnTrack(BookAt(run, k, i), PcAt(run, i), k)
  }

  lemma InOrderStep(run: Run, k: Key, n: nat)
    requires run.Valid() && n < |run.states|
    ensures InOrder(run, k, n)
       <==> n == 0 || (InOrder(run, k, n - 1) && OnTrack(BookAt(run, k, n - 1), PcAt(run, n - 1), k))
  {
    hide OnTrack, BookAt, PcAt, Moves, WellFormed;
  }

  /** In every interleaving the log of k is legal if and only if every event is made from a state at the
      generation that the informer has seen. */
  lemma {:induction false} LogIsLegalIff(run: Run, k: Key, n: nat)
    requires run.Valid() && Initial(run.First()) && n < |run.states|
    ensures Logged(BookAt(run, k, n), k) && (Legal(BookAt(run, k, n).log) <==> InOrder(run, k, n))
  {
    hide Booked, InformerOk, Noted, WellFormed, Initial, Moves, PcAt, PcOk, OnTrack, Step, Logged, Legal, InOrder;
    InOrderStep(run, k, n);
    if n == 0 {
      EmptyIsLogged(k);
    } else {
      LogIsLegalIff(run, k, n - 1);
      RunKeepsBook(run, k, n - 1);
      BookMoves(run, k, n - 1);
      BuildsAfresh(run.states[n - 1], run.acts[n - 1]);
      NotedLog(BookAt(run, k, n - 1), run.states[n - 1], PcAt(run, n - 1), run.acts[n - 1].choice, k);
    }
  }

  lemma EmptyIsLogged(k: Key)
    ensures Logged(EMPTY_BOOK, k) && Legal(EMPTY_BOOK.log)
  {
  }

  // ---------------------------------------------------------------- without Delete

  predicate NoDelete(sys: Sys, k: Key) {
    forall t | t in sys.threads && sys.threads[t].InDelete() :: sys.threads[t].key != k
  }

  /** A store of k is of a state that was built from the current one. */
  predicate Fresh(sys: Sys, b: Book, pc: Pc, k: Key) {
    pc.SetStore? && pc.key == k && pc.s in b.made ==> b.made[pc.s].original == Current(sys, k)
  }

  predicate Builds(pc: Pc, k: Key) {
    (pc.SetCompare? || pc.SetStore?) && pc.key == k
  }

  /** The state that a Set or Enqueue started from. */
  function Basis(b: Book, pc: Pc): Option<Ref> {
    if pc.SetCopy? then pc.original
    else if (pc.SetCompare? || pc.SetStore?) && pc.s in b.made then b.made[pc.s].original
    else None
  }

  /** It is the current one or an older one. */
  predicate NotNewer(sys: Sys, b: Book, k: Key, o: Option<Ref>) {
    o.Some? ==>
      && o.value in b.made && k in sys.states && sys.states[k] in b.made
      && (o.value == sys.states[k] || b.made[o.value].generation < b.made[sys.states[k]].generation)
  }

  predicate Aged(sys: Sys, b: Book, k: Key) {
    forall t | t in sys.threads && (sys.threads[t].SetCopy? || Builds(sys.threads[t], k)) && sys.threads[t].key == k ::
      NotNewer(sys, b, k, Basis(b, sys.threads[t]))
  }

  lemma StepKeepsNoDelete(sys: Sys, a: Act, k: Key)
    requires WellFormed(sys) && Step(sys, a).Some? && NoDelete(sys, k)
    ensures NoDelete(Step(sys, a).value, k)
  {
    hide LockIndex.Lock, LockIndex.Unlock, MuRead, MuWritten, Exclusive;
  }

  /** What an earlier state was not newer than, it stays so when the current state gives way to a newer one. */
  lemma StoreKeepsNotNewer(sys: Sys, b: Book, k: Key, s: Ref, o: Option<Ref>)
    requires Booked(sys, b) && s in b.made && b.made[s].original == Current(sys, k) && NotNewer(sys, b, k, o)
    ensures o.Some? ==> o.value in b.made && b.made[o.value].generation < b.made[s].generation
  {
  }

  lemma StoreKeepsAged(sys: Sys, t: Tid, b: Book, c: Choice, k: Key, s: Ref)
    requires Booked(sys, b) && Aged(sys, b, k) && s in b.made && b.made[s].original == Current(sys, k)
    requires t in sys.threads && sys.threads[t] == SetStore(k, s)
    ensures Aged(Stored(sys, t, k, s), Noted(b, sys, SetStore(k, s), c, k), k)
  {
    hide Booked, DeletePending, NotNewer;
    forall o | NotNewer(sys, b, k, o)
      ensures NotNewer(Stored(sys, t, k, s), Noted(b, sys, SetStore(k, s), c, k), k, o)
    {
      StoreKeepsNotNewer(sys, b, k, s, o);
      NewerCurrent(sys, t, b, c, k, s, o);
    }
  }

  lemma NewerCurrent(sys: Sys, t: Tid, b: Book, c: Choice, k: Key, s: Ref, o: Option<Ref>)
    requires s in b.made && (o.Some? ==> o.value in b.made && b.made[o.value].generation < b.made[s].generation)
    ensures NotNewer(Stored(sys, t, k, s), Noted(b, sys, SetStore(k, s), c, k), k, o)
  {
  }

  lemma OtherStepKeepsAged(sys: Sys, t: Tid, b: Book, c: Choice, k: Key, e: Effect)
    requires WellFormed(sys) && Booked(sys, b) && Aged(sys, b, k) && t in sys.threads && EffectOk(sys, t, e)
    requires PcOk(sys.heap, sys.threads[t]) && Fits(sys, sys.threads[t], c, e)
    requires !(e.Store? && e.key == k) && !(e.Drop? && e.key == k)
    ensures Aged(Perform(sys, t, e), Noted(b, sys, sys.threads[t], c, k), k)
  {
    hide DeletePending, Gone, Grown, EffectOk, Exclusive;
  }

  lemma StepKeepsAged(sys: Sys, a: Act, b: Book, k: Key)
    requires WellFormed(sys) && Step(sys, a).Some? && Booked(sys, b) && NoDelete(sys, k) && Aged(sys, b, k)
    requires Fresh(sys, b, sys.threads[a.thread], k)
    ensures Aged(Step(sys, a).value, Noted(b, sys, sys.threads[a.thread], a.choice, k), k)
  {
    var e := StepFits(sys, a);
    hide Step, EffectOk, DeletePending, Gone, Grown, Aged, Noted, WellFormed;
    var pc := sys.threads[a.thread];
    if pc.SetStore? && pc.key == k {
      StoreKeepsAged(sys, a.thread, b, a.choice, k, pc.s);
    } else {
      OtherStepKeepsAged(sys, a.thread, b, a.choice, k, e);
    }
  }

  lemma OnTrackIffFresh(sys: Sys, b: Book, t: Tid, k: Key)
    requires Booked(sys, b) && InformerOk(sys, b, k) && Aged(sys, b, k) && NoDelete(sys, k) && !b.overtook
    requires t in sys.threads
    ensures OnTrack(b, sys.threads[t], k) <==> Fresh(sys, b, sys.threads[t], k)
  {
    hide Grown, DeletePending;
    var pc := sys.threads[t];
    NothingPending(sys, k);
    assert Builds(pc, k) ==> NotNewer(sys, b, k, Basis(b, pc));
  }

  ghost predicate AllFresh(run: Run, k: Key, n: nat)
    requires run.Valid() && n < |run.states|
  {
    forall i | 0 <= i < n :: Fresh(run.states[i], BookAt(run, k, i), PcAt(run, i), k)
  }

  lemma AllFreshStep(run: Run, k: Key, n: nat)
    requires run.Valid() && n < |run.states|
    ensures AllFresh(run, k, n)
       <==> n == 0
            || (AllFresh(run, k, n - 1) && Fresh(run.states[n - 1], BookAt(run, k, n - 1), PcAt(run, n - 1), k))
  {
    hide Fresh, BookAt, PcAt, Moves, WellFormed;
  }

  lemma BookStartsAged(sys: Sys, k: Key)
    requires Initial(sys)
    ensures Aged(sys, EMPTY_BOOK, k)
  {
  }

  lemma {:induction false} RunKeepsNoDelete(run: Run, k: Key, n: nat)
    requires run.Valid() && Initial(run.First()) && NoDelete(run.First(), k) && n < |run.states|
    ensures NoDelete(run.states[n], k) && !BookAt(run, k, n).overtook
  {
    hide Booked, Noted, WellFormed, Initial, Moves, PcAt, PcOk, Step, DeletePending;
    if n == 0 {
    } else {
      RunKeepsNoDelete(run, k, n - 1);
      RunKeepsBook(run, k, n - 1);
      BookMoves(run, k, n - 1);
      StepKeepsNoDelete(run.states[n - 1], run.acts[n - 1], k);
      NotedOvertook(BookAt(run, k, n - 1), run.states[n - 1], PcAt(run, n - 1), run.acts[n - 1].choice, k);
      NothingPending(run.states[n - 1], k);
    }
  }

  lemma NothingPending(sys: Sys, k: Key)
    requires NoDelete(sys, k)
    ensures !DeletePending(sys, k)
  {
  }

  /** As long as all stores have been fresh, nobody holds a state that is newer than the current one. */
  lemma {:induction false} FreshStoresKeepAged(run: Run, k: Key, n: nat)
    requires run.Valid() && Initial(run.First()) && NoDelete(run.First(), k) && n < |run.states|
    requires AllFresh(run, k, n)
    ensures Aged(run.states[n], BookAt(run, k, n), k)
  {
    hide Booked, InformerOk, Noted, WellFormed, Initial, Moves, PcAt, PcOk, Step, Fresh, Aged, NoDelete, AllFresh;
    if n == 0 {
      BookStartsAged(run.First(), k);
    } else {
      AllFreshStep(run, k, n);
      FreshStoresKeepAged(run, k, n - 1);
      RunKeepsNoDelete(run, k, n - 1);
      RunKeepsBook(run, k, n - 1);
      BookMoves(run, k, n - 1);
      StepKeepsAged(run.states[n - 1], run.acts[n - 1], BookAt(run, k, n - 1), k);
    }
  }

  /** In every interleaving without a Delete of k: the log of k is legal, its generations without gap or
      repetition, if and only if every store was of a state built from the one then current. */
  lemma {:induction false} LogIsLegalIffStoresAreFresh(run: Run, k: Key, n: nat)
    requires run.Valid() && Initial(run.First()) && NoDelete(run.First(), k) && n < |run.states|
    ensures Legal(BookAt(run, k, n).log) <==> AllFresh(run, k, n)
  {
    hide Booked, InformerOk, Noted, WellFormed, Initial, Moves, PcAt, PcOk, Step, Fresh, Aged, NoDelete, AllFresh;
    hide InOrder, OnTrack, Legal, Logged;
    LogIsLegalIff(run, k, n);
    InOrderStep(run, k, n);
    AllFreshStep(run, k, n);
    if n == 0 {
    } else {
      LogIsLegalIffStoresAreFresh(run, k, n - 1);
      LogIsLegalIff(run, k, n - 1);
      if AllFresh(run, k, n - 1) {
        FreshStoresKeepAged(run, k, n - 1);
        RunKeepsNoDelete(run, k, n - 1);
        RunKeepsBook(run, k, n - 1);
        BookMoves(run, k, n - 1);
        OnTrackIffFresh(run.states[n - 1], BookAt(run, k, n - 1), run.acts[n - 1].thread, k);
      }
    }
  }
}
