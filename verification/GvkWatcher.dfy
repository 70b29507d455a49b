/** The watcher of kinds: every kind that a lock covers is registered, and a controller is started for
    it at once or, before the first Start, when Start is called. */
module GvkWatcher {
  import opened Prelude

  /** What the controller factory answers for a kind: no controller for it, a controller that does not
      start, or a controller that starts. */
  datatype Answer = NoController | StartFails | Starts

  /** The watcher as a value. `hooks` counts the registrations of the enqueueing handler, `starts` the
      successful starts of a controller. */
  datatype Watched = Watched(
    started: bool, registered: set<Gvk>, begun: set<Gvk>, hooks: multiset<Gvk>, starts: multiset<Gvk>)

  const NOTHING_WATCHED := Watched(false, {}, {}, multiset{}, multiset{})

  predicate Fails(w: Watched, g: Gvk, answer: Answer) {
    w.started && g !in w.begun && answer != Starts
  }

  function Begin(w: Watched, g: Gvk, answer: Answer): Watched {
    if !w.started || g in w.begun || answer == NoController then w
    else
      var hooked := w.(hooks := w.hooks + multiset{g});
      if answer == StartFails then hooked
      else hooked.(begun := w.begun + {g}, starts := w.starts + multiset{g})
  }

  class Watcher {
    var started: bool
    var gvkRegistered: set<Gvk>
    var gvkStarted: set<Gvk>
    var hooks: multiset<Gvk>
    var starts: multiset<Gvk>

    function Value(): Watched
      reads this
    {
      Watched(started, gvkRegistered, gvkStarted, hooks, starts)
    }

    constructor ()
      ensures Value() == NOTHING_WATCHED
    {
      started, gvkRegistered, gvkStarted := false, {}, {};
      hooks, starts := multiset{}, multiset{};
    }

    method StartGvk(g: Gvk, answer: Answer) returns (ok: bool)
      modifies this
      ensures Value() == Begin(old(Value()), g, answer)
      ensures gvkRegistered == old(gvkRegistered)
      ensures ok <==> !Fails(old(Value()), g, answer)
    {
      if !started {
        return true;
      }
      if g in gvkStarted {
        return true;
      }
      if answer == NoController {
        return false;
      }
      hooks := hooks + multiset{g};
      if answer == StartFails {
        return false;
      }
      gvkStarted := gvkStarted + {g};
      starts := starts + multiset{g};
      return true;
    }

    method Watch(g: Gvk, answer: Answer) returns (ok: bool)
      modifies this
      ensures Value() == AfterWatch(old(Value()), g, answer)
      ensures gvkRegistered == old(gvkRegistered) + {g}
      ensures ok <==> !Fails(old(Value()), g, answer)
    {
      gvkRegistered := gvkRegistered + {g};
      ok := StartGvk(g, answer);
    }

    /** Starts what was registered; a failure for one kind does not stop the others. */
    method Start(answers: Gvk -> Answer) returns (failed: set<Gvk>)
      modifies this
      ensures Value() == AfterStart(old(Value()), answers)
      ensures failed == gvkRegistered - gvkStarted
    {
      hide Begun;
      started := true;
      failed := {};
      var todo := gvkRegistered;
      ghost var before, done := Value(), {};
      BeginNone(before, answers);
      while todo != {}
        invariant before.started && started && todo !! done && todo + done == gvkRegistered == before.registered
        invariant Value() == Begun(before, done, answers)
        invariant failed == done - gvkStarted
      {
        var g :| g in todo;
        BeginOne(before, done, g, answers);
        var ok := StartGvk(g, answers(g));
        if !ok {
          failed := failed + {g};
        }
        todo, done := todo - {g}, done + {g};
      }
      assert done == gvkRegistered;
    }
  }

  function AfterWatch(w: Watched, g: Gvk, answer: Answer): Watched {
    Begin(w.(registered := w.registered + {g}), g, answer)
  }

  /** The kinds of `gs` that a Start finds a controller for. */
  function Hooked(w: Watched, gs: set<Gvk>, answers: Gvk -> Answer): set<Gvk> {
    set g | g in gs && g !in w.begun && answers(g) != NoController
  }

  /** The kinds of `gs` that a Start brings up. */
  function Up(w: Watched, gs: set<Gvk>, answers: Gvk -> Answer): set<Gvk> {
    set g | g in gs && g !in w.begun && answers(g) == Starts
  }

  /** The watcher once all kinds of `gs` have been tried, in any order. */
  function Begun(w: Watched, gs: set<Gvk>, answers: Gvk -> Answer): Watched {
    w.(begun := w.begun + Up(w, gs, answers),
       hooks := w.hooks + multiset(Hooked(w, gs, answers)),
       starts := w.starts + multiset(Up(w, gs, answers)))
  }

  function AfterStart(w: Watched, answers: Gvk -> Answer): Watched {
    Begun(w.(started := true), w.registered, answers)
  }

  lemma InsertedOnce<T>(s: set<T>, x: T)
    requires x !in s
    ensures multiset(s + {x}) == multiset(s) + multiset{x}
  {
  }

  lemma BeginNone(w: Watched, answers: Gvk -> Answer)
    ensures Begun(w, {}, answers) == w
  {
  }

  lemma BeginOne(w: Watched, gs: set<Gvk>, g: Gvk, answers: Gvk -> Answer)
    requires w.started && g !in gs
    ensures Begun(w, gs + {g}, answers) == Begin(Begun(w, gs, answers), g, answers(g))
  {
    var hooked, up := Hooked(w, gs, answers), Up(w, gs, answers);
    assert Hooked(w, gs + {g}, answers) == if g in w.begun || answers(g) == NoController then hooked else hooked + {g};
    assert Up(w, gs + {g}, answers) == if g in w.begun || answers(g) != Starts then up else up + {g};
    InsertedOnce(hooked, g);
    InsertedOnce(up, g);
    if g !in w.begun && answers(g) == Starts {
      assert w.begun + (up + {g}) == w.begun + up + {g};
      assert w.starts + (multiset(up) + multiset{g}) == w.starts + multiset(up) + multiset{g};
    }
    if g !in w.begun && answers(g) != NoController {
      assert w.hooks + (multiset(hooked) + multiset{g}) == w.hooks + multiset(hooked) + multiset{g};
    }
  }

  // ---------------------------------------------------------------- every run

  datatype Call = CallWatch(g: Gvk, answer: Answer) | CallStart(answers: Gvk -> Answer)

  ghost function After(w: Watched, c: Call): Watched {
    match c
    case CallWatch(g, answer) => AfterWatch(w, g, answer)
    case CallStart(answers) => AfterStart(w, answers)
  }

  ghost function RunOf(w: Watched, calls: seq<Call>): Watched
    decreases |calls|
  {
    if calls == [] then w else RunOf(After(w, calls[0]), calls[1..])
  }

  /** Only registered kinds are started, none before the first Start, and none twice. */
  ghost predicate Sound(w: Watched) {
    && w.begun <= w.registered
    && (!w.started ==> w.begun == {} && w.hooks == multiset{})
    && w.starts == multiset(w.begun)
  }

  lemma {:induction false} RunIsSound(w: Watched, calls: seq<Call>)
    requires Sound(w)
    ensures Sound(RunOf(w, calls))
    decreases |calls|
  {
    if calls == [] {
    } else {
      CallKeepsSound(w, calls[0]);
      RunIsSound(After(w, calls[0]), calls[1..]);
    }
  }

  lemma CallKeepsSound(w: Watched, c: Call)
    requires Sound(w)
    ensures Sound(After(w, c))
  {
  }

  /** A Start succeeds exactly when it brings every registered kind up. */
  lemma StartSyncs(w: Watched, answers: Gvk -> Answer)
    requires Sound(w)
    ensures AfterStart(w, answers).begun == w.registered
       <==> forall g | g in w.registered && g !in w.begun :: answers(g) == Starts
  {
  }

  /** From then on the started kinds are the registered ones, until a Watch fails. */
  lemma WatchKeepsSync(w: Watched, g: Gvk, answer: Answer)
    requires w.started && InSync(w)
    ensures InSync(AfterWatch(w, g, answer)) <==> !Fails(w, g, answer)
  {
    assert g in AfterWatch(w, g, answer).registered;
  }

  predicate InSync(w: Watched) {
    w.begun == w.registered
  }

  ghost predicate WatchFails(w: Watched, c: Call) {
    c.CallWatch? && Fails(w, c.g, c.answer)
  }

  /** No Watch of the run fails. */
  ghost predicate NoWatchFails(w: Watched, calls: seq<Call>)
    decreases |calls|
  {
    calls == [] || (!WatchFails(w, calls[0]) && NoWatchFails(After(w, calls[0]), calls[1..]))
  }

  /** The watcher is in sync before, between and after the calls. */
  ghost predicate StaysInSync(w: Watched, calls: seq<Call>)
    decreases |calls|
  {
    InSync(w) && (calls == [] || StaysInSync(After(w, calls[0]), calls[1..]))
  }

  /** Over every run from a Start without errors: the started kinds stay the registered ones exactly as
      long as no Watch fails. */
  lemma {:induction false} InSyncUntilWatchFails(w: Watched, calls: seq<Call>)
    requires w.started && InSync(w)
    ensures StaysInSync(w, calls) <==> NoWatchFails(w, calls)
    decreases |calls|
  {
    if calls == [] {
    } else {
      var c, next := calls[0], After(w, calls[0]);
      match c
      case CallWatch(g, answer) =>
        WatchKeepsSync(w, g, answer);
        if !WatchFails(w, c) {
          InSyncUntilWatchFails(next, calls[1..]);
        }
      case CallStart(answers) =>
        assert Up(w, w.registered, answers) == {};
        InSyncUntilWatchFails(next, calls[1..]);
    }
  }

  // ---------------------------------------------------------------- how often the handler is hooked

  /** A kind whose controller did not start is hooked again when it is retried. */
  lemma RetryHooksTwice(w: Watched, g: Gvk)
    requires Sound(w) && w.started && g !in w.begun
    ensures var failed := AfterWatch(w, g, StartFails); var retried := AfterWatch(failed, g, Starts);
      retried.hooks[g] == w.hooks[g] + 2 && retried.starts[g] == 1
  {
  }

  /** The call tries to start a controller for `g`, which does not start. */
  ghost predicate StartOfFails(w: Watched, c: Call, g: Gvk) {
    match c
    case CallWatch(h, answer) => h == g && w.started && g !in w.begun && answer == StartFails
    case CallStart(answers) => g in w.registered && g !in w.begun && answers(g) == StartFails
  }

  /** How many of the calls do. */
  ghost function FailedStarts(w: Watched, calls: seq<Call>, g: Gvk): nat
    decreases |calls|
  {
    if calls == [] then 0
    else (if StartOfFails(w, calls[0], g) then 1 else 0) + FailedStarts(After(w, calls[0]), calls[1..], g)
  }

  lemma CallHooks(w: Watched, c: Call, g: Gvk)
    ensures var after := After(w, c);
      after.hooks[g] + w.starts[g] == after.starts[g] + w.hooks[g] + if StartOfFails(w, c, g) then 1 else 0
  {
    if c.CallStart? {
      var hooked, up := Hooked(w, w.registered, c.answers), Up(w, w.registered, c.answers);
      assert multiset(hooked)[g] == if g in hooked then 1 else 0;
      assert multiset(up)[g] == if g in up then 1 else 0;
    }
  }

  /** Over every run a kind is hooked once per successful start and once per failed one. */
  lemma {:induction false} HooksCountStarts(w: Watched, calls: seq<Call>, g: Gvk)
    ensures var after := RunOf(w, calls);
      after.hooks[g] + w.starts[g] == after.starts[g] + w.hooks[g] + FailedStarts(w, calls, g)
    decreases |calls|
  {
    if calls == [] {
    } else {
      CallHooks(w, calls[0], g);
      HooksCountStarts(After(w, calls[0]), calls[1..], g);
    }
  }

  /** Over every run of a new watcher the handler of a kind is hooked once for its start, if it has been
      started, and once more for each start that has failed: once per start if and only if none has. */
  lemma HookedOncePerStart(calls: seq<Call>, g: Gvk)
    ensures var w, failed := RunOf(NOTHING_WATCHED, calls), FailedStarts(NOTHING_WATCHED, calls, g);
      && w.hooks[g] == failed + (if g in w.begun then 1 else 0)
      && (w.hooks[g] == w.starts[g] <==> failed == 0)
  {
    HooksCountStarts(NOTHING_WATCHED, calls, g);
    RunIsSound(NOTHING_WATCHED, calls);
  }
}
