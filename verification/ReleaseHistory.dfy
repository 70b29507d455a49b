/** One Helm release over time: what OnHelmRelease sees of it, the events that its handler deals with, and
    what the removal of its HelmRelease leaves behind. */
module ReleaseHistory {
  import opened Prelude
  import opened HelmReleases
  import opened ObjectSetRegister

  /** The register, and the state in the status of the HelmRelease: as the controller has it, who writes
      it into its cached copy at once, and as the API has stored it. */
  datatype World = World(r: Registered, cached: ReleaseState, stored: ReleaseState)

  /** A call of OnHelmRelease, with the object set that it parses if it tracks the release; the handling
      of an event; a change of a locked object, which enqueues the release; a new copy from the API. */
  datatype Step =
    | Sees(handles: bool, last: Lookup, statusOk: bool, os: ObjectSet)
    | Handles(seenLocked: bool, written: set<Gvk>)
    | Wakes
    | Refreshes

  ghost function After(w: World, release: Key, s: Step): World {
    match s
    case Sees(handles, last, statusOk, os) =>
      var outcome := OutcomeOf(handles, last, statusOk);
      World(AfterOutcome(w.r, release, outcome, if outcome == Tracks then os else null),
            if handles then StateAfter(w.cached, last) else w.cached,
            if handles && statusOk then StateAfter(w.stored, last) else w.stored)
    case Handles(seenLocked, written) => w.(r := AfterChange(w.r, release, seenLocked, written))
    case Wakes => w.(r := w.r.(states := AfterSet(w.r.states, release, null, None)))
    case Refreshes => w.(cached := w.stored)
  }

  /** The steps by what they tell and keep: a call answers as OnHelmRelease does, and the API has what is told
      if it accepts it; a change enqueues the release without changing what is wanted. */
  lemma StepsAreThose(w: World, release: Key, s: Step)
    ensures var after := After(w, release, s);
      && (s.Sees? ==>
            && StateTold(s.handles, s.last, w.cached, after.cached)
            && (s.statusOk ==> StateTold(s.handles, s.last, w.stored, after.stored))
            && (!s.statusOk ==> after.stored == w.stored))
      && (!s.Sees? ==> after.stored == w.stored && after.cached == if s.Refreshes? then w.stored else w.cached)
      && (s.Wakes? ==> after.r.idx == w.r.idx && Override(w.r.states, after.r.states, release, null, None))
      && (s.Refreshes? ==> after.r == w.r)
  {
  }

  /** The register after a call. */
  lemma SeesAnswers(w: World, release: Key, s: Step)
    requires s.Sees? && (s.last.Latest? && s.last.manifest.Some? ==> s.os.groups == s.last.manifest.value)
    ensures exists os :: Answered(s.handles, s.last, s.statusOk, release, os, w.r, After(w, release, s).r)
  {
    var os := if OutcomeOf(s.handles, s.last, s.statusOk) == Tracks then s.os else null;
    OutcomeAnswers(w.r, release, s.handles, s.last, s.statusOk, os);
    assert Answered(s.handles, s.last, s.statusOk, release, os, w.r, After(w, release, s).r);
  }

  ghost function Run(w: World, release: Key, steps: seq<Step>): World
    decreases |steps|
  {
    if steps == [] then w else Run(After(w, release, steps[0]), release, steps[1..])
  }

  /** Whether a deployed manifest has been tracked since the release was last not found. */
  function TrackedSince(tracked: bool, steps: seq<Step>): bool
    decreases |steps|
  {
    if steps == [] then tracked else TrackedSince(TrackedAfter(tracked, steps[0]), steps[1..])
  }

  function TrackedAfter(tracked: bool, s: Step): bool {
    if !s.Sees? then tracked
    else match OutcomeOf(s.handles, s.last, s.statusOk)
      case Tracks => true
      case Forgets => false
      case _ => tracked
  }

  predicate Tracked(r: Registered, release: Key) {
    release in r.states && r.states[release].objectSet != null
  }

  /** The register tracks what has been tracked, and a release that is recorded as not found is not. */
  predicate Recorded(w: World, release: Key, tracked: bool) {
    && (Tracked(w.r, release) <==> tracked)
    && (w.cached == SecretNotFoundState || w.stored == SecretNotFoundState ==> !tracked)
  }

  lemma StepKeepsRecorded(w: World, release: Key, tracked: bool, s: Step)
    requires Recorded(w, release, tracked)
    ensures Recorded(After(w, release, s), release, TrackedAfter(tracked, s))
  {
  }

  lemma {:induction false} RunKeepsRecorded(w: World, release: Key, tracked: bool, steps: seq<Step>)
    requires Recorded(w, release, tracked)
    ensures Recorded(Run(w, release, steps), release, TrackedSince(tracked, steps))
    decreases |steps|
  {
    if steps == [] {
    } else {
      StepKeepsRecorded(w, release, tracked, steps[0]);
      RunKeepsRecorded(After(w, release, steps[0]), release, TrackedAfter(tracked, steps[0]), steps[1..]);
    }
  }

  /** Over every history of a release that starts untracked: removing its HelmRelease leaves an object set
      in the register exactly when the recorded state is Uninstalled and a deployed manifest has been
      tracked since the release was last not found. So a release recorded as not found leaves nothing. */
  lemma RemovalLeavesTrackedIff(w: World, release: Key, steps: seq<Step>)
    requires !Tracked(w.r, release)
    ensures var after := Run(w, release, steps);
      Tracked(AfterRemove(after.r, release, after.cached), release)
      <==> after.cached == UninstalledState && TrackedSince(false, steps)
  {
    RunKeepsRecorded(w, release, false, steps);
  }
}
