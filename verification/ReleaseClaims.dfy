/** Ownership of releases over whole runs: ProjectHelmCharts are processed one call at a time, in any
    order, with whatever the cluster answers, and each call may fail half-way.

    A chart owns its release while its applied objects include the HelmChart and the HelmRelease. The
    set of managed charts, their specs and labels are fixed. */
module ReleaseClaims {
  import opened Prelude
  import opened ProjectReconcile
  import Rbac

  datatype World = World(opts: Options, charts: map<Key, Chart>, managed: set<Key>, owners: set<Key>)

  /** The apply of the generated objects; it may fail although the objects have landed. */
  datatype Applied = Succeeds | FailsEarly | FailsLate

  /** One call of the generating handler for a chart. `written` tells whether the API takes the status. */
  datatype Step = Step(key: Key, view: View, applied: Applied, written: bool)

  ghost predicate WellFormed(w: World) {
    && (forall k | k in w.charts :: w.charts[k].namespace == k.namespace && w.charts[k].name == k.name)
    && w.managed <= w.charts.Keys && w.owners <= w.managed
  }

  /** The view is consistent with the fixed managed set and has the charts as they were last written. */
  ghost predicate Fresh(w: World, v: View) {
    && (forall k | k in w.charts :: ShouldManage(w.opts, w.charts[k], v.cluster) <==> k in w.managed)
    && (forall c :: c in v.charts <==> exists k :: k in w.charts && w.charts[k] == c)
  }

  ghost function Decision(w: World, s: Step): Outcome
    requires s.key in w.charts
  {
    OutcomeOf(w.opts, w.charts[s.key], s.view)
  }

  /** On an error of the handler, or of the apply, the old status stays. */
  ghost function StatusOf(w: World, s: Step): Status
    requires s.key in w.charts
  {
    var c, o := w.charts[s.key], Decision(w, s);
    if !c.deleting && o != Fails && s.applied == Succeeds && s.written then StatusAfter(w.opts, c, s.view, o)
    else c.status
  }

  ghost function OwnersAfter(w: World, s: Step): set<Key>
    requires s.key in w.charts
  {
    var o := Decision(w, s);
    if w.charts[s.key].deleting || o == Fails || s.applied == FailsEarly then w.owners
    else if o == Deploys then w.owners + {s.key}
    else w.owners - {s.key}
  }

  ghost function After(w: World, s: Step): World
    requires s.key in w.charts
  {
    w.(charts := w.charts[s.key := w.charts[s.key].(status := StatusOf(w, s))], owners := OwnersAfter(w, s))
  }

  /** The generating handler and the status handler around OnChange: what they apply and store. `owns`
      says whether the pair is among the objects applied so far. */
  method Sync(opts: Options, c: Chart, v: View, applied: Applied, written: bool, owns: bool)
    returns (status: Status, ownsAfter: bool)
    requires Rbac.ValidCluster(v.cluster)
    ensures forall w: World, k | w.opts == opts && k in w.charts && w.charts[k] == c && (k in w.owners <==> owns) ::
      var s := Step(k, v, applied, written); status == StatusOf(w, s) && (ownsAfter <==> k in OwnersAfter(w, s))
    ensures c.deleting || applied != Succeeds || !written ==> status == c.status
    ensures c.deleting || applied == FailsEarly ==> ownsAfter == owns
  {
    status, ownsAfter := c.status, owns;
    if c.deleting {
      return;
    }
    var objs, newStatus, ok, bindings := OnChange(opts, c, v);
    hide Rbac.ValidCluster, BindingsOf, OutcomeOf, Answers;
    if !ok {
      return;
    }
    PairIffDeploys(opts, c, v, OutcomeOf(opts, c, v), bindings);
    hide ObjsOf, StatusAfter;
    if applied != FailsEarly {
      ownsAfter := exists o | o in objs :: InPair(o);
    }
    if applied != Succeeds {
      return;
    }
    if newStatus != c.status && written {
      status := newStatus;
    }
  }

  /** The objects of the pair land, but the chart's stored status does not claim the release: the apply
      failed late, or the status could not be written, and the chart had not claimed it before. */
  ghost predicate LandsUnrecorded(w: World, s: Step)
    requires s.key in w.charts
  {
    Decision(w, s) == Deploys && s.applied != FailsEarly && !Claims(StatusOf(w, s))
  }

  /** A step on a fresh view that does not land unrecorded. */
  ghost predicate Orderly(w: World, s: Step) {
    s.key in w.managed && s.key in w.charts && Fresh(w, s.view) && !LandsUnrecorded(w, s)
  }

  ghost predicate Reaches(w: World, steps: seq<Step>, after: World)
    decreases |steps|
  {
    if steps == [] then after == w
    else Orderly(w, steps[0]) && Reaches(After(w, steps[0]), steps[1..], after)
  }

  // ---------------------------------------------------------------- at most one owner

  ghost predicate SameRelease(w: World, a: Key, b: Key)
    requires a in w.charts && b in w.charts
  {
    ReleaseName(w.opts, w.charts[a]) == ReleaseName(w.opts, w.charts[b])
  }

  ghost predicate UniqueOwners(w: World)
    requires WellFormed(w)
  {
    forall a, b | a in w.owners && b in w.owners && SameRelease(w, a, b) :: a == b
  }

  /** A chart that could come to own its release: neither being deleted nor being cleaned up. */
  predicate Eligible(c: Chart) {
    !c.deleting && !c.cleanup
  }

  /** A claim that no call will ever give up. */
  predicate Stuck(c: Chart) {
    Claims(c.status) && !Eligible(c)
  }

  /** The owner has no claim, and another chart of the release could become an owner beside it. */
  ghost predicate Exposed(w: World, a: Key)
    requires WellFormed(w) && a in w.owners
  {
    && !Claims(w.charts[a].status)
    && (exists b | b in w.managed :: b != a && SameRelease(w, a, b) && Eligible(w.charts[b]))
    && (forall c | c in w.managed && SameRelease(w, a, c) :: !Stuck(w.charts[c]))
  }

  ghost predicate Safe(w: World) {
    WellFormed(w) && UniqueOwners(w) && forall a | a in w.owners :: !Exposed(w, a)
  }

  /** Another managed chart of the release claims it. */
  ghost predicate HasRival(w: World, k: Key)
    requires WellFormed(w) && k in w.managed
  {
    exists c | c in w.managed :: c != k && SameRelease(w, k, c) && Claims(w.charts[c].status)
  }

  /** Who does not claim the release does not stand in the way, and who does, does. */
  lemma ConflictsAreClaims(w: World, s: Step)
    requires WellFormed(w) && s.key in w.managed && Fresh(w, s.view)
    ensures ClaimedByOther(w.opts, w.charts[s.key], s.view.cluster, s.view.charts)
       <==> HasRival(w, s.key)
  {
  }

  /** A step only changes the status of its own chart. */
  lemma StepKeepsSpecs(w: World, s: Step)
    requires WellFormed(w) && s.key in w.managed
    ensures var after := After(w, s);
      && WellFormed(after) && after.opts == w.opts && after.managed == w.managed && after.charts.Keys == w.charts.Keys
      && (forall k | k in w.charts && k != s.key :: after.charts[k] == w.charts[k])
      && after.charts[s.key] == w.charts[s.key].(status := StatusOf(w, s))
      && (forall a, b | a in w.charts && b in w.charts :: SameRelease(after, a, b) <==> SameRelease(w, a, b))
  {
  }

  /** A chart that owns its release without a claim after a step did so before. */
  lemma UnclaimedOwnersAreOld(w: World, s: Step)
    requires WellFormed(w) && Orderly(w, s)
    ensures var after := After(w, s); forall a | a in after.owners && !Claims(after.charts[a].status) ::
      a in w.owners && after.charts[a] == w.charts[a]
  {
  }

  /** A stuck claim stays. */
  lemma StuckStays(w: World, s: Step)
    requires WellFormed(w) && Orderly(w, s) && Stuck(w.charts[s.key])
    ensures Stuck(After(w, s).charts[s.key]) && Decision(w, s) != Deploys
  {
  }

  lemma StepKeepsSafe(w: World, s: Step)
    requires Safe(w) && Orderly(w, s)
    ensures Safe(After(w, s))
  {
    var after := After(w, s);
    StepKeepsSpecs(w, s);
    UnclaimedOwnersAreOld(w, s);
    forall a | a in w.owners && a != s.key && SameRelease(w, a, s.key) ensures Decision(w, s) != Deploys {
      NewOwnerIsAlone(w, s, a);
    }
    hide Decision, StatusOf, Fresh, LandsUnrecorded, ReleaseName;
    forall a | a in after.owners ensures !Exposed(after, a) {
      if !Claims(after.charts[a].status) {
        assert !Exposed(w, a);
        if c :| c in w.managed && SameRelease(w, a, c) && Stuck(w.charts[c]) {
          if c == s.key {
            StuckStays(w, s);
          }
          assert Stuck(after.charts[c]);
        }
      }
    }
  }

  /** The heart of the matter: a chart that becomes an owner finds no other owner of its release. */
  lemma NewOwnerIsAlone(w: World, s: Step, a: Key)
    requires Safe(w) && Orderly(w, s) && a in w.owners && a != s.key && SameRelease(w, a, s.key)
    ensures Decision(w, s) != Deploys
  {
  }

  lemma {:induction false} RunKeepsSafe(w: World, steps: seq<Step>, after: World)
    requires Safe(w) && Reaches(w, steps, after)
    ensures Safe(after)
    decreases |steps|
  {
    if steps == [] {
    } else {
      StepKeepsSafe(w, steps[0]);
      RunKeepsSafe(After(w, steps[0]), steps[1..], after);
    }
  }

  /** In every orderly run from a world without owners, whatever the stored statuses, each release name
      has at most one owner. */
  lemma AtMostOneOwner(w: World, steps: seq<Step>, after: World, a: Key, b: Key)
    requires WellFormed(w) && w.owners == {} && Reaches(w, steps, after)
    ensures WellFormed(after)
    ensures a in after.owners && b in after.owners && SameRelease(after, a, b) ==> a == b
  {
    RunKeepsSafe(w, steps, after);
  }

  // ---------------------------------------------------------------- when the protocol is safe

  ghost function Enumerate<T(!new)>(s: set<T>): (items: seq<T>)
    ensures forall x :: x in items <==> x in s
    decreases |s|
  {
    if s == {} then []
    else
      var x :| x in s;
      [x] + Enumerate(s - {x})
  }

  /** A cluster in which the charts can be deployed. */
  ghost predicate Serves(w: World, cluster: Rbac.Cluster) {
    && (forall k | k in w.charts :: ShouldManage(w.opts, w.charts[k], cluster) <==> k in w.managed)
    && (forall k | k in w.managed && k in w.charts :: ReleaseNamespaceOf(w.opts, w.charts[k]) in cluster.namespaces)
  }

  /** A call in which everything goes well. */
  ghost function GoodStep(w: World, cluster: Rbac.Cluster, k: Key): Step {
    Step(k, View(cluster, Enumerate(w.charts.Values), "", ["target"], map[], {}), Succeeds, true)
  }

  lemma GoodStepIsFresh(w: World, cluster: Rbac.Cluster, k: Key)
    requires Serves(w, cluster)
    ensures Fresh(w, GoodStep(w, cluster, k).view)
  {
  }

  lemma GoodStepDecides(w: World, cluster: Rbac.Cluster, k: Key)
    requires WellFormed(w) && Serves(w, cluster) && k in w.managed && Eligible(w.charts[k])
    ensures var s := GoodStep(w, cluster, k);
      Orderly(w, s) && Decision(w, s) == if HasRival(w, k) then Conflicts else Deploys
  {
    var s := GoodStep(w, cluster, k);
    GoodStepIsFresh(w, cluster, k);
    hide Fresh;
    ConflictsAreClaims(w, s);
    hide HasRival, ClaimedByOther, ReleaseName;
  }

  lemma StepKeepsServes(w: World, cluster: Rbac.Cluster, s: Step)
    requires WellFormed(w) && Serves(w, cluster) && s.key in w.managed
    ensures Serves(After(w, s), cluster)
  {
  }

  lemma GoodStepEffect(w: World, cluster: Rbac.Cluster, k: Key)
    requires WellFormed(w) && Serves(w, cluster) && k in w.managed && Eligible(w.charts[k])
    ensures var s := GoodStep(w, cluster, k); var after := After(w, s);
      && s.key == k && Orderly(w, s) && Serves(after, cluster) && WellFormed(after)
      && after.managed == w.managed && after.charts.Keys == w.charts.Keys
      && (forall c | c in w.charts && c != k :: after.charts[c] == w.charts[c])
      && Eligible(after.charts[k]) && Claims(after.charts[k].status) == !HasRival(w, k)
      && after.owners == (if HasRival(w, k) then w.owners - {k} else w.owners + {k})
      && (forall a, b | a in w.charts && b in w.charts :: SameRelease(after, a, b) <==> SameRelease(w, a, b))
  {
    var s := GoodStep(w, cluster, k);
    GoodStepDecides(w, cluster, k);
    StepKeepsSpecs(w, s);
    StepKeepsServes(w, cluster, s);
    hide Fresh, ReleaseName, Serves, SameRelease, HasRival, WellFormed;
  }

  /** The other claimants of the release, `rivals`, are turned away one after the other because of the
      claim of `d`; then nothing keeps `d` from becoming an owner beside `a`. */
  lemma {:induction false} TakeOver(w: World, cluster: Rbac.Cluster, a: Key, d: Key, rivals: set<Key>)
    returns (steps: seq<Step>, after: World)
    requires WellFormed(w) && Serves(w, cluster)
    requires a in w.owners && !Claims(w.charts[a].status)
    requires d in w.managed && d != a && SameRelease(w, d, a) && Eligible(w.charts[d])
    requires forall c | c in w.managed && c != d && SameRelease(w, d, c) && Claims(w.charts[c].status) :: c in rivals
    requires forall c | c in rivals ::
      c in w.managed && SameRelease(w, d, c) && Eligible(w.charts[c]) && c != d && c != a
    requires rivals != {} ==> Claims(w.charts[d].status)
    ensures Reaches(w, steps, after) && !(WellFormed(after) && UniqueOwners(after))
    decreases |rivals|
  {
    hide GoodStep, After, Fresh, Decision, LandsUnrecorded, Serves, ReleaseName;
    if rivals == {} {
      GoodStepEffect(w, cluster, d);
      var s := GoodStep(w, cluster, d);
      steps, after := [s], After(w, s);
      assert a in after.owners && d in after.owners && SameRelease(after, a, d);
      assert Reaches(after, steps[1..], after);
    } else {
      var k :| k in rivals;
      GoodStepEffect(w, cluster, k);
      var s := GoodStep(w, cluster, k);
      var rest, last := TakeOver(After(w, s), cluster, a, d, rivals - {k});
      steps, after := [s] + rest, last;
      assert steps[1..] == rest;
    }
  }

  lemma ExposedIsUnsafe(w: World, cluster: Rbac.Cluster, a: Key) returns (steps: seq<Step>, after: World)
    requires WellFormed(w) && Serves(w, cluster) && a in w.owners && Exposed(w, a)
    ensures Reaches(w, steps, after) && !(WellFormed(after) && UniqueOwners(after))
  {
    var claimants := set c | c in w.managed && SameRelease(w, a, c) && Claims(w.charts[c].status);
    var d :| d in w.managed && d != a && SameRelease(w, a, d) && Eligible(w.charts[d])
      && (claimants != {} ==> d in claimants);
    steps, after := TakeOver(w, cluster, a, d, claimants - {d});
  }

  /** Whatever orderly run follows, each release name has at most one owner. */
  ghost predicate UniqueForEver(w: World) {
    forall steps, after | Reaches(w, steps, after) :: WellFormed(after) && UniqueOwners(after)
  }

  lemma UniqueForEverIsUnique(w: World)
    requires WellFormed(w) && UniqueForEver(w)
    ensures UniqueOwners(w)
  {
    var nothing: seq<Step> := [];
    assert Reaches(w, nothing, w);
  }

  /** The protocol keeps every release name to one owner exactly from the safe worlds: those where it
      has one now, and where no owner that was never recorded meets a chart that could join it. */
  lemma UniqueForEverIffSafe(w: World, cluster: Rbac.Cluster)
    requires WellFormed(w) && Serves(w, cluster)
    ensures UniqueForEver(w) <==> Safe(w)
  {
    if Safe(w) {
      forall steps, after | Reaches(w, steps, after) ensures WellFormed(after) && UniqueOwners(after) {
        RunKeepsSafe(w, steps, after);
      }
    }
    hide Reaches, Exposed;
    if UniqueForEver(w) {
      UniqueForEverIsUnique(w);
      forall a | a in w.owners ensures !Exposed(w, a) {
        if Exposed(w, a) {
          var steps, after := ExposedIsUnsafe(w, cluster, a);
        }
      }
    }
  }

  /** How a world becomes exposed: a landing that is not recorded leaves an owner without a claim, and
      that matters exactly when another eligible chart wants the release name. */
  lemma UnrecordedLandingExposes(w: World, s: Step)
    requires WellFormed(w) && s.key in w.managed && Fresh(w, s.view) && LandsUnrecorded(w, s)
    ensures var after := After(w, s);
      && WellFormed(after) && s.key in after.owners
      && (Exposed(after, s.key)
          <==> exists b | b in w.managed :: b != s.key && SameRelease(w, s.key, b) && Eligible(w.charts[b]))
  {
    StepKeepsSpecs(w, s);
    ConflictsAreClaims(w, s);
    hide Fresh, ReleaseName, StatusOf, ClaimedByOther;
  }

  /** Why the view has to be fresh: two charts of a release that both see the other unprocessed both
      come to own it. */
  lemma StaleViewsShare(w: World, cluster: Rbac.Cluster, a: Key, b: Key) returns (after: World)
    requires WellFormed(w) && Serves(w, cluster) && forall k | k in w.charts :: w.charts[k].status.name == Empty
    requires a in w.managed && b in w.managed && a != b && SameRelease(w, a, b)
    requires Eligible(w.charts[a]) && Eligible(w.charts[b])
    ensures after == After(After(w, GoodStep(w, cluster, a)), GoodStep(w, cluster, b))
    ensures a in after.owners && b in after.owners
  {
    GoodStepEffect(w, cluster, a);
    GoodStepDecides(w, cluster, b);
    after := After(After(w, GoodStep(w, cluster, a)), GoodStep(w, cluster, b));
    DecisionIgnoresOwnStatus(w, After(w, GoodStep(w, cluster, a)), GoodStep(w, cluster, b));
    hide Decision, HasRival, Fresh, Serves, ReleaseName, StatusOf;
  }

  lemma DecisionIgnoresOwnStatus(w: World, other: World, s: Step)
    requires s.key in w.charts && s.key in other.charts
    requires w.opts == other.opts && w.charts[s.key] == other.charts[s.key]
    ensures Decision(w, s) == Decision(other, s)
  {
  }

  // ---------------------------------------------------------------- convergence

  /** A call in which nothing fails: the targets and the release namespace are there, and objects and
      status are written. */
  ghost predicate GoodCall(w: World, s: Step) {
    && s.key in w.managed && s.key in w.charts && Eligible(w.charts[s.key]) && Fresh(w, s.view)
    && s.view.failures == {} && s.view.targets != []
    && ReleaseNamespaceOf(w.opts, w.charts[s.key]) in s.view.cluster.namespaces
    && s.applied == Succeeds && s.written
  }

  /** The managed charts that want a release. */
  ghost predicate Wants(w: World, release: string, k: Key) {
    k in w.managed && k in w.charts && ReleaseName(w.opts, w.charts[k]) == release
  }

  /** Calls for any charts in any order, of which those for the charts of one release go well. The others
      may see, do and fail at what they like. */
  ghost predicate Processes(w: World, release: string, steps: seq<Step>, after: World)
    decreases |steps|
  {
    if steps == [] then after == w
    else
      && steps[0].key in w.managed && steps[0].key in w.charts
      && (Wants(w, release, steps[0].key) ==> GoodCall(w, steps[0]))
      && Processes(After(w, steps[0]), release, steps[1..], after)
  }

  /** `first` holds the release; of the other charts, those in `done` have been turned away and the rest
      makes no claim. */
  ghost predicate Settled(w: World, first: Key, done: set<Key>) {
    && WellFormed(w) && first in w.managed && first in w.owners
    && w.charts[first].status.name in {WaitingForDashboardValues, Deployed}
    && forall k | k in w.managed && k != first && SameRelease(w, first, k) ::
         && k !in w.owners && !Claims(w.charts[k].status)
         && (k in done ==> w.charts[k].status == Bare(UnableToCreateHelmRelease))
  }

  lemma GoodCallEffect(w: World, s: Step)
    requires WellFormed(w) && GoodCall(w, s)
    ensures var after := After(w, s);
      && WellFormed(after) && after.managed == w.managed && after.charts.Keys == w.charts.Keys
      && (forall a, b | a in w.charts && b in w.charts :: SameRelease(after, a, b) <==> SameRelease(w, a, b))
      && (forall k | k in w.charts && k != s.key :: after.charts[k] == w.charts[k])
      && Eligible(after.charts[s.key])
      && if HasRival(w, s.key)
         then after.owners == w.owners - {s.key} && after.charts[s.key].status == Bare(UnableToCreateHelmRelease)
         else && after.owners == w.owners + {s.key}
              && after.charts[s.key].status.name in {WaitingForDashboardValues, Deployed}
  {
    StepKeepsSpecs(w, s);
    ConflictsAreClaims(w, s);
    hide Fresh, ReleaseName, HasRival, ClaimedByOther;
  }

  lemma FirstCallSettles(w: World, s: Step)
    requires WellFormed(w) && GoodCall(w, s)
    requires forall k | k in w.managed && SameRelease(w, s.key, k) :: !Claims(w.charts[k].status) && k !in w.owners
    ensures Settled(After(w, s), s.key, {})
  {
    GoodCallEffect(w, s);
    hide After, GoodCall, ReleaseName;
  }

  /** Once the release is settled, a call turns any other chart away, changes nothing for one that has
      been turned away before, and leaves the holder what it is. */
  lemma CallKeepsSettled(w: World, first: Key, done: set<Key>, s: Step)
    requires Settled(w, first, done) && GoodCall(w, s) && SameRelease(w, first, s.key)
    ensures var after := After(w, s);
      Settled(after, first, done + {s.key}) && (s.key in done && s.key != first ==> after.charts == w.charts)
  {
    GoodCallEffect(w, s);
    hide GoodCall, ReleaseName, StatusOf;
  }

  /** The charts of the release that the calls are for, in turn. */
  ghost function Turns(w: World, release: string, steps: seq<Step>): seq<Key>
    decreases |steps|
  {
    if steps == [] || steps[0].key !in w.charts then []
    else
      (if Wants(w, release, steps[0].key) then [steps[0].key] else [])
      + Turns(After(w, steps[0]), release, steps[1..])
  }

  /** Nobody owns or claims the release. */
  ghost predicate Unclaimed(w: World, release: string) {
    WellFormed(w) && forall k | Wants(w, release, k) :: !Claims(w.charts[k].status) && k !in w.owners
  }

  /** A call for a chart of another release leaves this one as it is. */
  lemma OtherCallKeeps(w: World, release: string, s: Step)
    requires WellFormed(w) && s.key in w.managed && !Wants(w, release, s.key)
    ensures forall k :: Wants(After(w, s), release, k) <==> Wants(w, release, k)
    ensures Unclaimed(w, release) ==> Unclaimed(After(w, s), release)
    ensures forall first, done | Wants(w, release, first) && Settled(w, first, done) ::
      Settled(After(w, s), first, done)
  {
    StepKeepsSpecs(w, s);
    hide Decision, StatusOf, ReleaseName;
  }

  lemma StepKeepsWants(w: World, release: string, s: Step)
    requires WellFormed(w) && s.key in w.managed
    ensures WellFormed(After(w, s)) && forall k :: Wants(After(w, s), release, k) <==> Wants(w, release, k)
  {
    StepKeepsSpecs(w, s);
    hide Decision, StatusOf, ReleaseName;
  }

  lemma {:induction false} CallsKeepSettled(
    w: World, release: string, first: Key, done: set<Key>, steps: seq<Step>, after: World)
    requires Wants(w, release, first) && Settled(w, first, done) && Processes(w, release, steps, after)
    ensures Settled(after, first, done + Elements(Turns(w, release, steps)))
    decreases |steps|
  {
    hide Settled, GoodCall, After;
    if steps == [] {
      assert done + Elements(Turns(w, release, steps)) == done;
    } else {
      var s := steps[0];
      var turns := Turns(After(w, s), release, steps[1..]);
      SettledIsWellFormed(w, first, done);
      StepKeepsWants(w, release, s);
      if Wants(w, release, s.key) {
        CallKeepsSettled(w, first, done, s);
        CallsKeepSettled(After(w, s), release, first, done + {s.key}, steps[1..], after);
        assert done + {s.key} + Elements(turns) == done + Elements([s.key] + turns);
      } else {
        OtherCallKeeps(w, release, s);
        CallsKeepSettled(After(w, s), release, first, done, steps[1..], after);
        assert [] + turns == turns;
      }
    }
  }

  lemma SettledIsWellFormed(w: World, first: Key, done: set<Key>)
    requires Settled(w, first, done)
    ensures WellFormed(w)
  {
  }

  lemma FirstOfReleaseSettles(w: World, release: string, s: Step)
    requires Unclaimed(w, release) && Wants(w, release, s.key) && GoodCall(w, s)
    ensures Settled(After(w, s), s.key, {s.key})
  {
    FirstCallSettles(w, s);
    hide After, GoodCall, ReleaseName;
  }

  /** From a release that nobody owns or claims, processing its charts in any order and any number of
      times, with any calls for other releases in between, leaves the first one processed as the only
      claimant and owner, and turns all others away. */
  lemma {:induction false} FirstProcessedWins(w: World, release: string, steps: seq<Step>, after: World)
    requires Unclaimed(w, release) && Processes(w, release, steps, after)
    ensures var turns := Turns(w, release, steps);
      if turns == [] then Unclaimed(after, release) else Settled(after, turns[0], Elements(turns))
    decreases |steps|
  {
    hide After, GoodCall, Settled, Wants;
    if steps == [] {
    } else {
      var s := steps[0];
      var turns := Turns(After(w, s), release, steps[1..]);
      StepKeepsWants(w, release, s);
      if Wants(w, release, s.key) {
        FirstOfReleaseSettles(w, release, s);
        CallsKeepSettled(After(w, s), release, s.key, {s.key}, steps[1..], after);
        assert {s.key} + Elements(turns) == Elements([s.key] + turns);
      } else {
        OtherCallKeeps(w, release, s);
        FirstProcessedWins(After(w, s), release, steps[1..], after);
        assert [] + turns == turns;
      }
    }
  }
}
