/** Locker controllers of several operators share HelmRelease objects through the managed-by annotation.

    One HelmRelease, any number of controllers. Each decides on its own cached copy, which may be any
    version the object ever had; the API rejects an update that was made from a version that is not
    the current one. */
module ManagedBy {
  import opened Prelude
  import opened HelmReleases

  type Id = nat

  datatype World = World(
    systemNamespace: string,
    namespace: string,
    names: map<Id, string>,
    history: seq<Option<string>>,
    cached: map<Id, nat>,
    reached: seq<Id>)

  datatype Step =
    | Refresh(id: Id, version: nat)
    | Reconcile(id: Id)
    | Touch

  /** The annotation as it is stored now. */
  function Current(w: World): Option<string>
    requires w.history != []
  {
    w.history[|w.history| - 1]
  }

  predicate WellFormed(w: World) {
    && w.history != []
    && w.cached.Keys == w.names.Keys
    && forall id | id in w.cached :: w.cached[id] < |w.history|
  }

  /** Controllers that have seen nothing but the unclaimed object. */
  predicate Initial(w: World) {
    && w.history == [None] && w.reached == []
    && w.cached.Keys == w.names.Keys
    && forall id | id in w.cached :: w.cached[id] == 0
  }

  predicate Enabled(w: World, s: Step) {
    match s
    case Refresh(id, version) => id in w.names && version < |w.history|
    case Reconcile(id) => id in w.names
    case Touch => true
  }

  /** A claim is an update of the cached copy; a stale one changes nothing. */
  function After(w: World, s: Step): (after: World)
    requires WellFormed(w) && Enabled(w, s)
    ensures WellFormed(after) && after.names == w.names
    ensures after.namespace == w.namespace && after.systemNamespace == w.systemNamespace
  {
    match s
    case Refresh(id, version) => w.(cached := w.cached[id := version])
    case Touch => w.(history := w.history + [Current(w)])
    case Reconcile(id) =>
      match ShouldManage(w.systemNamespace, w.names[id], w.namespace, w.history[w.cached[id]])
      case Ignore => w
      case Manage => w.(reached := w.reached + [id])
      case Claim => if w.cached[id] == |w.history| - 1 then w.(history := w.history + [Some(w.names[id])]) else w
  }

  /** `after` is reached from `w` by the steps. */
  predicate Reaches(w: World, steps: seq<Step>, after: World)
    requires WellFormed(w)
    decreases |steps|
  {
    if steps == [] then after == w
    else Enabled(w, steps[0]) && Reaches(After(w, steps[0]), steps[1..], after)
  }

  /** A claim is for ever, and whoever has reached the register is the controller that it names. */
  predicate Sound(w: World) {
    && (forall i, j | 0 <= i <= j < |w.history| :: w.history[i].Some? ==> w.history[j] == w.history[i])
    && (forall i | 0 <= i < |w.reached| ::
          w.reached[i] in w.names && w.history != [] && Current(w) == Some(w.names[w.reached[i]]))
  }

  lemma StepKeepsSound(w: World, s: Step)
    requires WellFormed(w) && Sound(w) && Enabled(w, s)
    ensures Sound(After(w, s))
    ensures Current(w).Some? ==> Current(After(w, s)) == Current(w)
  {
  }

  lemma {:induction false} RunKeepsSound(w: World, steps: seq<Step>, after: World)
    requires WellFormed(w) && Sound(w) && Reaches(w, steps, after)
    ensures WellFormed(after) && Sound(after) && after.names == w.names
    ensures Current(w).Some? ==> Current(after) == Current(w)
    decreases |steps|
  {
    if steps == [] {
    } else {
      StepKeepsSound(w, steps[0]);
      RunKeepsSound(After(w, steps[0]), steps[1..], after);
    }
  }

  /** A claim is decided on the copy that was read: once the object has been updated since, it is rejected. */
  lemma StaleClaimIsRejected(w: World, id: Id)
    requires WellFormed(w) && id in w.names
    requires w.namespace == w.systemNamespace && w.history[w.cached[id]] == None
    ensures var touched := After(w, Touch); After(touched, Reconcile(id)) == touched
    ensures w.cached[id] == |w.history| - 1 ==> Current(After(w, Reconcile(id))) == Some(w.names[id])
  {
  }

  /** In every run, a claim is never changed by a later one. */
  lemma ClaimIsForEver(w: World, before: seq<Step>, claimed: World, later: seq<Step>, after: World)
    requires Initial(w) && Reaches(w, before, claimed)
    requires WellFormed(claimed) && Current(claimed).Some? && Reaches(claimed, later, after)
    ensures after.history != [] && Current(after) == Current(claimed)
    ensures forall i | 0 <= i < |after.reached| ::
      after.reached[i] in w.names && Some(w.names[after.reached[i]]) == Current(claimed)
  {
    RunKeepsSound(w, before, claimed);
    RunKeepsSound(claimed, later, after);
  }

  ghost predicate Distinct(names: map<Id, string>) {
    forall a, b | a in names && b in names && names[a] == names[b] :: a == b
  }

  /** Whatever happens, at most one controller reaches the register for the release. */
  ghost predicate AtMostOneReaches(w: World)
    requires WellFormed(w)
  {
    forall steps, after | Reaches(w, steps, after) ::
      forall i, j | 0 <= i < |after.reached| && 0 <= j < |after.reached| :: after.reached[i] == after.reached[j]
  }

  /** Two controllers of one name both take a release that either of them has claimed. */
  lemma NamesakesShare(w: World, a: Id, b: Id) returns (steps: seq<Step>, after: World)
    requires Initial(w) && w.namespace == w.systemNamespace
    requires a in w.names && b in w.names && a != b && w.names[a] == w.names[b]
    ensures Reaches(w, steps, after) && after.reached == [a, b]
  {
    steps := [Reconcile(a), Refresh(a, 1), Refresh(b, 1), Reconcile(a), Reconcile(b)];
    var w1 := After(w, steps[0]);
    var w2 := After(w1, steps[1]);
    var w3 := After(w2, steps[2]);
    var w4 := After(w3, steps[3]);
    after := After(w4, steps[4]);
    assert Reaches(after, steps[5..], after);
    assert steps[4..][1..] == steps[5..] && Reaches(w4, steps[4..], after);
    assert steps[3..][1..] == steps[4..] && Reaches(w3, steps[3..], after);
    assert steps[2..][1..] == steps[3..] && Reaches(w2, steps[2..], after);
    assert steps[1..][1..] == steps[2..] && Reaches(w1, steps[1..], after);
  }

  /** The protocol keeps controllers apart exactly when their names do. */
  lemma ExclusiveIffNamesDiffer(w: World)
    requires Initial(w) && w.namespace == w.systemNamespace
    ensures AtMostOneReaches(w) <==> Distinct(w.names)
  {
    if Distinct(w.names) {
      forall steps, after | Reaches(w, steps, after)
        ensures forall i, j | 0 <= i < |after.reached| && 0 <= j < |after.reached| ::
          after.reached[i] == after.reached[j]
      {
        RunKeepsSound(w, steps, after);
      }
    } else {
      var a, b :| a in w.names && b in w.names && w.names[a] == w.names[b] && a != b;
      var steps, after := NamesakesShare(w, a, b);
      assert after.reached[0] != after.reached[1];
    }
  }
}
