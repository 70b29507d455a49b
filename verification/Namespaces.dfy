/** Start-up of the namespace controller: a scan lists the project registration namespaces that are to
    be expected while workers create and track them, and start-up waits until the two agree. */
module Namespaces {
  import opened Prelude

  datatype Namespace = Namespace(name: string, labels: map<string, string>, deleting: bool)

  class Tracker {
    var namespaceMap: map<string, Namespace>

    constructor ()
      ensures namespaceMap == map[]
    {
      namespaceMap := map[];
    }

    predicate Has(name: string)
      reads this
    {
      name in namespaceMap
    }

    /** Whether all names are tracked and there are as many of them. */
    method Compare(names: seq<string>) returns (ok: bool)
      ensures ok <==> Elements(names) <= namespaceMap.Keys && |names| == |namespaceMap|
    {
      for i := 0 to |names|
        invariant Elements(names[..i]) <= namespaceMap.Keys
      {
        if names[i] !in namespaceMap {
          assert names[i] in Elements(names);
          return false;
        }
        assert names[..i + 1] == names[..i] + [names[i]];
      }
      assert names[..|names|] == names;
      return |names| == |namespaceMap|;
    }

    method Set(ns: Namespace)
      modifies this
      ensures namespaceMap == old(namespaceMap)[ns.name := ns]
    {
      namespaceMap := namespaceMap[ns.name := ns];
    }

    method Delete(ns: Namespace)
      modifies this
      ensures namespaceMap == old(namespaceMap) - {ns.name}
    {
      namespaceMap := namespaceMap - {ns.name};
    }
  }

  lemma {:induction false} DistinctCount<T>(xs: seq<T>)
    requires NoDuplicates(xs)
    ensures |Elements(xs)| == |xs|
    decreases |xs|
  {
    if xs == [] {
    } else {
      var init, last := xs[..|xs| - 1], xs[|xs| - 1];
      DistinctCount(init);
      assert Elements(xs) == Elements(init) + {last};
      assert last !in Elements(init);
    }
  }

  lemma SubsetOfSameSize<T>(a: set<T>, b: set<T>)
    requires a <= b
    ensures |b| == |a| + |b - a|
  {
  }

  /** Counting is enough: without duplicates, Compare succeeds exactly when the names are those tracked. */
  lemma CompareMeansEqual(names: seq<string>, tracked: set<string>)
    requires NoDuplicates(names)
    ensures Elements(names) <= tracked && |names| == |tracked| <==> Elements(names) == tracked
  {
    DistinctCount(names);
    if Elements(names) <= tracked {
      SubsetOfSameSize(Elements(names), tracked);
    }
  }

  /** With a duplicate in the list, Compare never accepts the very names that are listed. */
  lemma {:induction false} DuplicatesNeverCompare(names: seq<string>)
    requires !NoDuplicates(names)
    ensures |Elements(names)| < |names|
  {
    var i, j :| 0 <= i < j < |names| && names[i] == names[j];
    var others := names[..j] + names[j + 1..];
    assert Elements(others) == Elements(names) by {
      assert names[i] == others[i];
      forall x | x in Elements(names) ensures x in Elements(others) {
        var k :| 0 <= k < |names| && names[k] == x;
        assert k < j ==> others[k] == x;
        assert k > j ==> others[k - 1] == x;
      }
    }
    CountAtMost(others);
  }

  lemma {:induction false} CountAtMost<T>(xs: seq<T>)
    ensures |Elements(xs)| <= |xs|
    decreases |xs|
  {
    if xs == [] {
    } else {
      CountAtMost(xs[..|xs| - 1]);
      assert Elements(xs) == Elements(xs[..|xs| - 1]) + {xs[|xs| - 1]};
    }
  }

  // ---------------------------------------------------------------- which namespace is what

  datatype Options = Options(
    projectLabel: string, projectReleaseLabelValue: string, systemProjectLabelValues: seq<string>,
    systemNamespaces: set<string>)

  function ProjectOf(opts: Options, ns: Namespace): Option<string> {
    if opts.projectLabel != "" && opts.projectLabel in ns.labels then Some(ns.labels[opts.projectLabel]) else None
  }

  predicate IsSystem(opts: Options, ns: Namespace) {
    || ns.name in opts.systemNamespaces
    || (ProjectOf(opts, ns).Some?
        && (ProjectOf(opts, ns).value in opts.systemProjectLabelValues
            || (opts.projectReleaseLabelValue != "" && ProjectOf(opts, ns).value == opts.projectReleaseLabelValue)))
  }

  method IsSystemNamespace(opts: Options, ns: Namespace) returns (system: bool)
    ensures system <==> IsSystem(opts, ns)
    ensures system <==>
      || ns.name in opts.systemNamespaces
      || (opts.projectLabel != "" && opts.projectLabel in ns.labels
          && ns.labels[opts.projectLabel] in opts.systemProjectLabelValues + [opts.projectReleaseLabelValue]
          && (ns.labels[opts.projectLabel] == "" ==> "" in opts.systemProjectLabelValues))
  {
    if ns.name in opts.systemNamespaces {
      return true;
    }
    var values := [];
    if |opts.systemProjectLabelValues| != 0 {
      values := values + opts.systemProjectLabelValues;
    }
    if |opts.projectReleaseLabelValue| != 0 {
      values := values + [opts.projectReleaseLabelValue];
    }
    var project := ProjectOf(opts, ns);
    if project.None? {
      return false;
    }
    assert project.value in values <==> IsSystem(opts, ns);
    hide IsSystem, ProjectOf;
    system := Occurs(project.value, values);
  }

  /** The search loop. */
  method Occurs(value: string, values: seq<string>) returns (found: bool)
    ensures found <==> value in values
  {
    for i := 0 to |values|
      invariant value !in values[..i]
    {
      if value == values[i] {
        return true;
      }
    }
    return false;
  }

  function RegistrationName(projectID: string): string {
    "cattle-project-" + projectID
  }

  predicate TooLong(name: string) {
    |name| > 63
  }

  // ---------------------------------------------------------------- the steps

  /** `queued` and `running` are the project IDs that the workqueue holds and its workers have taken.
      `dropped` are the listed namespaces that were seen being deleted after they had been tracked. */
  datatype State = State(
    list: seq<string>, tracked: set<string>, queued: set<string>, running: set<string>, dropped: set<string>)

  const START := State([], {}, {}, {}, {})

  /** How the work on a registration namespace ends: with an error of the index, with one of the apply or
      the read that follow, with one after the namespace is tracked, or well. */
  datatype Work = IndexFails | FailsUntracked | FailsTracked | Done

  datatype Step =
    | Scan(ns: Namespace, enqueued: bool, updated: bool)
    | Take(projectID: string)
    | Finish(projectID: string, work: Work)

  function Listed(list: seq<string>, name: string): seq<string> {
    if name in list then list else list + [name]
  }

  function AfterScan(opts: Options, s: State, ns: Namespace, enqueued: bool, updated: bool): State {
    if ns.name in s.tracked then
      if enqueued && ns.deleting then s.(tracked := s.tracked - {ns.name}, dropped := s.dropped + {ns.name}) else s
    else if IsSystem(opts, ns) || !updated || ProjectOf(opts, ns).None? then s
    else
      var projectID := ProjectOf(opts, ns).value;
      s.(list := Listed(s.list, RegistrationName(projectID)), queued := s.queued + {projectID})
  }

  /** A failed try is queued once more. A name that is too long is given up, once the index has answered. */
  function AfterWork(s: State, projectID: string, work: Work): State {
    var name := RegistrationName(projectID);
    var finished := s.(running := s.running - {projectID});
    var requeued := finished.(queued := s.queued + {projectID});
    if work == IndexFails then requeued
    else if TooLong(name) then finished
    else if work == FailsUntracked then requeued
    else
      (if work == Done then finished else requeued).(tracked := s.tracked + {name}, dropped := s.dropped - {name})
  }

  /** A tracked registration namespace is dropped when it is being deleted, unless enqueueing its project
      fails. */
  ghost predicate KeepsTrack(ns: Namespace, enqueued: bool, before: State, after: State) {
    && after.list == before.list && after.queued == before.queued && after.running == before.running
    && (enqueued && ns.deleting ==>
          ns.name !in after.tracked && after.tracked + {ns.name} == before.tracked
          && after.dropped == before.dropped + {ns.name})
    && (!enqueued || !ns.deleting ==> after.tracked == before.tracked && after.dropped == before.dropped)
  }

  /** Any other namespace gets its project a registration namespace, listed once, if it has the project label, is
      no system namespace, and its own labels can be updated. */
  ghost predicate Registers(opts: Options, ns: Namespace, updated: bool, before: State, after: State) {
    && after.tracked == before.tracked && after.running == before.running && after.dropped == before.dropped
    && (!updated || IsSystem(opts, ns) || opts.projectLabel == "" || opts.projectLabel !in ns.labels ==>
          after.list == before.list && after.queued == before.queued)
    && (updated && !IsSystem(opts, ns) && opts.projectLabel != "" && opts.projectLabel in ns.labels ==>
          var id := ns.labels[opts.projectLabel];
          && after.queued == before.queued + {id}
          && "cattle-project-" + id in after.list
          && if "cattle-project-" + id in before.list then after.list == before.list
             else after.list == before.list + ["cattle-project-" + id])
  }

  predicate Enabled(s: State, step: Step) {
    match step
    case Scan(_, _, _) => true
    case Take(projectID) => projectID in s.queued && projectID !in s.running
    case Finish(projectID, _) => projectID in s.running
  }

  function After(opts: Options, s: State, step: Step): State {
    match step
    case Scan(ns, enqueued, updated) => AfterScan(opts, s, ns, enqueued, updated)
    case Take(projectID) => s.(queued := s.queued - {projectID}, running := s.running + {projectID})
    case Finish(projectID, work) => AfterWork(s, projectID, work)
  }

  predicate Reaches(opts: Options, s: State, steps: seq<Step>, after: State)
    decreases |steps|
  {
    if steps == [] then after == s
    else Enabled(s, steps[0]) && Reaches(opts, After(opts, s, steps[0]), steps[1..], after)
  }

  predicate CompareOk(s: State) {
    Elements(s.list) <= s.tracked && |s.list| == |s.tracked|
  }

  /** Why a listed namespace is where it is. */
  predicate Accounted(s: State, projectID: string) {
    var name := RegistrationName(projectID);
    name in s.tracked || projectID in s.queued || projectID in s.running || TooLong(name) || name in s.dropped
  }

  ghost predicate Sound(s: State) {
    && NoDuplicates(s.list)
    && s.tracked <= Elements(s.list)
    && (forall id | id in s.queued + s.running :: RegistrationName(id) in s.list)
    && (forall name | name in s.list :: exists id :: name == RegistrationName(id))
    && (forall id | RegistrationName(id) in s.list :: Accounted(s, id))
    && (forall name | name in s.tracked :: !TooLong(name) && name !in s.dropped)
  }

  lemma RegistrationNameIsInjective(a: string, b: string)
    requires RegistrationName(a) == RegistrationName(b)
    ensures a == b
  {
    var n := |"cattle-project-"|;
    assert a == RegistrationName(a)[n..] && b == RegistrationName(b)[n..];
  }

  lemma StepKeepsAccounted(opts: Options, s: State, step: Step, id: string)
    requires Enabled(s, step) && RegistrationName(id) in After(opts, s, step).list
    requires RegistrationName(id) in s.list ==> Accounted(s, id)
    ensures Accounted(After(opts, s, step), id)
  {
    if step.Finish? && RegistrationName(id) == RegistrationName(step.projectID) {
      RegistrationNameIsInjective(id, step.projectID);
    }
    if step.Scan? && ProjectOf(opts, step.ns).Some?
      && RegistrationName(id) == RegistrationName(ProjectOf(opts, step.ns).value) {
      RegistrationNameIsInjective(id, ProjectOf(opts, step.ns).value);
    }
    hide RegistrationName, ProjectOf, IsSystem;
  }

  lemma StepKeepsSound(opts: Options, s: State, step: Step)
    requires Sound(s) && Enabled(s, step)
    ensures Sound(After(opts, s, step))
    ensures Elements(s.list) <= Elements(After(opts, s, step).list)
  {
    hide RegistrationName, ProjectOf, IsSystem, Accounted;
    forall id | RegistrationName(id) in After(opts, s, step).list ensures Accounted(After(opts, s, step), id) {
      StepKeepsAccounted(opts, s, step, id);
    }
  }

  lemma {:induction false} RunKeepsSound(opts: Options, s: State, steps: seq<Step>, after: State)
    requires Sound(s) && Reaches(opts, s, steps, after)
    ensures Sound(after) && Elements(s.list) <= Elements(after.list)
    decreases |steps|
  {
    if steps == [] {
    } else {
      StepKeepsSound(opts, s, steps[0]);
      RunKeepsSound(opts, After(opts, s, steps[0]), steps[1..], after);
    }
  }

  /** Every listed registration namespace is that of a project which a scanned namespace belongs to that is no
      system namespace and could be labelled. */
  lemma {:induction false} ListedWereScanned(opts: Options, s: State, steps: seq<Step>, after: State, name: string)
    requires Reaches(opts, s, steps, after) && name in after.list && name !in s.list
    ensures exists step | step in steps && step.Scan? ::
      && step.updated && step.ns.name !in opts.systemNamespaces && !IsSystem(opts, step.ns)
      && opts.projectLabel != "" && opts.projectLabel in step.ns.labels
      && name == "cattle-project-" + step.ns.labels[opts.projectLabel]
    decreases |steps|
  {
    if steps == [] {
    } else if name in After(opts, s, steps[0]).list {
      assert steps[0] in steps && steps[0].Scan?;
    } else {
      ListedWereScanned(opts, After(opts, s, steps[0]), steps[1..], after, name);
      var step :| step in steps[1..] && step.Scan? && step.updated && !IsSystem(opts, step.ns)
        && opts.projectLabel != "" && opts.projectLabel in step.ns.labels
        && name == "cattle-project-" + step.ns.labels[opts.projectLabel];
      assert step in steps;
    }
  }

  /** At any moment of start-up the list has no duplicates, everything queued or tracked is in it, and
      Compare succeeds exactly when the tracked namespaces are the listed ones. */
  lemma CompareIsExact(opts: Options, steps: seq<Step>, after: State)
    requires Reaches(opts, START, steps, after)
    ensures NoDuplicates(after.list) && after.tracked <= Elements(after.list)
    ensures forall id | id in after.queued + after.running :: RegistrationName(id) in after.list
    ensures CompareOk(after) <==> after.tracked == Elements(after.list)
  {
    RunKeepsSound(opts, START, steps, after);
    CompareMeansEqual(after.list, after.tracked);
  }

  /** When the workers have come to rest, Compare succeeds exactly when no listed name is too long and
      none was dropped for good. */
  lemma RestMeansReady(opts: Options, steps: seq<Step>, after: State)
    requires Reaches(opts, START, steps, after) && after.queued == {} && after.running == {}
    ensures CompareOk(after) <==> forall name | name in after.list :: !TooLong(name) && name !in after.dropped
  {
    RunKeepsSound(opts, START, steps, after);
    CompareIsExact(opts, steps, after);
    if forall name | name in after.list :: !TooLong(name) && name !in after.dropped {
      forall name | name in after.list ensures name in after.tracked {
        var id :| name == RegistrationName(id);
        assert Accounted(after, id);
      }
    }
    if CompareOk(after) {
      forall name | name in after.list ensures name in after.tracked {
        assert name in Elements(after.list);
      }
    }
  }

  /** A project whose registration name is too long is listed but never tracked, so that start-up can no
      longer succeed, however long it waits. */
  lemma TooLongNeverCompares(opts: Options, steps: seq<Step>, now: State, later: seq<Step>, after: State, name: string)
    requires Reaches(opts, START, steps, now) && name in now.list && TooLong(name)
    requires Reaches(opts, now, later, after)
    ensures !CompareOk(after)
  {
    RunKeepsSound(opts, START, steps, now);
    RunKeepsSound(opts, now, later, after);
    assert name in Elements(now.list);
    assert name in Elements(after.list) && name !in after.tracked;
  }

  // ---------------------------------------------------------------- the code

  /** The namespace handler with the workqueue of its applyinator. */
  class Handler {
    const opts: Options
    const tracker: Tracker
    var initializationList: seq<string>
    var queued: set<string>
    var running: set<string>
    ghost var dropped: set<string>

    ghost function Value(): State
      reads this, tracker
    {
      State(initializationList, tracker.namespaceMap.Keys, queued, running, dropped)
    }

    constructor (opts: Options)
      ensures this.opts == opts && Value() == START && fresh(tracker)
    {
      this.opts := opts;
      tracker := new Tracker();
      initializationList, queued, running, dropped := [], {}, {}, {};
    }

    method OnMultiNamespaceChange(ns: Namespace, enqueued: bool, updated: bool) returns (ok: bool)
      modifies this`initializationList, this`queued, this`dropped, tracker
      ensures Value() == AfterScan(opts, old(Value()), ns, enqueued, updated)
      ensures ok == if old(tracker.Has(ns.name)) then enqueued else IsSystem(opts, ns) || updated
      ensures old(tracker.Has(ns.name)) ==> KeepsTrack(ns, enqueued, old(Value()), Value())
      ensures old(!tracker.Has(ns.name)) ==> Registers(opts, ns, updated, old(Value()), Value())
    {
      if tracker.Has(ns.name) {
        if !enqueued {
          return false;
        }
        if ns.deleting {
          tracker.Delete(ns);
          dropped := dropped + {ns.name};
        }
        return true;
      }
      var system := IsSystemNamespace(opts, ns);
      if system {
        return true;
      }
      ok := ApplyProjectRegistrationNamespaceForNamespace(ns, updated);
    }

    method ApplyProjectRegistrationNamespaceForNamespace(ns: Namespace, updated: bool) returns (ok: bool)
      modifies this`initializationList, this`queued
      ensures ok == updated
      ensures if updated && ProjectOf(opts, ns).Some?
              then && initializationList == Listed(old(initializationList), RegistrationName(ProjectOf(opts, ns).value))
                   && queued == old(queued) + {ProjectOf(opts, ns).value}
              else unchanged(this)
    {
      var project := ProjectOf(opts, ns);
      if !updated {
        return false;
      }
      if project.None? {
        return true;
      }
      var name := RegistrationName(project.value);
      if name !in initializationList {
        initializationList := initializationList + [name];
      }
      queued := queued + {project.value};
      return true;
    }

    /** `found` is the registration namespace as it is read back after the apply. */
    method ApplyProjectRegistrationNamespace(projectID: string, found: Namespace, work: Work) returns (ok: bool)
      requires found.name == RegistrationName(projectID)
      modifies this`dropped, tracker
      ensures if work == IndexFails || |found.name| > 63 || work == FailsUntracked
              then unchanged(tracker) && dropped == old(dropped)
              else && tracker.namespaceMap == old(tracker.namespaceMap)[found.name := found]
                   && dropped == old(dropped) - {found.name}
      ensures ok <==> work != IndexFails && (|found.name| > 63 || work == Done)
    {
      if work == IndexFails {
        return false;
      }
      if |found.name| > 63 {
        return true;
      }
      if work == FailsUntracked {
        return false;
      }
      tracker.Set(found);
      dropped := dropped - {found.name};
      return work == Done;
    }

    method ProcessNextItem() returns (projectID: string)
      requires exists id :: id in queued && id !in running
      modifies this`queued, this`running
      ensures projectID in old(queued) && projectID !in old(running)
      ensures queued == old(queued) - {projectID} && running == old(running) + {projectID}
      ensures Value() == After(opts, old(Value()), Take(projectID))
    {
      projectID :| projectID in queued && projectID !in running;
      queued, running := queued - {projectID}, running + {projectID};
    }

    method ProcessSingleItem(projectID: string, found: Namespace, work: Work)
      requires projectID in running && found.name == RegistrationName(projectID)
      modifies this`queued, this`running, this`dropped, tracker
      ensures Value() == AfterWork(old(Value()), projectID, work)
      ensures running == old(running) - {projectID} && initializationList == old(initializationList)
      ensures queued == old(queued)
        + if work == Done || (work != IndexFails && |projectID| > 48) then {} else {projectID}
      ensures tracker.namespaceMap.Keys == old(tracker.namespaceMap.Keys)
        + if work in {Done, FailsTracked} && |projectID| <= 48 then {"cattle-project-" + projectID} else {}
    {
      var ok := ApplyProjectRegistrationNamespace(projectID, found, work);
      if !ok {
        queued := queued + {projectID};
      }
      running := running - {projectID};
    }
  }

  // ---------------------------------------------------------------- target namespaces

  /** The order of Go strings. */
  predicate AtMost(a: string, b: string) {
    a == "" || (b != "" && (a[0] < b[0] || (a[0] == b[0] && AtMost(a[1..], b[1..]))))
  }

  /** The first string ends where they are the same so far, or has the smaller character where they differ. */
  lemma {:induction false} AtMostIsLexicographic(a: string, b: string)
    ensures AtMost(a, b) <==>
      a <= b || exists i :: 0 <= i < |a| && i < |b| && a[..i] == b[..i] && a[i] < b[i]
    decreases |a|
  {
    if a == "" || b == "" {
    } else if a[0] != b[0] {
      assert a[..0] == b[..0];
      assert forall i | 0 < i < |a| && i < |b| :: a[..i][0] != b[..i][0];
    } else {
      var c, d := a[1..], b[1..];
      AtMostIsLexicographic(c, d);
      assert a == [a[0]] + c && b == [b[0]] + d;
      if i :| 0 <= i < |c| && i < |d| && c[..i] == d[..i] && c[i] < d[i] {
        assert a[..i + 1] == [a[0]] + c[..i] && b[..i + 1] == [b[0]] + d[..i] && a[i + 1] < b[i + 1];
      }
      if i :| 0 <= i < |a| && i < |b| && a[..i] == b[..i] && a[i] < b[i] {
        assert c[..i - 1] == a[..i][1..] && d[..i - 1] == b[..i][1..] && c[i - 1] < d[i - 1];
      }
    }
  }

  lemma {:induction false} AtMostIsTotal(a: string, b: string)
    ensures AtMost(a, b) || AtMost(b, a)
    decreases |a|
  {
    if a == "" || b == "" {
    } else if a[0] == b[0] {
      AtMostIsTotal(a[1..], b[1..]);
    }
  }

  lemma {:induction false} AtMostIsTransitive(a: string, b: string, c: string)
    requires AtMost(a, b) && AtMost(b, c)
    ensures AtMost(a, c)
    decreases |a|
  {
    if a == "" {
    } else if a[0] == b[0] == c[0] {
      AtMostIsTransitive(a[1..], b[1..], c[1..]);
    }
  }

  predicate Sorted(xs: seq<string>) {
    forall i, j | 0 <= i < j < |xs| :: AtMost(xs[i], xs[j])
  }

  /** One step of a sort: the place of `x` in a sorted sequence. */
  method InsertSorted(xs: seq<string>, x: string) returns (ys: seq<string>)
    requires Sorted(xs)
    ensures Sorted(ys) && multiset(ys) == multiset(xs) + multiset{x}
  {
    hide AtMost;
    var i := 0;
    while i < |xs| && AtMost(xs[i], x)
      invariant i <= |xs| && forall j | 0 <= j < i :: AtMost(xs[j], x)
    {
      i := i + 1;
    }
    ys := xs[..i] + [x] + xs[i..];
    assert xs == xs[..i] + xs[i..];
    forall j | i <= j < |xs| ensures AtMost(x, xs[j]) {
      AtMostIsTotal(xs[i], x);
      if j > i {
        AtMostIsTransitive(x, xs[i], xs[j]);
      }
    }
  }

  method SortStrings(xs: seq<string>) returns (ys: seq<string>)
    ensures Sorted(ys) && multiset(ys) == multiset(xs)
  {
    hide AtMost, Sorted;
    ys := [];
    NothingIsSorted();
    for i := 0 to |xs|
      invariant Sorted(ys) && multiset(ys) == multiset(xs[..i])
    {
      assert xs[..i + 1] == xs[..i] + [xs[i]];
      ys := InsertSorted(ys, xs[i]);
    }
    assert xs[..|xs|] == xs;
  }

  lemma NothingIsSorted()
    ensures Sorted([])
  {
  }

  lemma {:induction false} SingleInMultiset(xs: seq<string>)
    requires NoDuplicates(xs)
    ensures forall x :: multiset(xs)[x] <= 1
    decreases |xs|
  {
    if xs == [] {
    } else {
      var init, last := xs[..|xs| - 1], xs[|xs| - 1];
      assert xs == init + [last];
      SingleInMultiset(init);
      assert last !in init;
    }
  }

  /** Sorting brings no duplicates and loses nothing. */
  lemma SortKeeps(xs: seq<string>, ys: seq<string>)
    requires NoDuplicates(xs) && multiset(xs) == multiset(ys)
    ensures NoDuplicates(ys) && Elements(ys) == Elements(xs)
  {
    SingleInMultiset(xs);
    forall i, j | 0 <= i < j < |ys| ensures ys[i] != ys[j] {
      var front, back := ys[..j], ys[j + 1..];
      assert ys == front + [ys[j]] + back;
      assert multiset(ys) == multiset(front) + multiset{ys[j]} + multiset(back);
      assert front[i] in multiset(front) && multiset(xs)[ys[i]] <= 1;
    }
    forall x ensures x in ys <==> x in xs {
      assert x in ys <==> x in multiset(ys);
      assert x in xs <==> x in multiset(xs);
    }
  }

  /** The targets of a project as a list: the namespaces with its label value, but neither registration nor
      system namespaces. */
  ghost predicate AreTargets(
    targets: seq<string>, opts: Options, registration: set<string>, cluster: map<string, Namespace>, projectID: string)
  {
    && Sorted(targets) && NoDuplicates(targets)
    && forall n :: n in targets <==>
         && n in cluster && n !in registration && !IsSystem(opts, cluster[n])
         && opts.projectLabel in cluster[n].labels && cluster[n].labels[opts.projectLabel] == projectID
  }

  /** The label-based getter, over the namespaces of the cluster by name. None is an error: reading the
      namespace of the chart or listing fails, or the namespace of the chart lacks the label. */
  method GetTargetProjectNamespaces(opts: Options, registration: set<string>, cluster: map<string, Namespace>,
                                    chartNamespace: string, getOk: bool, listOk: bool)
    returns (targets: Option<seq<string>>)
    requires opts.projectLabel != "" && forall n | n in cluster :: cluster[n].name == n
    ensures targets == None
       <==> !getOk || (chartNamespace in cluster
                       && (opts.projectLabel !in cluster[chartNamespace].labels || !listOk))
    ensures getOk && chartNamespace !in cluster ==> targets == Some([])
    ensures chartNamespace in cluster && targets.Some? ==>
      && opts.projectLabel in cluster[chartNamespace].labels
      && AreTargets(targets.value, opts, registration, cluster, cluster[chartNamespace].labels[opts.projectLabel])
  {
    if !getOk {
      return None;
    }
    if chartNamespace !in cluster {
      return Some([]);
    }
    var project := ProjectOf(opts, cluster[chartNamespace]);
    if project.None? {
      return None;
    }
    if !listOk {
      return None;
    }
    hide Sorted, IsSystem;
    var items := set n | n in cluster && ProjectOf(opts, cluster[n]) == project;
    assert forall n :: n in items <==>
      n in cluster && opts.projectLabel in cluster[n].labels && cluster[n].labels[opts.projectLabel] == project.value;
    hide ProjectOf;
    var namespaces, todo := [], items;
    while todo != {}
      invariant todo <= items && NoDuplicates(namespaces)
      invariant forall n ::
        n in namespaces <==> n in items && n !in todo && n !in registration && !IsSystem(opts, cluster[n])
    {
      var n :| n in todo;
      var system := IsSystemNamespace(opts, cluster[n]);
      if !(n in registration || system) {
        namespaces := namespaces + [n];
      }
      todo := todo - {n};
    }
    var sorted := SortStrings(namespaces);
    SortKeeps(namespaces, sorted);
    assert forall n :: n in sorted <==> n in Elements(sorted);
    return Some(sorted);
  }

  lemma {:induction false} AtMostIsAntisymmetric(a: string, b: string)
    requires AtMost(a, b) && AtMost(b, a)
    ensures a == b
    decreases |a|
  {
    if a == "" || b == "" {
    } else {
      AtMostIsAntisymmetric(a[1..], b[1..]);
      assert a == [a[0]] + a[1..] && b == [b[0]] + b[1..];
    }
  }

  /** The list is determined by the set of names, whatever the order in which the cache lists them. */
  lemma {:induction false} SortedIsUnique(xs: seq<string>, ys: seq<string>)
    requires Sorted(xs) && Sorted(ys) && NoDuplicates(xs) && NoDuplicates(ys) && Elements(xs) == Elements(ys)
    ensures xs == ys
    decreases |xs|
  {
    if xs == [] {
      NoElements(ys);
    } else {
      assert xs[0] in Elements(ys) && ys[0] in Elements(xs);
      var i :| 0 <= i < |ys| && ys[i] == xs[0];
      var j :| 0 <= j < |xs| && xs[j] == ys[0];
      if i > 0 {
        AtMostIsAntisymmetric(xs[0], ys[0]);
      }
      hide Sorted, AtMost;
      assert Elements(xs[1..]) == Elements(xs) - {xs[0]};
      assert Elements(ys[1..]) == Elements(ys) - {ys[0]};
      TailIsSorted(xs);
      TailIsSorted(ys);
      SortedIsUnique(xs[1..], ys[1..]);
    }
  }

  lemma NoElements(xs: seq<string>)
    ensures xs != [] ==> xs[0] in Elements(xs)
  {
  }

  lemma TailIsSorted(xs: seq<string>)
    requires Sorted(xs) && xs != []
    ensures Sorted(xs[1..])
  {
  }

  /** Two answers of the getter against one cluster: for one project they are the same list, for different
      projects they have no namespace in common; and none has a registration or a system namespace. */
  lemma TargetsAreDisjoint(opts: Options, registration: set<string>, cluster: map<string, Namespace>, a: string,
                           b: string, xs: seq<string>, ys: seq<string>)
    requires forall n | n in cluster :: cluster[n].name == n
    requires AreTargets(xs, opts, registration, cluster, a) && AreTargets(ys, opts, registration, cluster, b)
    ensures if a == b then xs == ys else forall n | n in xs :: n !in ys
    ensures forall n | n in xs :: n !in registration && n !in opts.systemNamespaces
  {
    if a == b {
      assert forall n :: n in xs <==> n in ys;
      SortedIsUnique(xs, ys);
    }
  }
}
