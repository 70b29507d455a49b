/** The project operator's handling of a ProjectHelmChart: whether it may own the HelmChart and the
    HelmRelease of its release name, and what is created for it. */
module ProjectReconcile {
  import opened Prelude
  import Rbac
  import Values

  datatype Options = Options(
    helmAPIVersion: string, releaseName: string, singleton: bool, systemNamespace: string,
    values: Values.Options, overrides: map<string, Values.Value>, rbac: Rbac.Options)

  datatype StatusName =
    | Empty | UnableToCreateHelmRelease | NoTargetProjectNamespaces | UnableToParseValues
    | WaitingForDashboardValues | Deployed | AwaitingOperatorRedeployment

  type Dashboards = map<string, Values.Value>

  datatype Status = Status(
    name: StatusName, systemNamespace: string, releaseNamespace: string, releaseName: string,
    targets: seq<string>, dashboards: Dashboards)

  datatype Chart = Chart(
    namespace: string, name: string, helmAPIVersion: string, deleting: bool, cleanup: bool,
    values: map<string, Values.Value>, selector: Option<Values.LabelSelector>, status: Status)

  datatype Failure =
    | ProjectIDFails | IndexFails | TargetsFail | RolesFail | BindingsFail | DashboardsFail | ValuesDoNotMarshal

  /** What the handler finds in its caches and is told by its project getter. */
  datatype View = View(
    cluster: Rbac.Cluster, charts: seq<Chart>, projectID: string, targets: seq<string>, dashboards: Dashboards,
    failures: set<Failure>)

  datatype Obj =
    | ReleaseNamespace(name: string, orphaned: bool)
    | RoleBinding(binding: Rbac.Binding)
    | HelmChart(namespace: string, name: string, targetNamespace: string, values: map<string, Values.Value>)
    | HelmRelease(namespace: string, name: string, releaseNamespace: string, releaseName: string)

  // ---------------------------------------------------------------- names

  function ReleaseName(opts: Options, c: Chart): string {
    (if opts.singleton then c.namespace else c.name) + "-" + opts.releaseName
  }

  /** Releases live in the registration namespace, or each in a namespace of its own. */
  function ReleaseNamespaceOf(opts: Options, c: Chart): string {
    if opts.values.projectLabel == "" || opts.values.projectReleaseLabelValue == "" then c.namespace
    else ReleaseName(opts, c)
  }

  /** Release names collide exactly on equal namespaces or, without the singleton option, equal names. */
  lemma ReleaseNamesCollide(opts: Options, a: Chart, b: Chart)
    ensures ReleaseName(opts, a) == ReleaseName(opts, b)
       <==> if opts.singleton then a.namespace == b.namespace else a.name == b.name
  {
    var suffix := "-" + opts.releaseName;
    var x, y := if opts.singleton then a.namespace else a.name, if opts.singleton then b.namespace else b.name;
    assert ReleaseName(opts, a) == x + suffix && ReleaseName(opts, b) == y + suffix;
    if x + suffix == y + suffix {
      assert |x| == |y|;
      assert x == (x + suffix)[..|x|] && y == (y + suffix)[..|y|];
    }
  }

  /** Release namespaces collide exactly on equal release names if each release has a namespace of its own,
      and on equal registration namespaces otherwise. */
  lemma ReleaseNamespacesCollide(opts: Options, a: Chart, b: Chart)
    ensures ReleaseNamespaceOf(opts, a) == ReleaseNamespaceOf(opts, b)
       <==> if opts.values.projectLabel != "" && opts.values.projectReleaseLabelValue != ""
            then ReleaseName(opts, a) == ReleaseName(opts, b)
            else a.namespace == b.namespace
  {
  }

  // ---------------------------------------------------------------- the decision

  predicate ShouldManage(opts: Options, c: Chart, cluster: Rbac.Cluster) {
    c.namespace in cluster.namespaces && c.namespace in cluster.registration && c.helmAPIVersion == opts.helmAPIVersion
  }

  function ReleaseNameIndex(opts: Options, cluster: Rbac.Cluster, c: Chart): seq<string> {
    if ShouldManage(opts, c, cluster) then [ReleaseName(opts, c)] else []
  }

  predicate Same(a: Chart, b: Chart) {
    a.name == b.name && a.namespace == b.namespace
  }

  /** The status of a chart that holds on to its release name. */
  predicate Claims(s: Status) {
    s.name != Empty && s.name != UnableToCreateHelmRelease
  }

  /** Another managed chart claims the release name. */
  ghost predicate ClaimedByOther(opts: Options, c: Chart, cluster: Rbac.Cluster, charts: seq<Chart>) {
    exists other | other in charts ::
      && ShouldManage(opts, other, cluster) && ReleaseName(opts, other) == ReleaseName(opts, c)
      && !Same(c, other) && Claims(other.status)
  }

  datatype Outcome =
    | Unmanaged | Terminating | CleansUp | Fails | Conflicts | NoTargets | Unparsable | MissingNamespace | Deploys

  ghost function OutcomeOf(opts: Options, c: Chart, v: View): Outcome {
    if !ShouldManage(opts, c, v.cluster) then Unmanaged
    else if c.deleting then Terminating
    else if c.cleanup then CleansUp
    else if ProjectIDFails in v.failures || IndexFails in v.failures then Fails
    else if ClaimedByOther(opts, c, v.cluster, v.charts) then Conflicts
    else if TargetsFail in v.failures then Fails
    else if v.targets == [] then NoTargets
    else if ValuesDoNotMarshal in v.failures then Unparsable
    else if ReleaseNamespaceOf(opts, c) !in v.cluster.namespaces then MissingNamespace
    else if RolesFail in v.failures || BindingsFail in v.failures || DashboardsFail in v.failures then Fails
    else Deploys
  }

  predicate DedicatedNamespace(opts: Options, c: Chart) {
    ReleaseNamespaceOf(opts, c) != opts.systemNamespace && ReleaseNamespaceOf(opts, c) != c.namespace
  }

  function AllTargets(opts: Options, c: Chart, v: View): seq<string> {
    v.targets + if DedicatedNamespace(opts, c) then [ReleaseNamespaceOf(opts, c)] else []
  }

  function Bare(name: StatusName): Status {
    Status(name, "", "", "", [], map[])
  }

  /** The status that a call leaves unless it fails. Only three outcomes build on what was there. */
  function StatusAfter(opts: Options, c: Chart, v: View, o: Outcome): Status {
    var placed := c.status.(systemNamespace := opts.systemNamespace, releaseNamespace := ReleaseNamespaceOf(opts, c),
                            releaseName := ReleaseName(opts, c), targets := AllTargets(opts, c, v));
    match o
    case Unmanaged | Terminating | Fails => c.status
    case CleansUp => Bare(AwaitingOperatorRedeployment)
    case Conflicts | MissingNamespace => Bare(UnableToCreateHelmRelease)
    case NoTargets => Bare(NoTargetProjectNamespaces)
    case Unparsable => placed.(name := UnableToParseValues)
    case Deploys =>
      placed.(name := if v.dashboards == map[] then WaitingForDashboardValues else Deployed, dashboards := v.dashboards)
  }

  function ValuesOf(opts: Options, c: Chart, v: View): map<string, Values.Value> {
    Values.Merged(Values.Layered(opts.values, c.values, opts.overrides),
                  Values.RequiredOverrides(opts.values, c.selector, v.projectID, AllTargets(opts, c, v)))
  }

  /** The HelmChart and the HelmRelease of a chart. */
  function Pair(opts: Options, c: Chart, v: View): seq<Obj> {
    var ns, name := ReleaseNamespaceOf(opts, c), ReleaseName(opts, c);
    [HelmChart(opts.systemNamespace, name, ns, ValuesOf(opts, c, v)), HelmRelease(opts.systemNamespace, name, ns, name)]
  }

  function NamespaceObjs(opts: Options, c: Chart, orphaned: bool): seq<Obj> {
    if DedicatedNamespace(opts, c) then [ReleaseNamespace(ReleaseNamespaceOf(opts, c), orphaned)] else []
  }

  function RoleBindings(bindings: seq<Rbac.Binding>): seq<Obj> {
    seq(|bindings|, i requires 0 <= i < |bindings| => RoleBinding(bindings[i]))
  }

  /** All objects of a chart, given the RoleBindings of its release. */
  function ObjsOf(opts: Options, c: Chart, v: View, o: Outcome, bindings: seq<Rbac.Binding>): seq<Obj> {
    match o
    case NoTargets => NamespaceObjs(opts, c, true)
    case MissingNamespace => NamespaceObjs(opts, c, false)
    case Deploys => NamespaceObjs(opts, c, false) + RoleBindings(bindings) + Pair(opts, c, v)
    case _ => []
  }

  // ---------------------------------------------------------------- what a call comes to

  /** The names by which the release of a chart goes, and the namespace that it is deployed to. */
  predicate Named(opts: Options, c: Chart, name: string, target: string) {
    && name == (if opts.singleton then c.namespace else c.name) + "-" + opts.releaseName
    && (opts.values.projectLabel != "" && opts.values.projectReleaseLabelValue != "" ==> target == name)
    && (opts.values.projectLabel == "" || opts.values.projectReleaseLabelValue == "" ==> target == c.namespace)
  }

  /** The chart is in a project registration namespace, and of the kind that this operator deploys. */
  predicate IsOurs(opts: Options, c: Chart, cluster: Rbac.Cluster) {
    c.namespace in cluster.registration * cluster.namespaces && c.helmAPIVersion == opts.helmAPIVersion
  }

  /** Another of our charts goes by the same name, and has been neither left unprocessed nor turned away. */
  ghost predicate HasClaimant(opts: Options, c: Chart, v: View, name: string) {
    exists other | other in v.charts && IsOurs(opts, other, v.cluster) ::
      && (if opts.singleton then other.namespace else other.name) + "-" + opts.releaseName == name
      && (other.namespace != c.namespace || other.name != c.name)
      && other.status.name !in {Empty, UnableToCreateHelmRelease}
  }

  /** What is asked for: nothing, unless the chart is ours, stays, and is not being cleaned up. */
  predicate Wanted(opts: Options, c: Chart, v: View) {
    IsOurs(opts, c, v.cluster) && !c.deleting && !c.cleanup
  }

  /** How a call ends that does not get as far as the targets. */
  ghost predicate EndsEarly(opts: Options, c: Chart, v: View, name: string, objs: seq<Obj>, status: Status, ok: bool) {
    && (!IsOurs(opts, c, v.cluster) || c.deleting ==> ok && objs == [] && status == c.status)
    && (IsOurs(opts, c, v.cluster) && !c.deleting && c.cleanup ==>
          ok && objs == [] && status == Status(AwaitingOperatorRedeployment, "", "", "", [], map[]))
    && (Wanted(opts, c, v) && v.failures !! {ProjectIDFails, IndexFails} && HasClaimant(opts, c, v, name) ==>
          ok && objs == [] && status == Status(UnableToCreateHelmRelease, "", "", "", [], map[]))
  }

  /** The call finds the chart's targets. */
  ghost predicate GoesOn(opts: Options, c: Chart, v: View, name: string) {
    && Wanted(opts, c, v) && !HasClaimant(opts, c, v, name)
    && v.failures !! {ProjectIDFails, IndexFails, TargetsFail}
  }

  /** A namespace of its own is part of what is deployed, and of the targets. */
  function OwnNamespace(opts: Options, c: Chart, target: string): seq<string> {
    if target in {opts.systemNamespace, c.namespace} then [] else [target]
  }

  ghost predicate IsNamespaceObjs(objs: seq<Obj>, names: seq<string>, orphaned: bool) {
    |objs| == |names| && forall i | 0 <= i < |names| :: objs[i] == ReleaseNamespace(names[i], orphaned)
  }

  /** How a call ends that knows the targets but cannot deploy. */
  ghost predicate EndsWithoutRelease(opts: Options, c: Chart, v: View, name: string, target: string, objs: seq<Obj>,
                                     status: Status, ok: bool) {
    && (v.targets == [] ==>
          && ok && IsNamespaceObjs(objs, OwnNamespace(opts, c, target), true)
          && status == Status(NoTargetProjectNamespaces, "", "", "", [], map[]))
    && (v.targets != [] && ValuesDoNotMarshal in v.failures ==>
          && ok && objs == []
          && status == Status(UnableToParseValues, opts.systemNamespace, target, name,
                              v.targets + OwnNamespace(opts, c, target), c.status.dashboards))
    && (v.targets != [] && ValuesDoNotMarshal !in v.failures && target !in v.cluster.namespaces ==>
          && ok && IsNamespaceObjs(objs, OwnNamespace(opts, c, target), false)
          && status == Status(UnableToCreateHelmRelease, "", "", "", [], map[]))
  }

  /** Nothing is in the way of deploying. */
  predicate CanDeploy(v: View, target: string) {
    && v.targets != [] && target in v.cluster.namespaces
    && v.failures !! {ValuesDoNotMarshal, RolesFail, BindingsFail, DashboardsFail}
  }

  /** What is deployed: the namespace if the release has its own, the RoleBindings in it, and a HelmChart and
      a HelmRelease of the release's name that point to it, with all targets in values and status. */
  ghost predicate EndsDeployed(opts: Options, c: Chart, v: View, name: string, target: string, objs: seq<Obj>,
                               status: Status, bindings: seq<Rbac.Binding>) {
    var own, n := OwnNamespace(opts, c, target), |objs| - 2;
    && status == Status(if v.dashboards == map[] then WaitingForDashboardValues else Deployed, opts.systemNamespace,
                        target, name, v.targets + own, v.dashboards)
    && |objs| == |own| + |bindings| + 2
    && IsNamespaceObjs(objs[..|own|], own, false)
    && (forall i | 0 <= i < |bindings| :: objs[|own| + i] == RoleBinding(bindings[i]))
    && BindingsOf(opts, v.cluster, c.namespace, target, name, bindings)
    && objs[n].HelmChart? && objs[n].namespace == opts.systemNamespace
    && objs[n].name == name && objs[n].targetNamespace == target
    && AreValues(opts, c, v, status.targets, objs[n].values)
    && objs[n + 1] == HelmRelease(opts.systemNamespace, name, target, name)
  }

  /** The layers of the chart's values, by what is seen of each. */
  ghost predicate AreValues(opts: Options, c: Chart, v: View, targets: seq<string>, values: map<string, Values.Value>) {
    && Values.OverridesStand(c.values, opts.overrides, values)
    && Values.UserStands(c.values, opts.overrides, values)
    && Values.DefaultsRemain(opts.values, c.values, opts.overrides, values)
    && Values.RequiredIsSet(opts.values, v.projectID, targets, values)
    && Values.SelectorIsSet(opts.values, c.selector, v.projectID, values)
  }

  /** The call comes to something that it cannot find out. */
  ghost predicate CannotTell(opts: Options, c: Chart, v: View, name: string, target: string) {
    && Wanted(opts, c, v)
    && (ProjectIDFails in v.failures || IndexFails in v.failures
        || (!HasClaimant(opts, c, v, name)
            && (TargetsFail in v.failures
                || (v.targets != [] && ValuesDoNotMarshal !in v.failures && target in v.cluster.namespaces
                    && (RolesFail in v.failures || BindingsFail in v.failures || DashboardsFail in v.failures)))))
  }

  /** A call in all its endings. */
  ghost predicate Answers(opts: Options, c: Chart, v: View, objs: seq<Obj>, status: Status, ok: bool,
                          bindings: seq<Rbac.Binding>) {
    forall name, target | Named(opts, c, name, target) ::
      && EndsEarly(opts, c, v, name, objs, status, ok)
      && (GoesOn(opts, c, v, name) ==> EndsWithoutRelease(opts, c, v, name, target, objs, status, ok))
      && (GoesOn(opts, c, v, name) && CanDeploy(v, target) ==>
            ok && EndsDeployed(opts, c, v, name, target, objs, status, bindings))
      && (!ok <==> CannotTell(opts, c, v, name, target))
      && (!ok ==> objs == [])
  }

  lemma ClaimantsAreRivals(opts: Options, c: Chart, v: View, name: string)
    requires name == ReleaseName(opts, c)
    ensures HasClaimant(opts, c, v, name) <==> ClaimedByOther(opts, c, v.cluster, v.charts)
    ensures forall o :: IsOurs(opts, o, v.cluster) <==> ShouldManage(opts, o, v.cluster)
  {
  }

  lemma NamesAreThose(opts: Options, c: Chart, name: string, target: string)
    requires Named(opts, c, name, target)
    ensures name == ReleaseName(opts, c) && target == ReleaseNamespaceOf(opts, c)
    ensures OwnNamespace(opts, c, target) == if DedicatedNamespace(opts, c) then [target] else []
  {
  }

  lemma OutcomeEndsEarly(opts: Options, c: Chart, v: View, name: string, target: string, bindings: seq<Rbac.Binding>)
    requires Named(opts, c, name, target)
    ensures var o := OutcomeOf(opts, c, v);
      && EndsEarly(opts, c, v, name, ObjsOf(opts, c, v, o, bindings), StatusAfter(opts, c, v, o), o != Fails)
      && (o == Fails <==> CannotTell(opts, c, v, name, target))
      && (GoesOn(opts, c, v, name) && v.targets == [] ==> o == NoTargets)
      && (GoesOn(opts, c, v, name) && v.targets != [] && ValuesDoNotMarshal in v.failures ==> o == Unparsable)
      && (GoesOn(opts, c, v, name) && v.targets != [] && ValuesDoNotMarshal !in v.failures ==>
            target !in v.cluster.namespaces ==> o == MissingNamespace)
      && (GoesOn(opts, c, v, name) && CanDeploy(v, target) ==> o == Deploys)
  {
    NamesAreThose(opts, c, name, target);
    ClaimantsAreRivals(opts, c, v, name);
    hide HasClaimant, ClaimedByOther, ReleaseName, ReleaseNamespaceOf, Pair, IsOurs, ShouldManage, NamespaceObjs;
  }

  lemma OutcomeEndsWithoutRelease(opts: Options, c: Chart, v: View, name: string, target: string,
                                  bindings: seq<Rbac.Binding>)
    requires Named(opts, c, name, target) && GoesOn(opts, c, v, name)
    ensures var o := OutcomeOf(opts, c, v);
      EndsWithoutRelease(opts, c, v, name, target, ObjsOf(opts, c, v, o, bindings), StatusAfter(opts, c, v, o),
                         o != Fails)
  {
    NamesAreThose(opts, c, name, target);
    OutcomeEndsEarly(opts, c, v, name, target, bindings);
    hide OutcomeOf, GoesOn, ReleaseName, ReleaseNamespaceOf, Named, DedicatedNamespace, OwnNamespace;
  }

  lemma ValuesOfAreValues(opts: Options, c: Chart, v: View)
    ensures AreValues(opts, c, v, AllTargets(opts, c, v), ValuesOf(opts, c, v))
  {
    var targets := AllTargets(opts, c, v);
    Values.LayersAreSeen(opts.values, c.selector, c.values, opts.overrides, v.projectID, targets);
    Values.RequiredIsFound(opts.values, c.selector, c.values, opts.overrides, v.projectID, targets);
    Values.SelectorIsFound(opts.values, c.selector, c.values, opts.overrides, v.projectID, targets);
    hide Values.Merged, Values.Layered, Values.RequiredOverrides, Values.OverridesStand, Values.UserStands,
      Values.DefaultsRemain, Values.RequiredIsSet, Values.SelectorIsSet, AllTargets;
  }

  lemma OutcomeEndsDeployed(opts: Options, c: Chart, v: View, name: string, target: string,
                            bindings: seq<Rbac.Binding>)
    requires Named(opts, c, name, target) && OutcomeOf(opts, c, v) == Deploys
    requires BindingsOf(opts, v.cluster, c.namespace, target, name, bindings)
    ensures EndsDeployed(opts, c, v, name, target, ObjsOf(opts, c, v, Deploys, bindings),
                         StatusAfter(opts, c, v, Deploys), bindings)
  {
    hide OutcomeOf, BindingsOf, AreValues, ValuesOf, ReleaseName, ReleaseNamespaceOf, Named, DedicatedNamespace,
      OwnNamespace;
    NamesAreThose(opts, c, name, target);
    ValuesOfAreValues(opts, c, v);
    var own, pair := NamespaceObjs(opts, c, false), Pair(opts, c, v);
    DeployedObjs(own, bindings, pair);
    OwnNamespaceObjs(opts, c, target, false);
    hide NamespaceObjs, IsNamespaceObjs, RoleBindings;
  }

  lemma OwnNamespaceObjs(opts: Options, c: Chart, target: string, orphaned: bool)
    requires target == ReleaseNamespaceOf(opts, c)
    ensures IsNamespaceObjs(NamespaceObjs(opts, c, orphaned), OwnNamespace(opts, c, target), orphaned)
  {
  }

  /** Where the parts of what is deployed are. */
  lemma DeployedObjs(own: seq<Obj>, bindings: seq<Rbac.Binding>, pair: seq<Obj>)
    requires |pair| == 2
    ensures var objs := own + RoleBindings(bindings) + pair; var n := |objs| - 2;
      && |objs| == |own| + |bindings| + 2 && objs[..|own|] == own
      && (forall i | 0 <= i < |bindings| :: objs[|own| + i] == RoleBinding(bindings[i]))
      && objs[n] == pair[0] && objs[n + 1] == pair[1]
  {
  }

  lemma CallAnswers(opts: Options, c: Chart, v: View, status: Status, bindings: seq<Rbac.Binding>)
    requires OutcomeOf(opts, c, v) == Deploys ==>
      BindingsOf(opts, v.cluster, c.namespace, ReleaseNamespaceOf(opts, c), ReleaseName(opts, c), bindings)
    requires OutcomeOf(opts, c, v) != Fails ==> status == StatusAfter(opts, c, v, OutcomeOf(opts, c, v))
    ensures var o := OutcomeOf(opts, c, v);
      Answers(opts, c, v, ObjsOf(opts, c, v, o, bindings), status, o != Fails, bindings)
  {
    FailureHasNoObjs(opts, c, v, bindings);
    hide OutcomeOf, ObjsOf, StatusAfter, EndsDeployed, GoesOn, CannotTell, CanDeploy;
    hide BindingsOf, ReleaseName, ReleaseNamespaceOf, Named;
    var o := OutcomeOf(opts, c, v);
    var objs := ObjsOf(opts, c, v, o, bindings);
    forall name, target | Named(opts, c, name, target)
      ensures EndsEarly(opts, c, v, name, objs, status, o != Fails)
      ensures GoesOn(opts, c, v, name) ==> EndsWithoutRelease(opts, c, v, name, target, objs, status, o != Fails)
      ensures GoesOn(opts, c, v, name) && CanDeploy(v, target) ==>
        o == Deploys && EndsDeployed(opts, c, v, name, target, objs, status, bindings)
      ensures o == Fails <==> CannotTell(opts, c, v, name, target)
    {
      NamesAreThose(opts, c, name, target);
      OutcomeEndsEarly(opts, c, v, name, target, bindings);
      if GoesOn(opts, c, v, name) {
        OutcomeEndsWithoutRelease(opts, c, v, name, target, bindings);
        if CanDeploy(v, target) {
          OutcomeEndsDeployed(opts, c, v, name, target, bindings);
        }
      }
    }
  }

  lemma FailureHasNoObjs(opts: Options, c: Chart, v: View, bindings: seq<Rbac.Binding>)
    ensures ObjsOf(opts, c, v, Fails, bindings) == []
  {
  }

  // ---------------------------------------------------------------- the code

  /** The generating handler. `bindings` are the RoleBindings among the objects. */
  method OnChange(opts: Options, c: Chart, v: View)
    returns (objs: seq<Obj>, status: Status, ok: bool, ghost bindings: seq<Rbac.Binding>)
    requires Rbac.ValidCluster(v.cluster)
    ensures ok <==> OutcomeOf(opts, c, v) != Fails
    ensures ok ==> status == StatusAfter(opts, c, v, OutcomeOf(opts, c, v))
    ensures objs == ObjsOf(opts, c, v, OutcomeOf(opts, c, v), bindings)
    ensures OutcomeOf(opts, c, v) == Deploys ==>
      BindingsOf(opts, v.cluster, c.namespace, ReleaseNamespaceOf(opts, c), ReleaseName(opts, c), bindings)
    ensures Answers(opts, c, v, objs, status, ok, bindings)
  {
    objs, status, ok, bindings := Generate(opts, c, v);
    hide OutcomeOf, ObjsOf, StatusAfter, Answers, BindingsOf, ReleaseName, ReleaseNamespaceOf, Rbac.ValidCluster;
    CallAnswers(opts, c, v, status, bindings);
  }

  method Generate(opts: Options, c: Chart, v: View)
    returns (objs: seq<Obj>, status: Status, ok: bool, ghost bindings: seq<Rbac.Binding>)
    requires Rbac.ValidCluster(v.cluster)
    ensures ok <==> OutcomeOf(opts, c, v) != Fails
    ensures ok ==> status == StatusAfter(opts, c, v, OutcomeOf(opts, c, v))
    ensures objs == ObjsOf(opts, c, v, OutcomeOf(opts, c, v), bindings)
    ensures OutcomeOf(opts, c, v) == Deploys ==>
      BindingsOf(opts, v.cluster, c.namespace, ReleaseNamespaceOf(opts, c), ReleaseName(opts, c), bindings)
  {
    hide ClaimedByOther, BindingsOf, ReleaseName;
    hide Rbac.ValidCluster, Values.Merged, Values.Layered, Values.RequiredOverrides, Values.OverridesStand,
      Values.UserStands, Values.DefaultsRemain, Values.RequiredIsSet, Values.SelectorIsSet;
    objs, status, ok, bindings := [], c.status, true, [];
    if !ShouldManage(opts, c, v.cluster) {
      return;
    }
    if c.deleting {
      return;
    }
    if c.cleanup {
      status := Bare(AwaitingOperatorRedeployment);
      return;
    }
    if ProjectIDFails in v.failures || IndexFails in v.failures {
      ok := false;
      return;
    }
    var conflict := FindConflict(opts, c, v.cluster, v.charts);
    if conflict {
      status := Bare(UnableToCreateHelmRelease);
      return;
    }
    var releaseNamespace, releaseName := ReleaseNamespaceOf(opts, c), ReleaseName(opts, c);
    status := status.(systemNamespace := opts.systemNamespace, releaseNamespace := releaseNamespace,
                      releaseName := releaseName);
    if TargetsFail in v.failures {
      ok := false;
      return;
    }
    var targets := v.targets;
    if |targets| == 0 {
      objs := NamespaceObjs(opts, c, true);
      status := Bare(NoTargetProjectNamespaces);
      return;
    }
    if releaseNamespace != opts.systemNamespace && releaseNamespace != c.namespace {
      objs := objs + [ReleaseNamespace(releaseNamespace, false)];
      targets := targets + [releaseNamespace];
    }
    status := status.(targets := targets);
    var values := Values.GetValues(opts.values, c.selector, c.values, opts.overrides, v.projectID, targets);
    if ValuesDoNotMarshal in v.failures {
      objs, status := [], status.(name := UnableToParseValues);
      return;
    }
    if releaseNamespace !in v.cluster.namespaces {
      status := Bare(UnableToCreateHelmRelease);
      return;
    }
    if RolesFail in v.failures || BindingsFail in v.failures {
      objs, ok := [], false;
      return;
    }
    var roleBindings := ReleaseBindings(opts, v.cluster, c.namespace, releaseNamespace, releaseName);
    bindings := roleBindings;
    objs := objs + RoleBindings(roleBindings);
    objs := objs + [HelmChart(opts.systemNamespace, releaseName, releaseNamespace, values),
                    HelmRelease(opts.systemNamespace, releaseName, releaseNamespace, releaseName)];
    if DashboardsFail in v.failures {
      objs, ok, bindings := [], false, [];
      return;
    }
    if |v.dashboards| == 0 {
      status := status.(name := WaitingForDashboardValues, dashboards := map[]);
    } else {
      status := status.(name := Deployed, dashboards := v.dashboards);
    }
  }

  /** The loop over the charts of the same release name. */
  method FindConflict(opts: Options, c: Chart, cluster: Rbac.Cluster, charts: seq<Chart>) returns (conflict: bool)
    ensures conflict <==> ClaimedByOther(opts, c, cluster, charts)
  {
    var candidates := ByIndex(charts, o => ReleaseNameIndex(opts, cluster, o), ReleaseName(opts, c));
    assert forall o ::
        o in candidates
        <==> o in charts && ShouldManage(opts, o, cluster) && ReleaseName(opts, o) == ReleaseName(opts, c);
    for i := 0 to |candidates|
      invariant forall j | 0 <= j < i :: Same(c, candidates[j]) || !Claims(candidates[j].status)
    {
      var other := candidates[i];
      if Same(c, other) {
        continue;
      }
      if other.status.name == Empty {
        continue;
      }
      if other.status.name == UnableToCreateHelmRelease {
        continue;
      }
      assert other in candidates;
      return true;
    }
    return false;
  }

  /** What Rbac proves of the RoleBindings of a release. */
  ghost predicate BindingsOf(opts: Options, cluster: Rbac.Cluster, registrationNamespace: string,
                             releaseNamespace: string, releaseName: string, bindings: seq<Rbac.Binding>)
  {
    && (forall b | b in bindings ::
          b.namespace == releaseNamespace && b.name == b.roleRef && b.subjects != [] && NoDuplicates(b.subjects))
    && Rbac.NamesDiffer(bindings)
    && (forall b | b in bindings :: Rbac.OnlyUsersAndGroups(b.subjects))
    && (Rbac.NamesApart(opts.rbac)
        || Rbac.Unshared(Rbac.DefaultClusterRoles(opts.rbac),
                         Rbac.IndexedBindings(opts.rbac, cluster, registrationNamespace)) ==>
          forall role, s :: Rbac.Binds(bindings, role, s)
            <==> Rbac.Entitled(opts.rbac, cluster, registrationNamespace, releaseNamespace, releaseName, role, s))
  }

  method ReleaseBindings(opts: Options, cluster: Rbac.Cluster, registrationNamespace: string, releaseNamespace: string,
                         releaseName: string)
    returns (bindings: seq<Rbac.Binding>)
    requires Rbac.ValidCluster(cluster) && registrationNamespace in cluster.registration
    requires releaseNamespace in cluster.namespaces
    ensures BindingsOf(opts, cluster, registrationNamespace, releaseNamespace, releaseName, bindings)
  {
    hide Rbac.NamesApart, Rbac.OnlyUsersAndGroups, Rbac.Unshared, Rbac.NamesDiffer, Rbac.Binds, Rbac.Entitled,
      Rbac.IndexedBindings, Rbac.DefaultClusterRoles;
    bindings := Rbac.RoleBindingsOfRelease(opts.rbac, cluster, registrationNamespace, releaseNamespace, releaseName);
  }

  predicate InPair(o: Obj) {
    o.HelmChart? || o.HelmRelease?
  }

  /** A chart gets a HelmChart and a HelmRelease exactly when it deploys, and then one of each. */
  lemma PairIffDeploys(opts: Options, c: Chart, v: View, o: Outcome, bindings: seq<Rbac.Binding>)
    ensures var objs := ObjsOf(opts, c, v, o, bindings);
      && ((exists x | x in objs :: InPair(x)) <==> o == Deploys)
      && (forall x | x in objs && InPair(x) :: x in Pair(opts, c, v))
      && (o == Deploys ==>
            && |objs| >= 2 && objs[|objs| - 2..] == Pair(opts, c, v)
            && forall x | x in objs[..|objs| - 2] :: !InPair(x))
  {
    hide ReleaseName, ReleaseNamespaceOf, ValuesOf, DedicatedNamespace;
    if o == Deploys {
      var pre := NamespaceObjs(opts, c, false) + RoleBindings(bindings);
      var objs := pre + Pair(opts, c, v);
      assert objs == ObjsOf(opts, c, v, o, bindings);
      assert objs[..|objs| - 2] == pre && objs[|objs| - 2..] == Pair(opts, c, v);
      assert objs[|objs| - 2] == Pair(opts, c, v)[0] && InPair(objs[|objs| - 2]);
    }
  }
}
