/** RBAC aggregation: who may use the default ClusterRoles in a project registration namespace is bound
    to the Roles that a release offers for them. A join over bindings, subjects and roles. */
module Rbac {
  import opened Prelude

  datatype Options = Options(adminClusterRole: string, editClusterRole: string, viewClusterRole: string)

  datatype Subject = Subject(apiGroup: string, kind: string, name: string, namespace: string)

  /** A RoleBinding, or a ClusterRoleBinding, which has no namespace. */
  datatype Binding = Binding(namespace: string, name: string, roleRef: string, subjects: seq<Subject>)

  datatype Role = Role(namespace: string, name: string, labels: map<string, string>)

  const GROUP_NAME := "rbac.authorization.k8s.io"
  const RELEASE_LABEL := "helm.cattle.io/project-helm-chart-role"
  const AGGREGATE_LABEL := "helm.cattle.io/project-helm-chart-role-aggregate-from"

  // ---------------------------------------------------------------- what is to be bound

  function ClusterRoleFor(opts: Options, subjectRole: string): string {
    if subjectRole == "admin" then opts.adminClusterRole
    else if subjectRole == "edit" then opts.editClusterRole
    else if subjectRole == "view" then opts.viewClusterRole
    else ""
  }

  function DefaultClusterRoles(opts: Options): map<string, string> {
    map k | k in {"admin", "edit", "view"} && ClusterRoleFor(opts, k) != "" :: ClusterRoleFor(opts, k)
  }

  /** The default ClusterRoles have different names. */
  predicate DistinctNames(opts: Options) {
    forall a, b | a in DefaultClusterRoles(opts) && b in DefaultClusterRoles(opts)
      && DefaultClusterRoles(opts)[a] == DefaultClusterRoles(opts)[b] :: a == b
  }

  /** An RBAC User or Group; ServiceAccounts are not bound. */
  predicate Bindable(s: Subject) {
    s.apiGroup == GROUP_NAME && (s.kind == "User" || s.kind == "Group")
  }

  function WithoutNamespace(s: Subject): Subject {
    s.(namespace := "")
  }

  function BindableSubjects(subjects: seq<Subject>): set<Subject> {
    set t | t in subjects && Bindable(t) :: WithoutNamespace(t)
  }

  function SubjectKey(s: Subject): string {
    s.kind + "-" + s.name
  }

  lemma BindableStep(subjects: seq<Subject>, s: Subject)
    ensures BindableSubjects(subjects + [s])
         == BindableSubjects(subjects) + if Bindable(s) then {WithoutNamespace(s)} else {}
  {
  }

  /** A Group and a User of one name have different keys, so the keys tell bindable subjects apart. */
  lemma SubjectKeyIsInjective(a: Subject, b: Subject)
    requires Bindable(a) && Bindable(b) && SubjectKey(a) == SubjectKey(b)
    ensures WithoutNamespace(a) == WithoutNamespace(b)
  {
    assert SubjectKey(a)[0] == a.kind[0] && SubjectKey(b)[0] == b.kind[0];
    assert a.kind == b.kind;
    assert a.name == SubjectKey(a)[|a.kind| + 1..] && b.name == SubjectKey(b)[|b.kind| + 1..];
  }

  // ---------------------------------------------------------------- the code

  method GetDefaultClusterRoles(opts: Options) returns (clusterRoles: map<string, string>)
    ensures clusterRoles == DefaultClusterRoles(opts)
    ensures forall k, name :: k in clusterRoles && clusterRoles[k] == name <==>
      name != "" && (k, name) in {("admin", opts.adminClusterRole), ("edit", opts.editClusterRole),
                                  ("view", opts.viewClusterRole)}
  {
    clusterRoles := map[];
    if opts.adminClusterRole != "" {
      clusterRoles := clusterRoles["admin" := opts.adminClusterRole];
    }
    if opts.editClusterRole != "" {
      clusterRoles := clusterRoles["edit" := opts.editClusterRole];
    }
    if opts.viewClusterRole != "" {
      clusterRoles := clusterRoles["view" := opts.viewClusterRole];
    }
  }

  /** A ClusterRole that plays two roles is found under either of them, as the iteration has it. */
  method IsDefaultClusterRoleRef(opts: Options, roleRefName: string) returns (subjectRole: string, ok: bool)
    ensures ChosenFor(DefaultClusterRoles(opts), roleRefName, subjectRole)
    ensures ok <==> subjectRole in DefaultClusterRoles(opts)
  {
    var defaults := GetDefaultClusterRoles(opts);
    var todo := defaults.Keys;
    while todo != {}
      invariant todo <= defaults.Keys
      invariant forall k | k in defaults && k !in todo :: defaults[k] != roleRefName
    {
      var k :| k in todo;
      if roleRefName == defaults[k] {
        return k, true;
      }
      todo := todo - {k};
    }
    return "", false;
  }

  method FilterToUsersAndGroups(subjects: seq<Subject>) returns (filtered: seq<Subject>)
    ensures Elements(filtered) == BindableSubjects(subjects)
  {
    filtered := [];
    for i := 0 to |subjects|
      invariant Elements(filtered) == BindableSubjects(subjects[..i])
    {
      var subject := subjects[i];
      assert subjects[..i + 1] == subjects[..i] + [subject];
      BindableStep(subjects[..i], subject);
      if Bindable(subject) {
        filtered := filtered + [Subject(subject.apiGroup, subject.kind, subject.name, "")];
      }
    }
    assert subjects[..|subjects|] == subjects;
  }

  type SubjectMap = map<string, map<string, Subject>>

  /** `chosen[i]` is the role that the i-th binding was counted for, "" for none. */
  ghost predicate Chosen(defaults: map<string, string>, bindings: seq<Binding>, chosen: seq<string>) {
    && |chosen| == |bindings|
    && forall i | 0 <= i < |bindings| :: ChosenFor(defaults, bindings[i].roleRef, chosen[i])
  }

  /** `role` is a role that the ClusterRole plays by default, "" if it plays none. */
  ghost predicate ChosenFor(defaults: map<string, string>, roleRef: string, role: string) {
    if role in defaults then defaults[role] == roleRef else role == "" && roleRef !in defaults.Values
  }

  /** The subjects of all bindings that were counted for `role`. */
  function Collected(bindings: seq<Binding>, chosen: seq<string>, role: string): set<Subject>
    requires |chosen| == |bindings|
  {
    set i, s | 0 <= i < |bindings| && chosen[i] == role && s in BindableSubjects(bindings[i].subjects) :: s
  }

  lemma CollectedStep(bindings: seq<Binding>, chosen: seq<string>, b: Binding, c: string, role: string)
    requires |chosen| == |bindings|
    ensures Collected(bindings + [b], chosen + [c], role)
         == Collected(bindings, chosen, role) + if c == role then BindableSubjects(b.subjects) else {}
  {
    hide BindableSubjects;
    var bs, cs := bindings + [b], chosen + [c];
    forall s | s in Collected(bindings, chosen, role) ensures s in Collected(bs, cs, role) {
      var i :| 0 <= i < |bindings| && chosen[i] == role && s in BindableSubjects(bindings[i].subjects);
      assert cs[i] == role && bs[i] == bindings[i];
    }
    if c == role {
      forall s | s in BindableSubjects(b.subjects) ensures s in Collected(bs, cs, role) {
        assert cs[|bindings|] == role && bs[|bindings|] == b;
      }
    }
  }

  /** The map holds exactly `subjects`, each under its own key. */
  ghost predicate Indexes(inner: map<string, Subject>, subjects: set<Subject>) {
    && (forall key | key in inner :: inner[key] in subjects && SubjectKey(inner[key]) == key)
    && (forall s | s in subjects :: SubjectKey(s) in inner && inner[SubjectKey(s)] == s)
  }

  ghost predicate Holds(m: SubjectMap, bindings: seq<Binding>, chosen: seq<string>)
    requires |chosen| == |bindings|
  {
    forall k | k in m :: Indexes(m[k], Collected(bindings, chosen, k))
  }

  predicate AllBindable(subjects: set<Subject>) {
    forall s | s in subjects :: Bindable(s) && s.namespace == ""
  }

  /** The loop over the subjects of a binding. */
  method AddSubjects(currSubjects: map<string, Subject>, filtered: seq<Subject>, ghost held: set<Subject>)
    returns (added: map<string, Subject>)
    requires Indexes(currSubjects, held) && AllBindable(held + Elements(filtered))
    ensures Indexes(added, held + Elements(filtered))
  {
    added := currSubjects;
    for i := 0 to |filtered|
      invariant Indexes(added, held + Elements(filtered[..i]))
    {
      var subject := filtered[i];
      ghost var before := held + Elements(filtered[..i]);
      assert held + Elements(filtered[..i + 1]) == before + {subject};
      forall s | s in before && SubjectKey(s) == SubjectKey(subject) ensures s == subject {
        assert s in held + Elements(filtered);
        assert subject in held + Elements(filtered);
        SubjectKeyIsInjective(s, subject);
      }
      added := added[SubjectKey(subject) := subject];
    }
    assert filtered[..|filtered|] == filtered;
  }

  lemma CollectedAreBindable(bindings: seq<Binding>, chosen: seq<string>, role: string, subjects: seq<Subject>)
    requires |chosen| == |bindings|
    ensures AllBindable(Collected(bindings, chosen, role) + BindableSubjects(subjects))
  {
  }

  lemma HoldsStep(before: SubjectMap, after: SubjectMap, bindings: seq<Binding>, chosen: seq<string>, b: Binding,
                  role: string)
    requires |chosen| == |bindings| && Holds(before, bindings, chosen)
    requires after.Keys == before.Keys && forall k | k in before && k != role :: after[k] == before[k]
    requires role in before ==> Indexes(after[role], Collected(bindings, chosen, role) + BindableSubjects(b.subjects))
    ensures Holds(after, bindings + [b], chosen + [role])
  {
    hide Indexes, Collected, BindableSubjects;
    forall k | k in after ensures Indexes(after[k], Collected(bindings + [b], chosen + [role], k)) {
      CollectedStep(bindings, chosen, b, role, k);
      assert Collected(bindings, chosen, k) + {} == Collected(bindings, chosen, k);
    }
  }

  /** The loop over the bindings, which the source has once for RoleBindings and once for
      ClusterRoleBindings. */
  method Collect(opts: Options, m0: SubjectMap, ghost done: seq<Binding>, ghost chosen0: seq<string>,
                 bindings: seq<Binding>)
    returns (m: SubjectMap, ghost chosen: seq<string>)
    requires m0.Keys == DefaultClusterRoles(opts).Keys
    requires Chosen(DefaultClusterRoles(opts), done, chosen0) && Holds(m0, done, chosen0)
    ensures m.Keys == DefaultClusterRoles(opts).Keys
    ensures Chosen(DefaultClusterRoles(opts), done + bindings, chosen) && Holds(m, done + bindings, chosen)
  {
    hide Collected, DefaultClusterRoles, BindableSubjects, Indexes, ChosenFor;
    m, chosen := m0, chosen0;
    assert done + bindings[..0] == done;
    for i := 0 to |bindings|
      invariant m.Keys == DefaultClusterRoles(opts).Keys
      invariant Chosen(DefaultClusterRoles(opts), done + bindings[..i], chosen)
      invariant Holds(m, done + bindings[..i], chosen)
    {
      var b := bindings[i];
      ghost var seen := done + bindings[..i];
      assert done + bindings[..i + 1] == seen + [b];
      var subjectRole, isDefault := IsDefaultClusterRoleRef(opts, b.roleRef);
      ghost var before := m;
      if isDefault {
        var filtered := FilterToUsersAndGroups(b.subjects);
        CollectedAreBindable(seen, chosen, subjectRole, b.subjects);
        var currSubjects := AddSubjects(m[subjectRole], filtered, Collected(seen, chosen, subjectRole));
        m := m[subjectRole := currSubjects];
      }
      HoldsStep(before, m, seen, chosen, b, subjectRole);
      chosen := chosen + [subjectRole];
    }
    assert bindings[..|bindings|] == bindings;
  }

  // ---------------------------------------------------------------- what the caches hold

  /** `namespaces` and `registration` are the namespaces, and those of them that are project
      registration namespaces. */
  datatype Cluster = Cluster(
    roleBindings: seq<Binding>, clusterRoleBindings: seq<Binding>, roles: seq<Role>,
    namespaces: set<string>, registration: set<string>)

  const BOUND := "bound-to-default-role"

  function RoleBindingIndex(opts: Options, cluster: Cluster, b: Binding): seq<string> {
    if b.namespace in cluster.registration && b.roleRef in DefaultClusterRoles(opts).Values then
      [b.namespace + "/" + BOUND]
    else []
  }

  function ClusterRoleBindingIndex(opts: Options, b: Binding): seq<string> {
    if b.roleRef in DefaultClusterRoles(opts).Values then [BOUND] else []
  }

  function RoleIndex(r: Role): seq<string> {
    if RELEASE_LABEL in r.labels then [r.namespace + "/" + r.labels[RELEASE_LABEL]] else []
  }

  function IndexedBindings(opts: Options, cluster: Cluster, registrationNamespace: string): seq<Binding> {
    ByIndex(cluster.roleBindings, b => RoleBindingIndex(opts, cluster, b), registrationNamespace + "/" + BOUND)
    + ByIndex(cluster.clusterRoleBindings, b => ClusterRoleBindingIndex(opts, b), BOUND)
  }

  method ListSubjects(inner: map<string, Subject>, ghost held: set<Subject>) returns (subjects: seq<Subject>)
    requires Indexes(inner, held)
    ensures NoDuplicates(subjects) && Elements(subjects) == held
  {
    subjects := [];
    var todo := inner.Keys;
    while todo != {}
      invariant todo <= inner.Keys && NoDuplicates(subjects)
      invariant forall s :: s in subjects <==> s in held && SubjectKey(s) !in todo
    {
      var key :| key in todo;
      assert SubjectKey(inner[key]) == key && inner[key] !in subjects;
      assert forall s | s in held && SubjectKey(s) == key :: s == inner[key];
      subjects := subjects + [inner[key]];
      todo := todo - {key};
    }
  }

  method GetSubjectRoleToSubjectsFromBindings(opts: Options, cluster: Cluster, registrationNamespace: string)
    returns (subjects: map<string, seq<Subject>>, ghost chosen: seq<string>)
    ensures subjects.Keys == DefaultClusterRoles(opts).Keys && forall k | k in subjects :: NoDuplicates(subjects[k])
    ensures var bindings := IndexedBindings(opts, cluster, registrationNamespace);
      && Chosen(DefaultClusterRoles(opts), bindings, chosen)
      && forall k | k in subjects :: Elements(subjects[k]) == Collected(bindings, chosen, k)
  {
    hide DefaultClusterRoles, Indexes, Collected, ChosenFor, NoDuplicates, ByIndex;
    var defaults := GetDefaultClusterRoles(opts);
    ghost var bindings := IndexedBindings(opts, cluster, registrationNamespace);
    subjects := map[];
    if |defaults| == 0 {
      chosen := seq(|bindings|, _ => "");
      NothingToChoose(opts, cluster, registrationNamespace);
      return;
    }
    var m: SubjectMap := map k | k in defaults :: map[];
    StartsEmpty(m);
    var roleBindings :=
      ByIndex(cluster.roleBindings, b => RoleBindingIndex(opts, cluster, b), registrationNamespace + "/" + BOUND);
    m, chosen := Collect(opts, m, [], [], roleBindings);
    assert [] + roleBindings == roleBindings;
    var clusterRoleBindings := ByIndex(cluster.clusterRoleBindings, b => ClusterRoleBindingIndex(opts, b), BOUND);
    m, chosen := Collect(opts, m, roleBindings, chosen, clusterRoleBindings);
    subjects := ListAll(m, bindings, chosen);
  }

  /** The last loop: no subject is listed twice. */
  method ListAll(m: SubjectMap, ghost bindings: seq<Binding>, ghost chosen: seq<string>)
    returns (subjects: map<string, seq<Subject>>)
    requires |chosen| == |bindings| && Holds(m, bindings, chosen)
    ensures subjects.Keys == m.Keys && forall k | k in subjects :: NoDuplicates(subjects[k])
    ensures forall k | k in subjects :: Elements(subjects[k]) == Collected(bindings, chosen, k)
  {
    hide Indexes, Collected, NoDuplicates;
    subjects := map[];
    var todo := m.Keys;
    while todo != {}
      invariant todo <= m.Keys && subjects.Keys == m.Keys - todo
      invariant forall k | k in subjects :: NoDuplicates(subjects[k])
      invariant forall k | k in subjects :: Elements(subjects[k]) == Collected(bindings, chosen, k)
    {
      var k :| k in todo;
      var list := ListSubjects(m[k], Collected(bindings, chosen, k));
      subjects := subjects[k := list];
      todo := todo - {k};
    }
  }

  lemma NothingToChoose(opts: Options, cluster: Cluster, registrationNamespace: string)
    requires |DefaultClusterRoles(opts)| == 0
    ensures var bindings := IndexedBindings(opts, cluster, registrationNamespace);
      Chosen(DefaultClusterRoles(opts), bindings, seq(|bindings|, _ => ""))
  {
  }

  lemma StartsEmpty(m: SubjectMap)
    requires forall k | k in m :: m[k] == map[]
    ensures Holds(m, [], [])
  {
  }

  predicate Aggregates(r: Role, k: string) {
    AGGREGATE_LABEL in r.labels && r.labels[AGGREGATE_LABEL] == k
  }

  /** The names of the roles that aggregate from `subjectRole`. */
  function AggregatedRoles(roles: seq<Role>, subjectRole: string): seq<string> {
    if roles == [] then []
    else
      var last := roles[|roles| - 1];
      AggregatedRoles(roles[..|roles| - 1], subjectRole)
      + if Aggregates(last, subjectRole) then [last.name] else []
  }

  function ReleaseRoles(cluster: Cluster, releaseNamespace: string, releaseName: string): seq<Role> {
    ByIndex(cluster.roles, RoleIndex, releaseNamespace + "/" + releaseName)
  }

  /** The Roles of the release, by the default role that they aggregate from. */
  method GetSubjectRoleToRoleRefsFromRoles(opts: Options, cluster: Cluster, releaseNamespace: string,
                                           releaseName: string)
    returns (roleRefs: map<string, seq<string>>)
    ensures releaseNamespace !in cluster.namespaces ==> roleRefs == map[]
    ensures releaseNamespace in cluster.namespaces ==>
      && roleRefs.Keys == DefaultClusterRoles(opts).Keys
      && forall k | k in roleRefs ::
           roleRefs[k] == AggregatedRoles(ReleaseRoles(cluster, releaseNamespace, releaseName), k)
  {
    hide DefaultClusterRoles, ByIndex, ReleaseRoles;
    var defaults := GetDefaultClusterRoles(opts);
    roleRefs := map k | k in defaults :: [];
    if |roleRefs| == 0 {
      return;
    }
    if releaseNamespace !in cluster.namespaces {
      return map[];
    }
    var roles := ReleaseRoles(cluster, releaseNamespace, releaseName);
    for i := 0 to |roles|
      invariant roleRefs.Keys == defaults.Keys
      invariant forall k | k in roleRefs :: roleRefs[k] == AggregatedRoles(roles[..i], k)
    {
      var role := roles[i];
      assert roles[..i + 1][..i] == roles[..i];
      if AGGREGATE_LABEL in role.labels {
        var subjectRole := role.labels[AGGREGATE_LABEL];
        if subjectRole in roleRefs {
          roleRefs := roleRefs[subjectRole := roleRefs[subjectRole] + [role.name]];
        }
      }
    }
    assert roles[..|roles|] == roles;
  }

  /** The RoleBinding that is emitted for a Role. */
  function Emitted(releaseNamespace: string, role: string, subjects: seq<Subject>): Binding {
    Binding(releaseNamespace, role, role, subjects)
  }

  function RefsOf(roleRefs: map<string, seq<string>>, k: string): seq<string> {
    if k in roleRefs then roleRefs[k] else []
  }

  /** No Role is listed twice, under one default role or under two. */
  ghost predicate ListedOnce(roleRefs: map<string, seq<string>>) {
    && (forall k | k in roleRefs :: NoDuplicates(roleRefs[k]))
    && (forall k, l, r | k in roleRefs && l in roleRefs && r in roleRefs[k] && r in roleRefs[l] :: k == l)
  }

  ghost predicate NamesDiffer(objs: seq<Binding>) {
    forall i, j | 0 <= i < j < |objs| :: objs[i].name != objs[j].name
  }

  /** `b` binds the subjects of one of `roles` to a Role that aggregates from it. */
  ghost predicate IsBindingOf(b: Binding, releaseNamespace: string, roleRefs: map<string, seq<string>>,
                              subjects: map<string, seq<Subject>>, roles: set<string>) {
    exists k | k in roles && k in subjects ::
      subjects[k] != [] && b.roleRef in RefsOf(roleRefs, k) && b == Emitted(releaseNamespace, b.roleRef, subjects[k])
  }

  method GetRoleBindings(opts: Options, releaseNamespace: string, roleRefs: map<string, seq<string>>,
                         subjects: map<string, seq<Subject>>)
    returns (objs: seq<Binding>)
    requires subjects.Keys == DefaultClusterRoles(opts).Keys
    ensures forall b :: b in objs <==> IsBindingOf(b, releaseNamespace, roleRefs, subjects, subjects.Keys)
    ensures ListedOnce(roleRefs) ==> NamesDiffer(objs)
  {
    hide DefaultClusterRoles;
    var defaults := GetDefaultClusterRoles(opts);
    objs := [];
    var todo := defaults.Keys;
    while todo != {}
      invariant todo <= subjects.Keys
      invariant forall b :: b in objs <==> IsBindingOf(b, releaseNamespace, roleRefs, subjects, subjects.Keys - todo)
      invariant ListedOnce(roleRefs) ==> NamesDiffer(objs)
    {
      var k :| k in todo;
      var added := BindingsForRole(releaseNamespace, RefsOf(roleRefs, k), subjects[k]);
      StepBindings(objs, added, releaseNamespace, roleRefs, subjects, subjects.Keys - todo, k);
      objs := objs + added;
      todo := todo - {k};
    }
  }

  /** The inner loop. */
  method BindingsForRole(releaseNamespace: string, refs: seq<string>, subjects: seq<Subject>)
    returns (objs: seq<Binding>)
    ensures forall b ::
      b in objs <==> subjects != [] && b.roleRef in refs && b == Emitted(releaseNamespace, b.roleRef, subjects)
    ensures NoDuplicates(refs) ==> NamesDiffer(objs)
  {
    objs := [];
    if |subjects| == 0 {
      return;
    }
    for i := 0 to |refs|
      invariant |objs| == i && forall j | 0 <= j < i :: objs[j] == Emitted(releaseNamespace, refs[j], subjects)
    {
      objs := objs + [Emitted(releaseNamespace, refs[i], subjects)];
    }
    forall b ensures b in objs <==> b.roleRef in refs && b == Emitted(releaseNamespace, b.roleRef, subjects) {
      if b.roleRef in refs && b == Emitted(releaseNamespace, b.roleRef, subjects) {
        var j :| 0 <= j < |refs| && refs[j] == b.roleRef;
        assert objs[j] == b;
      }
    }
  }

  lemma StepBindings(objs: seq<Binding>, added: seq<Binding>, releaseNamespace: string,
                     roleRefs: map<string, seq<string>>, subjects: map<string, seq<Subject>>, roles: set<string>,
                     k: string)
    requires k in subjects && k !in roles
    requires forall b :: b in objs <==> IsBindingOf(b, releaseNamespace, roleRefs, subjects, roles)
    requires forall b :: b in added <==>
      subjects[k] != [] && b.roleRef in RefsOf(roleRefs, k) && b == Emitted(releaseNamespace, b.roleRef, subjects[k])
    requires ListedOnce(roleRefs) ==> NamesDiffer(objs) && (NoDuplicates(RefsOf(roleRefs, k)) ==> NamesDiffer(added))
    ensures forall b :: b in objs + added <==> IsBindingOf(b, releaseNamespace, roleRefs, subjects, roles + {k})
    ensures ListedOnce(roleRefs) ==> NamesDiffer(objs + added)
  {
    if ListedOnce(roleRefs) {
      assert NoDuplicates(RefsOf(roleRefs, k));
      var all := objs + added;
      forall i, j | 0 <= i < |objs| <= j < |all| ensures all[i].name != all[j].name {
        assert all[i] in objs && all[j] in added;
      }
    }
  }

  // ---------------------------------------------------------------- the join

  /** A Role of the release namespace whose labels name the release and the default role `k`. */
  ghost predicate Offers(cluster: Cluster, releaseNamespace: string, releaseName: string, role: string, k: string) {
    exists r | r in cluster.roles ::
      && r.namespace == releaseNamespace && r.name == role
      && "helm.cattle.io/project-helm-chart-role" in r.labels
      && r.labels["helm.cattle.io/project-helm-chart-role"] == releaseName
      && "helm.cattle.io/project-helm-chart-role-aggregate-from" in r.labels
      && r.labels["helm.cattle.io/project-helm-chart-role-aggregate-from"] == k
  }

  /** The binding lists the subject as a User or a Group of RBAC; a namespace that it gives is dropped. */
  ghost predicate Lists(b: Binding, s: Subject) {
    && s.apiGroup == "rbac.authorization.k8s.io" && s.kind in {"User", "Group"} && s.namespace == ""
    && exists t | t in b.subjects :: t.apiGroup == s.apiGroup && t.kind == s.kind && t.name == s.name
  }

  lemma ListedIsBindable(b: Binding, s: Subject)
    ensures Lists(b, s) <==> s in BindableSubjects(b.subjects)
  {
    if Lists(b, s) {
      var t :| t in b.subjects && t.apiGroup == s.apiGroup && t.kind == s.kind && t.name == s.name;
      assert WithoutNamespace(t) == s && Bindable(t);
    }
  }

  /** A RoleBinding of the registration namespace or a ClusterRoleBinding gives the ClusterRole to the
      subject, which is a User or a Group. */
  ghost predicate Grants(cluster: Cluster, registrationNamespace: string, clusterRole: string, s: Subject) {
    || (exists b | b in cluster.roleBindings ::
          b.namespace == registrationNamespace && b.roleRef == clusterRole && Lists(b, s))
    || (exists b | b in cluster.clusterRoleBindings :: b.roleRef == clusterRole && Lists(b, s))
  }

  ghost predicate Binds(objs: seq<Binding>, role: string, s: Subject) {
    exists b | b in objs :: b.roleRef == role && s in b.subjects
  }

  /** Kubernetes names have no slash, and no two Roles of a namespace have the same name. */
  ghost predicate ValidCluster(cluster: Cluster) {
    && (forall ns | ns in cluster.namespaces :: '/' !in ns)
    && cluster.registration <= cluster.namespaces
    && (forall b | b in cluster.roleBindings :: '/' !in b.namespace)
    && (forall r | r in cluster.roles :: '/' !in r.namespace)
    && (forall i, j | 0 <= i < j < |cluster.roles| ::
          cluster.roles[i].namespace == cluster.roles[j].namespace ==> cluster.roles[i].name != cluster.roles[j].name)
  }

  lemma SlashedIsInjective(a: string, x: string, b: string, y: string)
    requires '/' !in a && '/' !in b && a + "/" + x == b + "/" + y
    ensures a == b && x == y
  {
    var s, t := a + "/" + x, b + "/" + y;
    assert s[|a|] == '/' && t[|b|] == '/';
    assert a == s[..|a|] && b == t[..|b|] && x == s[|a| + 1..] && y == t[|b| + 1..];
  }

  lemma IndexedAreGrants(opts: Options, cluster: Cluster, registrationNamespace: string, k: string, s: Subject)
    requires ValidCluster(cluster) && registrationNamespace in cluster.registration && k in DefaultClusterRoles(opts)
    ensures var bindings := IndexedBindings(opts, cluster, registrationNamespace);
      var clusterRole := DefaultClusterRoles(opts)[k];
      s in GrantedBy(bindings, clusterRole) <==> Grants(cluster, registrationNamespace, clusterRole, s)
  {
    var bindings, clusterRole := IndexedBindings(opts, cluster, registrationNamespace), DefaultClusterRoles(opts)[k];
    hide DefaultClusterRoles, BindableSubjects, ByIndex;
    assert clusterRole in DefaultClusterRoles(opts).Values;
    forall b | b in cluster.roleBindings && b.roleRef == clusterRole
      ensures registrationNamespace + "/" + BOUND in RoleBindingIndex(opts, cluster, b)
         <==> b.namespace == registrationNamespace
    {
      if b.namespace + "/" + BOUND == registrationNamespace + "/" + BOUND {
        SlashedIsInjective(b.namespace, BOUND, registrationNamespace, BOUND);
      }
    }
    forall b: Binding | b.roleRef == clusterRole
      ensures b in bindings <==>
        (b in cluster.roleBindings && b.namespace == registrationNamespace) || b in cluster.clusterRoleBindings
      ensures Lists(b, s) <==> s in BindableSubjects(b.subjects)
    {
      ListedIsBindable(b, s);
    }
    hide Lists, IndexedBindings, ClusterRoleBindingIndex, RoleBindingIndex;
  }

  lemma {:induction false} AggregatedAreListed(roles: seq<Role>, k: string, name: string)
    ensures name in AggregatedRoles(roles, k) <==> exists r | r in roles :: r.name == name && Aggregates(r, k)
    decreases |roles|
  {
    if roles == [] {
    } else {
      assert roles == roles[..|roles| - 1] + [roles[|roles| - 1]];
      AggregatedAreListed(roles[..|roles| - 1], k, name);
    }
  }

  ghost predicate RoleNamesDiffer(roles: seq<Role>) {
    forall i, j | 0 <= i < j < |roles| :: roles[i].name != roles[j].name
  }

  lemma {:induction false} AggregatedOnce(roles: seq<Role>, k: string)
    requires RoleNamesDiffer(roles)
    ensures NoDuplicates(AggregatedRoles(roles, k))
    decreases |roles|
  {
    if roles == [] {
    } else {
      var init, last := roles[..|roles| - 1], roles[|roles| - 1];
      AggregatedOnce(init, k);
      AggregatedAreListed(init, k, last.name);
      forall r | r in init ensures r.name != last.name {
        var i :| 0 <= i < |init| && init[i] == r;
        assert roles[i] == r;
      }
    }
  }

  /** What an index returns keeps the order of the items, so it has no more duplicates than they have. */
  lemma {:induction false} FoundNamesDiffer(roles: seq<Role>, key: string, ns: string)
    requires forall i, j | 0 <= i < j < |roles| ::
      roles[i].namespace == roles[j].namespace ==> roles[i].name != roles[j].name
    requires forall r | r in roles && key in RoleIndex(r) :: r.namespace == ns
    ensures RoleNamesDiffer(ByIndex(roles, RoleIndex, key))
    decreases |roles|
  {
    hide RoleIndex;
    if roles == [] {
    } else {
      var init, last := roles[..|roles| - 1], roles[|roles| - 1];
      FoundNamesDiffer(init, key, ns);
      var found := ByIndex(init, RoleIndex, key);
      if key in RoleIndex(last) {
        forall r | r in found ensures r.name != last.name {
          var i :| 0 <= i < |init| && init[i] == r;
          assert roles[i] == r && last in roles;
        }
      }
    }
  }

  lemma ReleaseRolesAreOffers(cluster: Cluster, ns: string, release: string)
    requires ValidCluster(cluster) && '/' !in ns
    ensures RoleNamesDiffer(ReleaseRoles(cluster, ns, release))
    ensures forall role, k :: role in AggregatedRoles(ReleaseRoles(cluster, ns, release), k)
                         <==> Offers(cluster, ns, release, role, k)
  {
    var roles := ReleaseRoles(cluster, ns, release);
    forall r | r in cluster.roles
      ensures ns + "/" + release in RoleIndex(r)
         <==> r.namespace == ns && RELEASE_LABEL in r.labels && r.labels[RELEASE_LABEL] == release
    {
      if RELEASE_LABEL in r.labels && r.namespace + "/" + r.labels[RELEASE_LABEL] == ns + "/" + release {
        SlashedIsInjective(r.namespace, r.labels[RELEASE_LABEL], ns, release);
      }
    }
    FoundNamesDiffer(cluster.roles, ns + "/" + release, ns);
    hide RoleIndex, ByIndex;
    forall role, k ensures role in AggregatedRoles(roles, k) <==> Offers(cluster, ns, release, role, k) {
      AggregatedAreListed(roles, k, role);
    }
  }

  /** The lists of Role names have no duplicates and do not overlap. */
  lemma AggregatedAreListedOnce(roles: seq<Role>, roleRefs: map<string, seq<string>>)
    requires RoleNamesDiffer(roles) && forall k | k in roleRefs :: roleRefs[k] == AggregatedRoles(roles, k)
    ensures ListedOnce(roleRefs)
  {
    forall k | k in roleRefs ensures NoDuplicates(roleRefs[k]) {
      AggregatedOnce(roles, k);
    }
    forall k, l, name | k in roleRefs && l in roleRefs && name in roleRefs[k] && name in roleRefs[l] ensures k == l {
      AggregatedAreListed(roles, k, name);
      AggregatedAreListed(roles, l, name);
      var r :| r in roles && r.name == name && Aggregates(r, k);
      var q :| q in roles && q.name == name && Aggregates(q, l);
      assert r == q;
    }
  }

  /** What the ClusterRole is granted to by the bindings. */
  function GrantedBy(bindings: seq<Binding>, clusterRole: string): set<Subject> {
    set b, s | b in bindings && b.roleRef == clusterRole && s in BindableSubjects(b.subjects) :: s
  }

  /** No binding that has a User or a Group refers to a ClusterRole that plays two default roles. */
  ghost predicate Unshared(defaults: map<string, string>, bindings: seq<Binding>) {
    forall b, k, l | b in bindings && k in defaults && l in defaults && defaults[k] == b.roleRef == defaults[l] ::
      k == l || BindableSubjects(b.subjects) == {}
  }

  ghost predicate CollectsAll(defaults: map<string, string>, bindings: seq<Binding>, chosen: seq<string>)
    requires |chosen| == |bindings|
  {
    forall k | k in defaults :: Collected(bindings, chosen, k) == GrantedBy(bindings, defaults[k])
  }

  lemma UnsharedCollectsAll(defaults: map<string, string>, bindings: seq<Binding>, chosen: seq<string>)
    requires Unshared(defaults, bindings) && Chosen(defaults, bindings, chosen)
    ensures CollectsAll(defaults, bindings, chosen)
  {
  }

  /** A choice that prefers `favourite`. */
  ghost function Choice(defaults: map<string, string>, roleRef: string, favourite: string): (role: string)
    requires favourite in defaults && "" !in defaults
    ensures ChosenFor(defaults, roleRef, role) && (roleRef == defaults[favourite] ==> role == favourite)
  {
    if roleRef == defaults[favourite] then favourite
    else if roleRef in defaults.Values then
      var k :| k in defaults && defaults[k] == roleRef;
      k
    else ""
  }

  /** Two default roles may be given one ClusterRole. Its subjects are then counted for one of the two
      only, whichever the iteration of a Go map meets first. However it goes, every subject is counted
      for every role that it has exactly when no binding in use refers to such a ClusterRole. */
  lemma CollectsAllIffUnshared(defaults: map<string, string>, bindings: seq<Binding>)
    requires "" !in defaults
    ensures (forall chosen | Chosen(defaults, bindings, chosen) :: CollectsAll(defaults, bindings, chosen))
       <==> Unshared(defaults, bindings)
  {
    if Unshared(defaults, bindings) {
      forall chosen | Chosen(defaults, bindings, chosen) ensures CollectsAll(defaults, bindings, chosen) {
        UnsharedCollectsAll(defaults, bindings, chosen);
      }
    } else {
      hide BindableSubjects;
      var b, k, l :| b in bindings && k in defaults && l in defaults && defaults[k] == b.roleRef == defaults[l]
        && k != l && BindableSubjects(b.subjects) != {};
      var s :| s in BindableSubjects(b.subjects);
      var chosen := seq(|bindings|, i requires 0 <= i < |bindings| => Choice(defaults, bindings[i].roleRef, k));
      assert Chosen(defaults, bindings, chosen);
      assert s in GrantedBy(bindings, defaults[l]);
      forall i | 0 <= i < |bindings| ensures chosen[i] != l {
        assert ChosenFor(defaults, bindings[i].roleRef, chosen[i]);
      }
      assert s !in Collected(bindings, chosen, l);
    }
  }

  /** Different names suffice. */
  lemma DistinctNamesAreUnshared(opts: Options, bindings: seq<Binding>)
    requires DistinctNames(opts)
    ensures Unshared(DefaultClusterRoles(opts), bindings)
  {
  }

  /** Whom the emitted bindings bind to a Role. */
  lemma BoundThrough(objs: seq<Binding>, ns: string, roleRefs: map<string, seq<string>>,
                     subjects: map<string, seq<Subject>>, role: string, s: Subject)
    requires forall b :: b in objs <==> IsBindingOf(b, ns, roleRefs, subjects, subjects.Keys)
    ensures Binds(objs, role, s)
       <==> exists k | k in subjects :: role in RefsOf(roleRefs, k) && s in Elements(subjects[k])
  {
    if k :| k in subjects && role in RefsOf(roleRefs, k) && s in Elements(subjects[k]) {
      assert IsBindingOf(Emitted(ns, role, subjects[k]), ns, roleRefs, subjects, subjects.Keys);
    }
  }

  /** The RoleBindings of a release: a User or Group is bound to a Role exactly when the Role aggregates
      from a default role whose ClusterRole the subject has in the registration namespace or the
      cluster. No binding is empty, lists a subject twice, or shares its name with another. */
  method RoleBindingsOfRelease(opts: Options, cluster: Cluster, registrationNamespace: string,
                               releaseNamespace: string, releaseName: string)
    returns (objs: seq<Binding>)
    requires ValidCluster(cluster) && registrationNamespace in cluster.registration
    requires releaseNamespace in cluster.namespaces
    ensures forall b | b in objs ::
      b.namespace == releaseNamespace && b.name == b.roleRef && b.subjects != [] && NoDuplicates(b.subjects)
    ensures NamesDiffer(objs)
    ensures NamesApart(opts)
            || Unshared(DefaultClusterRoles(opts), IndexedBindings(opts, cluster, registrationNamespace)) ==>
      forall role, s ::
        Binds(objs, role, s) <==> Entitled(opts, cluster, registrationNamespace, releaseNamespace, releaseName, role, s)
    ensures forall b | b in objs :: OnlyUsersAndGroups(b.subjects)
  {
    hide DefaultClusterRoles, Unshared, Collected, IndexedBindings, ReleaseRoles, AggregatedRoles, Binds, Offers,
      Grants, NoDuplicates, ListedOnce, NamesDiffer, RoleNamesDiffer, BindableSubjects, ChosenFor;
    var roleRefs := GetSubjectRoleToRoleRefsFromRoles(opts, cluster, releaseNamespace, releaseName);
    var subjects, chosen := GetSubjectRoleToSubjectsFromBindings(opts, cluster, registrationNamespace);
    objs := GetRoleBindings(opts, releaseNamespace, roleRefs, subjects);
    ReleaseRolesAreOffers(cluster, releaseNamespace, releaseName);
    AggregatedAreListedOnce(ReleaseRoles(cluster, releaseNamespace, releaseName), roleRefs);
    forall k | k in subjects ensures OnlyUsersAndGroups(subjects[k]) {
      CollectedAreUsers(IndexedBindings(opts, cluster, registrationNamespace), chosen, k, subjects[k]);
    }
    if NamesApart(opts) {
      NamesApartAreDistinct(opts);
      DistinctNamesAreUnshared(opts, IndexedBindings(opts, cluster, registrationNamespace));
    }
    hide NamesApart, DistinctNames, OnlyUsersAndGroups, Entitled;
    if Unshared(DefaultClusterRoles(opts), IndexedBindings(opts, cluster, registrationNamespace)) {
      UnsharedCollectsAll(DefaultClusterRoles(opts), IndexedBindings(opts, cluster, registrationNamespace), chosen);
      forall role, s ensures Binds(objs, role, s)
        <==> Entitled(opts, cluster, registrationNamespace, releaseNamespace, releaseName, role, s)
      {
        BoundThrough(objs, releaseNamespace, roleRefs, subjects, role, s);
        EntitledByRole(opts, cluster, registrationNamespace, releaseNamespace, releaseName, role, s);
        forall k | k in subjects ensures
          s in Elements(subjects[k]) <==> Grants(cluster, registrationNamespace, DefaultClusterRoles(opts)[k], s)
        {
          IndexedAreGrants(opts, cluster, registrationNamespace, k, s);
        }
      }
    }
  }

  /** The Role aggregates from admin, edit or view, and the subject has the ClusterRole that the operator
      was given for it. */
  ghost predicate Entitled(opts: Options, cluster: Cluster, registrationNamespace: string, releaseNamespace: string,
                           releaseName: string, role: string, s: Subject)
  {
    || (opts.adminClusterRole != "" && Offers(cluster, releaseNamespace, releaseName, role, "admin")
        && Grants(cluster, registrationNamespace, opts.adminClusterRole, s))
    || (opts.editClusterRole != "" && Offers(cluster, releaseNamespace, releaseName, role, "edit")
        && Grants(cluster, registrationNamespace, opts.editClusterRole, s))
    || (opts.viewClusterRole != "" && Offers(cluster, releaseNamespace, releaseName, role, "view")
        && Grants(cluster, registrationNamespace, opts.viewClusterRole, s))
  }

  /** The same over the table of the default roles. */
  lemma EntitledByRole(opts: Options, cluster: Cluster, registrationNamespace: string, releaseNamespace: string,
                       releaseName: string, role: string, s: Subject)
    ensures Entitled(opts, cluster, registrationNamespace, releaseNamespace, releaseName, role, s)
       <==> exists k | k in DefaultClusterRoles(opts) ::
              && Offers(cluster, releaseNamespace, releaseName, role, k)
              && Grants(cluster, registrationNamespace, DefaultClusterRoles(opts)[k], s)
  {
    hide Offers, Grants;
    assert opts.adminClusterRole != "" ==> "admin" in DefaultClusterRoles(opts);
    assert opts.editClusterRole != "" ==> "edit" in DefaultClusterRoles(opts);
    assert opts.viewClusterRole != "" ==> "view" in DefaultClusterRoles(opts);
  }

  predicate OnlyUsersAndGroups(subjects: seq<Subject>) {
    forall s | s in subjects ::
      s.apiGroup == "rbac.authorization.k8s.io" && s.kind in {"User", "Group"} && s.namespace == ""
  }

  lemma CollectedAreUsers(bindings: seq<Binding>, chosen: seq<string>, role: string, subjects: seq<Subject>)
    requires |chosen| == |bindings| && Elements(subjects) == Collected(bindings, chosen, role)
    ensures OnlyUsersAndGroups(subjects)
  {
    assert forall s :: s in subjects <==> s in Collected(bindings, chosen, role);
  }

  /** The operator was given no ClusterRole for two of the roles. */
  predicate NamesApart(opts: Options) {
    && (opts.adminClusterRole != "" ==> opts.adminClusterRole !in {opts.editClusterRole, opts.viewClusterRole})
    && (opts.editClusterRole != "" ==> opts.editClusterRole != opts.viewClusterRole)
  }

  lemma NamesApartAreDistinct(opts: Options)
    requires NamesApart(opts)
    ensures DistinctNames(opts)
  {
  }
}
