/** Layering of Helm values: a recursive merge of nested maps in which the right side wins. */
module Values {
  import opened Prelude

  /** A key of a map[interface{}]interface{}. */
  datatype AnyKey = StringKey(text: string) | OtherKey(text: string)

  /** A Go value as far as merging can tell it apart. Labels is a map[string]string and Generic a
      v1alpha1.GenericMap: neither is recognised as a map. Other is any value that is not a map. */
  datatype Value =
    | StringMap(strings: map<string, Value>)
    | AnyMap(anys: map<AnyKey, Value>)
    | Generic(generic: map<string, Value>)
    | Labels(labels: map<string, string>)
    | Strings(items: seq<string>)
    | Other(text: string)

  predicate OnlyStringKeys(m: map<AnyKey, Value>) {
    forall k | k in m :: k.StringKey?
  }

  function Converted(m: map<AnyKey, Value>): map<string, Value> {
    map s | s in (set k | k in m && k.StringKey? :: k.text) :: m[StringKey(s)]
  }

  /** The value as a map with string keys, if getMap recognises it as one. */
  function AsMap(v: Value): Option<map<string, Value>> {
    match v
    case StringMap(m) => Some(m)
    case AnyMap(m) => if OnlyStringKeys(m) then Some(Converted(m)) else None
    case _ => None
  }

  predicate IsMap(v: Value) {
    AsMap(v).Some?
  }

  /** What merging comes to: maps are merged key by key, anything else is replaced. */
  function Merge(l: Value, r: Value): Value
    decreases r
  {
    if !IsMap(l) || !IsMap(r) then r
    else
      var lm, rm := AsMap(l).value, AsMap(r).value;
      StringMap(map k | k in lm.Keys + rm.Keys ::
        if k !in rm then lm[k] else if k !in lm then rm[k] else Merge(lm[k], rm[k]))
  }

  function Merged(base: map<string, Value>, overlay: map<string, Value>): map<string, Value> {
    Merge(StringMap(base), StringMap(overlay)).strings
  }

  // ---------------------------------------------------------------- the code

  method ConvertMap(entry: map<AnyKey, Value>) returns (out: Option<map<string, Value>>)
    ensures out == AsMap(AnyMap(entry))
    ensures out.Some? <==> forall k | k in entry :: k.StringKey?
    ensures out.Some? ==> forall s :: s in out.value <==> StringKey(s) in entry
    ensures out.Some? ==> forall s | s in out.value :: out.value[s] == entry[StringKey(s)]
  {
    var converted: map<string, Value> := map[];
    var todo := entry.Keys;
    while todo != {}
      invariant todo <= entry.Keys
      invariant forall k | k in entry && k !in todo :: k.StringKey?
      invariant forall s :: s in converted <==> StringKey(s) in entry && StringKey(s) !in todo
      invariant forall s | s in converted :: converted[s] == entry[StringKey(s)]
    {
      var k :| k in todo;
      if !k.StringKey? {
        return None;
      }
      converted := converted[k.text := entry[k]];
      todo := todo - {k};
    }
    assert forall s :: s in Converted(entry) <==> StringKey(s) in entry;
    assert converted == Converted(entry);
    return Some(converted);
  }

  /** A GenericMap is not among the kinds that are recognised. */
  method GetMap(entry: Value) returns (m: Option<map<string, Value>>)
    ensures m == AsMap(entry)
    ensures m.Some? <==> entry.StringMap? || (entry.AnyMap? && forall k | k in entry.anys :: k.StringKey?)
    ensures entry.StringMap? ==> m == Some(entry.strings)
  {
    match entry
    case StringMap(strings) => return Some(strings);
    case AnyMap(anys) => m := ConvertMap(anys);
    case _ => return None;
  }

  method BothMaps(left: Value, right: Value) returns (maps: Option<(map<string, Value>, map<string, Value>)>)
    ensures maps == if IsMap(left) && IsMap(right) then Some((AsMap(left).value, AsMap(right).value)) else None
  {
    var leftMap := GetMap(left);
    if leftMap.None? {
      return None;
    }
    var rightMap := GetMap(right);
    if rightMap.None? {
      return None;
    }
    return Some((leftMap.value, rightMap.value));
  }

  /** The merge of two entries, in terms of the maps that they stand for. */
  lemma MergeOfMaps(l: Value, r: Value)
    requires IsMap(l) && IsMap(r)
    ensures Merge(l, r) == StringMap(Merged(AsMap(l).value, AsMap(r).value))
  {
  }

  lemma ReplacedUnlessMaps(l: Value, r: Value)
    ensures !IsMap(l) || !IsMap(r) ==> Merge(l, r) == r
  {
  }

  lemma EntryIsSmaller(whole: Value, k: string)
    requires IsMap(whole) && k in AsMap(whole).value
    ensures AsMap(whole).value[k] < whole
  {
  }

  lemma MergedByKey(base: map<string, Value>, overlay: map<string, Value>, result: map<string, Value>)
    requires result.Keys == base.Keys + overlay.Keys
    requires forall k | k in base && k !in overlay :: result[k] == base[k]
    requires forall k | k in overlay :: result[k] == if k in base then Merge(base[k], overlay[k]) else overlay[k]
    ensures result == Merged(base, overlay)
  {
  }

  /** `whole` is the value whose entries `overlay` are: the recursion ends because they are parts of it. */
  method MergeMaps(base: map<string, Value>, overlay: map<string, Value>, ghost whole: Value)
    returns (result: map<string, Value>)
    requires AsMap(whole) == Some(overlay)
    ensures result == Merged(base, overlay)
    decreases whole
  {
    hide Merge, Merged, AsMap;
    result := map[];
    var todo := base.Keys;
    while todo != {}
      invariant todo <= base.Keys && result.Keys == base.Keys - todo
      invariant forall k | k in result :: result[k] == base[k]
    {
      var k :| k in todo;
      result := result[k := base[k]];
      todo := todo - {k};
    }
    todo := overlay.Keys;
    while todo != {}
      invariant todo <= overlay.Keys && result.Keys == base.Keys + (overlay.Keys - todo)
      invariant forall k | k in base && (k !in overlay || k in todo) :: result[k] == base[k]
      invariant forall k | k in overlay && k !in todo ::
        result[k] == if k in base then Merge(base[k], overlay[k]) else overlay[k]
    {
      var k :| k in todo;
      var v := overlay[k];
      if k in result {
        ReplacedUnlessMaps(result[k], v);
        var maps := BothMaps(result[k], v);
        if maps.Some? {
          MergeOfMaps(result[k], v);
          EntryIsSmaller(whole, k);
          var merged := MergeMaps(maps.value.0, maps.value.1, v);
          v := StringMap(merged);
        }
      }
      result := result[k := v];
      todo := todo - {k};
    }
    MergedByKey(base, overlay, result);
  }

  // ---------------------------------------------------------------- what a merge does at each path

  function Lookup(v: Value, path: seq<string>): Option<Value> {
    if path == [] then Some(v)
    else if IsMap(v) && path[0] in AsMap(v).value then Lookup(AsMap(v).value[path[0]], path[1..])
    else None
  }

  predicate IsMapAt(v: Value, path: seq<string>) {
    Lookup(v, path).Some? && IsMap(Lookup(v, path).value)
  }

  ghost predicate BothMapsAt(l: Value, r: Value, path: seq<string>) {
    IsMapAt(l, path) && IsMapAt(r, path)
  }

  /** `i` is the length of the shortest prefix of the path at which the two are not both maps. */
  ghost predicate Forks(l: Value, r: Value, path: seq<string>, i: nat) {
    i <= |path| && !BothMapsAt(l, r, path[..i]) && forall j | 0 <= j < i :: BothMapsAt(l, r, path[..j])
  }

  lemma LookupStep(v: Value, path: seq<string>, i: nat)
    requires 0 < i <= |path|
    ensures Lookup(v, path[..i])
         == if IsMap(v) && path[0] in AsMap(v).value then Lookup(AsMap(v).value[path[0]], path[1..][..i - 1]) else None
  {
    assert path[..i][1..] == path[1..][..i - 1];
  }

  /** Below the fork only one side is seen: the right one if it has anything there. */
  lemma {:induction false} MergeBelowFork(l: Value, r: Value, path: seq<string>, i: nat)
    requires Forks(l, r, path, i)
    ensures Lookup(Merge(l, r), path) == if Lookup(r, path[..i]).Some? then Lookup(r, path) else Lookup(l, path)
    decreases |path|
  {
    if i == 0 {
    } else {
      assert BothMapsAt(l, r, path[..0]);
      var k := path[0];
      var lm, rm := AsMap(l).value, AsMap(r).value;
      LookupStep(l, path, i);
      LookupStep(r, path, i);
      if i > 1 {
        LookupStep(l, path, 1);
        LookupStep(r, path, 1);
        assert BothMapsAt(l, r, path[..1]);
      }
      if k in lm && k in rm {
        forall j | 0 <= j < i - 1 ensures BothMapsAt(lm[k], rm[k], path[1..][..j]) {
          LookupStep(l, path, j + 1);
          LookupStep(r, path, j + 1);
          assert BothMapsAt(l, r, path[..j + 1]);
        }
        MergeBelowFork(lm[k], rm[k], path[1..], i - 1);
      }
    }
  }

  /** Where the two are maps all the way, the merge has their merge. */
  lemma {:induction false} MergeOfSharedMaps(l: Value, r: Value, path: seq<string>)
    requires BothMapsAt(l, r, path)
    ensures Lookup(Merge(l, r), path) == Some(Merge(Lookup(l, path).value, Lookup(r, path).value))
    decreases |path|
  {
    if path == [] {
    } else {
      MergeOfSharedMaps(AsMap(l).value[path[0]], AsMap(r).value[path[0]], path[1..]);
    }
  }

  /** A path at which the two are not both maps has a fork. */
  lemma ForkExists(l: Value, r: Value, path: seq<string>) returns (i: nat)
    requires !BothMapsAt(l, r, path)
    ensures Forks(l, r, path, i)
  {
    i := 0;
    assert path[..|path|] == path;
    while BothMapsAt(l, r, path[..i])
      invariant i <= |path| && forall j | 0 <= j < i :: BothMapsAt(l, r, path[..j])
      decreases |path| - i
    {
      i := i + 1;
    }
  }

  /** What a merge has at any path at all: their merge where the two are maps all the way, and otherwise
      what one of them has, the overlay if it has anything at the fork. */
  lemma MergeAtEveryPath(l: Value, r: Value, path: seq<string>) returns (i: nat)
    ensures BothMapsAt(l, r, path) ==>
      Lookup(Merge(l, r), path) == Some(Merge(Lookup(l, path).value, Lookup(r, path).value))
    ensures !BothMapsAt(l, r, path) ==>
      && Forks(l, r, path, i)
      && Lookup(Merge(l, r), path) == if Lookup(r, path[..i]).Some? then Lookup(r, path) else Lookup(l, path)
  {
    if BothMapsAt(l, r, path) {
      i := 0;
      MergeOfSharedMaps(l, r, path);
    } else {
      i := ForkExists(l, r, path);
      MergeBelowFork(l, r, path, i);
    }
  }

  /** What the overlay has at a path stands unless both sides have maps there. */
  lemma OverlayStands(l: Value, r: Value, path: seq<string>)
    requires Lookup(r, path).Some? && !BothMapsAt(l, r, path)
    ensures Lookup(Merge(l, r), path) == Lookup(r, path)
  {
  }

  // ---------------------------------------------------------------- regrouping

  /** Everything that `a` could contribute is already in `c`. */
  predicate Absorbs(a: Value, c: Value)
    decreases c
  {
    IsMap(a) && IsMap(c) ==>
      c.StringMap? && forall k | k in AsMap(a).value :: k in c.strings && Absorbs(AsMap(a).value[k], c.strings[k])
  }

  lemma {:induction false} AbsorbedIffUnchanged(a: Value, c: Value)
    ensures Merge(a, c) == c <==> Absorbs(a, c)
    decreases c
  {
    if !IsMap(a) || !c.StringMap? {
    } else {
      var am, cm := AsMap(a).value, c.strings;
      forall k | k in am && k in cm ensures Merge(am[k], cm[k]) == cm[k] <==> Absorbs(am[k], cm[k]) {
        AbsorbedIffUnchanged(am[k], cm[k]);
      }
      var both := Merge(a, c).strings;
      assert both.Keys == am.Keys + cm.Keys;
      if Merge(a, c) == c {
        forall k | k in am ensures k in cm && Absorbs(am[k], cm[k]) {
          assert k in both;
          assert both[k] == Merge(am[k], cm[k]);
        }
      }
      if Absorbs(a, c) {
        forall k | k in both ensures k in cm && both[k] == cm[k] {
          assert k in am ==> k in cm;
        }
        assert both == cm;
      }
    }
  }

  /** Wherever `a` and `c` have maps but `b` has something else, `a` is absorbed by `c`. */
  predicate Regroups(a: Value, b: Value, c: Value)
    decreases c
  {
    if !IsMap(a) || !IsMap(c) then true
    else if !IsMap(b) then Absorbs(a, c)
    else
      var am, bm, cm := AsMap(a).value, AsMap(b).value, AsMap(c).value;
      forall k | k in am && k in bm && k in cm :: Regroups(am[k], bm[k], cm[k])
  }

  predicate SameGrouped(a: Value, b: Value, c: Value) {
    Merge(Merge(a, b), c) == Merge(a, Merge(b, c))
  }

  /** Merging is not associative. It is so exactly when no map of `a` comes back from under a value of
      `b` that has replaced it. */
  lemma {:induction false} AssociativeIffRegroups(a: Value, b: Value, c: Value)
    ensures SameGrouped(a, b, c) <==> Regroups(a, b, c)
    decreases c
  {
    if !IsMap(a) || !IsMap(c) {
    } else if !IsMap(b) {
      AbsorbedIffUnchanged(a, c);
    } else {
      RegroupedByKey(a, b, c);
      hide Merge;
      var am, bm, cm := AsMap(a).value, AsMap(b).value, AsMap(c).value;
      forall k | k in am && k in bm && k in cm
        ensures SameGrouped(am[k], bm[k], cm[k]) <==> Regroups(am[k], bm[k], cm[k])
      {
        AssociativeIffRegroups(am[k], bm[k], cm[k]);
      }
    }
  }

  lemma RegroupedByKey(a: Value, b: Value, c: Value)
    requires IsMap(a) && IsMap(b) && IsMap(c)
    ensures var am, bm, cm := AsMap(a).value, AsMap(b).value, AsMap(c).value;
      SameGrouped(a, b, c) <==> forall k | k in am && k in bm && k in cm :: SameGrouped(am[k], bm[k], cm[k])
  {
    hide Merge;
    BothGroupings(a, b, c);
    var am, bm, cm := AsMap(a).value, AsMap(b).value, AsMap(c).value;
    var left, right := Merge(Merge(a, b), c).strings, Merge(a, Merge(b, c)).strings;
    forall k | k in left
      ensures left[k] == right[k] <==> (k in am && k in bm && k in cm ==> SameGrouped(am[k], bm[k], cm[k]))
    {
      RegroupedAt(a, b, c, k);
    }
    assert left == right <==> forall k | k in left :: left[k] == right[k];
  }

  lemma BothGroupings(a: Value, b: Value, c: Value)
    requires IsMap(a) && IsMap(b) && IsMap(c)
    ensures Merge(Merge(a, b), c).StringMap? && Merge(a, Merge(b, c)).StringMap?
    ensures var am, bm, cm := AsMap(a).value, AsMap(b).value, AsMap(c).value;
      am.Keys + bm.Keys + cm.Keys == Merge(Merge(a, b), c).strings.Keys == Merge(a, Merge(b, c)).strings.Keys
  {
    hide Merge;
    MergeKeys(a, b);
    MergeKeys(Merge(a, b), c);
    MergeKeys(b, c);
    MergeKeys(a, Merge(b, c));
  }

  lemma MergeKeys(l: Value, r: Value)
    requires IsMap(l) && IsMap(r)
    ensures Merge(l, r).StringMap? && Merge(l, r).strings.Keys == AsMap(l).value.Keys + AsMap(r).value.Keys
  {
  }

  lemma RegroupedAt(a: Value, b: Value, c: Value, k: string)
    requires IsMap(a) && IsMap(b) && IsMap(c)
    requires k in AsMap(a).value.Keys + AsMap(b).value.Keys + AsMap(c).value.Keys
    ensures var am, bm, cm := AsMap(a).value, AsMap(b).value, AsMap(c).value;
      var left, right := Merge(Merge(a, b), c).strings, Merge(a, Merge(b, c)).strings;
      && k in left && k in right
      && if k in am && k in bm && k in cm
         then left[k] == Merge(Merge(am[k], bm[k]), cm[k]) && right[k] == Merge(am[k], Merge(bm[k], cm[k]))
         else left[k] == right[k]
  {
  }

  /** In particular it is associative when no path has a map in `a` and `c` and something else in `b`. */
  lemma {:induction false} AssociativeWithoutBarrier(a: Value, b: Value, c: Value)
    requires forall p: seq<string> :: BothMapsAt(a, c, p) && Lookup(b, p).Some? ==> IsMapAt(b, p)
    ensures Regroups(a, b, c) && SameGrouped(a, b, c)
    decreases c
  {
    hide Merge, SameGrouped;
    assert BothMapsAt(a, c, []) && Lookup(b, []).Some? ==> IsMapAt(b, []);
    if !IsMap(a) || !IsMap(b) || !IsMap(c) {
    } else {
      var am, bm, cm := AsMap(a).value, AsMap(b).value, AsMap(c).value;
      forall k | k in am && k in bm && k in cm ensures Regroups(am[k], bm[k], cm[k]) {
        forall p: seq<string> | BothMapsAt(am[k], cm[k], p) && Lookup(bm[k], p).Some? ensures IsMapAt(bm[k], p) {
          assert ([k] + p)[1..] == p;
          assert BothMapsAt(a, c, [k] + p) && Lookup(b, [k] + p).Some?;
        }
        AssociativeWithoutBarrier(am[k], bm[k], cm[k]);
      }
    }
    AssociativeIffRegroups(a, b, c);
  }

  // ---------------------------------------------------------------- GenericMap

  /** The value with every GenericMap in it read as the map that it is. */
  function Plain(v: Value): Value {
    match v
    case StringMap(m) => StringMap(map k | k in m :: Plain(m[k]))
    case AnyMap(m) => AnyMap(map k | k in m :: Plain(m[k]))
    case Generic(m) => StringMap(map k | k in m :: Plain(m[k]))
    case _ => v
  }

  lemma PlainAsMap(v: Value)
    ensures IsMap(Plain(v)) <==> IsMap(v) || v.Generic?
    ensures IsMap(v) ==>
      && AsMap(Plain(v)).value.Keys == AsMap(v).value.Keys
      && forall k | k in AsMap(v).value :: AsMap(Plain(v)).value[k] == Plain(AsMap(v).value[k])
  {
    if v.AnyMap? && OnlyStringKeys(v.anys) {
      var plain := Plain(v).anys;
      assert OnlyStringKeys(plain);
      assert forall s :: s in Converted(plain) <==> StringKey(s) in plain;
      assert forall s :: s in Converted(v.anys) <==> StringKey(s) in v.anys;
    }
  }

  /** A GenericMap meets another map only where it makes no difference. */
  predicate Agrees(l: Value, r: Value)
    decreases r
  {
    if !IsMap(Plain(l)) || !IsMap(Plain(r)) then true
    else if !IsMap(l) || !IsMap(r) then Absorbs(Plain(l), Plain(r))
    else
      var lm, rm := AsMap(l).value, AsMap(r).value;
      forall k | k in lm && k in rm :: Agrees(lm[k], rm[k])
  }

  predicate MeansTheSame(l: Value, r: Value) {
    Plain(Merge(l, r)) == Merge(Plain(l), Plain(r))
  }

  /** Merging treats a nested GenericMap like any other map exactly when, wherever one meets a map, the
      base has nothing to add to the overlay; elsewhere what the base has there is lost. */
  lemma {:induction false} MeansTheSameIffAgrees(l: Value, r: Value)
    ensures MeansTheSame(l, r) <==> Agrees(l, r)
    decreases r
  {
    PlainAsMap(l);
    PlainAsMap(r);
    if !IsMap(Plain(l)) || !IsMap(Plain(r)) {
    } else if !IsMap(l) || !IsMap(r) {
      AbsorbedIffUnchanged(Plain(l), Plain(r));
    } else {
      var lm, rm := AsMap(l).value, AsMap(r).value;
      forall k | k in lm && k in rm ensures MeansTheSame(lm[k], rm[k]) <==> Agrees(lm[k], rm[k]) {
        MeansTheSameIffAgrees(lm[k], rm[k]);
      }
      PlainByKey(l, r);
    }
  }

  lemma PlainByKey(l: Value, r: Value)
    requires IsMap(l) && IsMap(r)
    ensures var lm, rm := AsMap(l).value, AsMap(r).value;
      MeansTheSame(l, r) <==> forall k | k in lm && k in rm :: MeansTheSame(lm[k], rm[k])
  {
    PlainAsMap(l);
    PlainAsMap(r);
    var lm, rm := AsMap(l).value, AsMap(r).value;
    var left, right := Plain(Merge(l, r)).strings, Merge(Plain(l), Plain(r)).strings;
    assert left.Keys == right.Keys == lm.Keys + rm.Keys;
    assert left == right <==> forall k | k in left :: left[k] == right[k];
  }

  predicate NoGeneric(v: Value) {
    match v
    case StringMap(m) => forall k | k in m :: NoGeneric(m[k])
    case AnyMap(m) => forall k | k in m :: NoGeneric(m[k])
    case Generic(_) => false
    case _ => true
  }

  lemma PartsHaveNoGeneric(v: Value)
    requires NoGeneric(v) && IsMap(v)
    ensures forall k | k in AsMap(v).value :: NoGeneric(AsMap(v).value[k])
  {
  }

  /** Without GenericMaps below the top, merging is as its comment says, and creates none. */
  lemma {:induction false} NoGenericAgrees(l: Value, r: Value)
    requires NoGeneric(l) && NoGeneric(r)
    ensures Agrees(l, r) && NoGeneric(Merge(l, r))
    decreases r
  {
    PlainAsMap(l);
    PlainAsMap(r);
    if !IsMap(l) || !IsMap(r) {
    } else {
      PartsHaveNoGeneric(l);
      PartsHaveNoGeneric(r);
      var lm, rm := AsMap(l).value, AsMap(r).value;
      forall k | k in lm && k in rm ensures Agrees(lm[k], rm[k]) && NoGeneric(Merge(lm[k], rm[k])) {
        NoGenericAgrees(lm[k], rm[k]);
      }
    }
  }

  // ---------------------------------------------------------------- the values of a project release

  datatype Options = Options(
    systemDefaultRegistry: string, cattleURL: string, clusterID: string,
    projectLabel: string, projectReleaseLabelValue: string)

  /** spec.projectNamespaceSelector. */
  datatype LabelSelector = LabelSelector(matchLabels: map<string, string>, matchExpressions: string)

  const PROJECT_LABEL := "helm.cattle.io/projectId"

  function ProjectNamespaceSelector(opts: Options, selector: Option<LabelSelector>, projectID: string)
    : map<string, Value>
  {
    if opts.projectLabel == "" then
      match selector
      case None => map[]
      case Some(LabelSelector(matchLabels, matchExpressions)) =>
        map["matchLabels" := Labels(matchLabels), "matchExpressions" := Other(matchExpressions)]
    else if opts.projectReleaseLabelValue == "" then
      map["matchLabels" := Labels(map[opts.projectLabel := projectID])]
    else
      map["matchLabels" := Labels(map[PROJECT_LABEL := projectID])]
  }

  function UnderCattle(m: map<string, Value>): map<string, Value> {
    map["global" := StringMap(map["cattle" := StringMap(m)])]
  }

  function Defaults(opts: Options): map<string, Value> {
    UnderCattle(map["systemDefaultRegistry" := Other(opts.systemDefaultRegistry), "url" := Other(opts.cattleURL)])
  }

  function RequiredValues(opts: Options, selector: Option<LabelSelector>, projectID: string, targets: seq<string>)
    : map<string, Value>
  {
    map[
      "clusterId" := Other(opts.clusterID),
      "projectNamespaces" := Strings(targets),
      "projectID" := Other(projectID),
      "releaseProjectID" := Other(opts.projectReleaseLabelValue),
      "projectNamespaceSelector" := StringMap(ProjectNamespaceSelector(opts, selector, projectID))]
  }

  function RequiredOverrides(opts: Options, selector: Option<LabelSelector>, projectID: string, targets: seq<string>)
    : map<string, Value>
  {
    UnderCattle(RequiredValues(opts, selector, projectID, targets))
  }

  /** Before the required overrides. */
  function Layered(opts: Options, user: map<string, Value>, overrides: map<string, Value>): map<string, Value> {
    Merged(Merged(Defaults(opts), user), overrides)
  }

  const CATTLE: seq<string> := ["global", "cattle"]

  const SELECTOR := CATTLE + ["projectNamespaceSelector"]

  lemma UnderCattleAt(m: map<string, Value>, k: string)
    requires k in m
    ensures Lookup(StringMap(UnderCattle(m)), CATTLE + [k]) == Some(m[k])
  {
    var path := CATTLE + [k];
    assert path[1..][1..][1..] == [];
    assert Lookup(StringMap(m), path[1..][1..]) == Some(m[k]);
    assert Lookup(StringMap(map["cattle" := StringMap(m)]), path[1..]) == Some(m[k]);
  }

  /** Whatever the user and the operator provide, every required value that is not a map is found
      unchanged under global.cattle. */
  lemma RequiredValuesStand(opts: Options, selector: Option<LabelSelector>, user: map<string, Value>,
                            overrides: map<string, Value>, projectID: string, targets: seq<string>, key: string)
    requires key in ["clusterId", "projectNamespaces", "projectID", "releaseProjectID"]
    ensures var layered := Layered(opts, user, overrides);
      var values := StringMap(Merged(layered, RequiredOverrides(opts, selector, projectID, targets)));
      var required := RequiredValues(opts, selector, projectID, targets);
      key in required && Lookup(values, CATTLE + [key]) == Some(required[key])
  {
    var layered, required := Layered(opts, user, overrides), RequiredValues(opts, selector, projectID, targets);
    assert key in required && !IsMap(required[key]);
    MergeOfMaps(StringMap(layered), StringMap(UnderCattle(required)));
    hide Merge, Merged, Layered, RequiredValues, UnderCattle;
    UnderCattleAt(required, key);
    OverlayStands(StringMap(layered), StringMap(UnderCattle(required)), CATTLE + [key]);
  }

  /** The project namespace selector is itself a map, so it is merged and not replaced: it is the
      required one exactly when a map that the user or the operator has put there is absorbed by it. */
  lemma SelectorStandsIffAbsorbed(opts: Options, selector: Option<LabelSelector>, user: map<string, Value>,
                                  overrides: map<string, Value>, projectID: string, targets: seq<string>)
    ensures var layered := StringMap(Layered(opts, user, overrides));
      var values := StringMap(Merged(layered.strings, RequiredOverrides(opts, selector, projectID, targets)));
      var required := StringMap(ProjectNamespaceSelector(opts, selector, projectID));
      Lookup(values, SELECTOR) == Some(required)
      <==> (IsMapAt(layered, SELECTOR) ==> Absorbs(Lookup(layered, SELECTOR).value, required))
  {
    var layered := StringMap(Layered(opts, user, overrides));
    var overlay := StringMap(RequiredOverrides(opts, selector, projectID, targets));
    var required := StringMap(ProjectNamespaceSelector(opts, selector, projectID));
    UnderCattleAt(RequiredValues(opts, selector, projectID, targets), "projectNamespaceSelector");
    assert Lookup(overlay, SELECTOR) == Some(required);
    assert Merge(layered, overlay) == StringMap(Merged(layered.strings, overlay.strings));
    hide Merge, Merged, Layered, RequiredOverrides, ProjectNamespaceSelector;
    if IsMapAt(layered, SELECTOR) {
      MergeOfSharedMaps(layered, overlay, SELECTOR);
      AbsorbedIffUnchanged(Lookup(layered, SELECTOR).value, required);
    } else {
      OverlayStands(layered, overlay, SELECTOR);
    }
  }

  /** With a project label, any further key that is put into the selector stays in the values. */
  lemma ForeignSelectorKeyStays(opts: Options, selector: Option<LabelSelector>, user: map<string, Value>,
                                overrides: map<string, Value>, projectID: string, targets: seq<string>, key: string)
    requires opts.projectLabel != "" && key != "matchLabels"
    ensures var layered := StringMap(Layered(opts, user, overrides));
      var values := StringMap(Merged(layered.strings, RequiredOverrides(opts, selector, projectID, targets)));
      IsMapAt(layered, SELECTOR) && key in AsMap(Lookup(layered, SELECTOR).value).value
      ==> Lookup(values, SELECTOR).Some? && Lookup(values, SELECTOR).value.StringMap?
          && key in Lookup(values, SELECTOR).value.strings
          && Lookup(values, SELECTOR).value.strings[key] == AsMap(Lookup(layered, SELECTOR).value).value[key]
  {
    var layered := StringMap(Layered(opts, user, overrides));
    var overlay := StringMap(RequiredOverrides(opts, selector, projectID, targets));
    var required := StringMap(ProjectNamespaceSelector(opts, selector, projectID));
    UnderCattleAt(RequiredValues(opts, selector, projectID, targets), "projectNamespaceSelector");
    assert Lookup(overlay, SELECTOR) == Some(required);
    assert Merge(layered, overlay) == StringMap(Merged(layered.strings, overlay.strings));
    assert key !in required.strings;
    hide Merged, Layered, RequiredOverrides, ProjectNamespaceSelector;
    if IsMapAt(layered, SELECTOR) {
      MergeOfSharedMaps(layered, overlay, SELECTOR);
    }
  }

  // ---------------------------------------------------------------- which layer is seen where

  /** The path neither leads to, nor is, nor goes below one of the values that the operator requires. */
  predicate Outside(path: seq<string>) {
    && path !in {[], ["global"], ["global", "cattle"]}
    && !(|path| >= 3 && path[0] == "global" && path[1] == "cattle"
         && path[2] in {"clusterId", "projectNamespaces", "projectID", "releaseProjectID", "projectNamespaceSelector"})
  }

  /** The layer has nothing at the path, nor anything but maps on the way to it. */
  ghost predicate Silent(layer: map<string, Value>, path: seq<string>) {
    && Lookup(StringMap(layer), path) == None
    && forall i | 0 <= i < |path| && Lookup(StringMap(layer), path[..i]).Some? :: IsMapAt(StringMap(layer), path[..i])
  }

  /** What the operator overrides is found unchanged, unless the user also has a map there. */
  ghost predicate OverridesStand(user: map<string, Value>, overrides: map<string, Value>, values: map<string, Value>) {
    forall p: seq<string> | Outside(p) && Lookup(StringMap(overrides), p).Some? ::
      (IsMapAt(StringMap(overrides), p) ==> !IsMapAt(StringMap(user), p)) ==>
        Lookup(StringMap(values), p) == Lookup(StringMap(overrides), p)
  }

  /** Elsewhere, what the user sets is. */
  ghost predicate UserStands(user: map<string, Value>, overrides: map<string, Value>, values: map<string, Value>) {
    forall p: seq<string> | Outside(p) && Lookup(StringMap(user), p).Some? && Silent(overrides, p) ::
      Lookup(StringMap(values), p) == Lookup(StringMap(user), p)
  }

  /** Where neither has anything there are the two defaults, and nothing else. */
  ghost predicate DefaultsRemain(opts: Options, user: map<string, Value>, overrides: map<string, Value>,
                                 values: map<string, Value>) {
    forall p: seq<string> | Outside(p) && Silent(user, p) && Silent(overrides, p) ::
      Lookup(StringMap(values), p)
      == if p == ["global", "cattle", "systemDefaultRegistry"] then Some(Other(opts.systemDefaultRegistry))
         else if p == ["global", "cattle", "url"] then Some(Other(opts.cattleURL))
         else None
  }

  /** What is required is there in any case. */
  ghost predicate RequiredIsSet(opts: Options, projectID: string, targets: seq<string>, values: map<string, Value>) {
    && Lookup(StringMap(values), ["global", "cattle", "clusterId"]) == Some(Other(opts.clusterID))
    && Lookup(StringMap(values), ["global", "cattle", "projectNamespaces"]) == Some(Strings(targets))
    && Lookup(StringMap(values), ["global", "cattle", "projectID"]) == Some(Other(projectID))
    && Lookup(StringMap(values), ["global", "cattle", "releaseProjectID"])
       == Some(Other(opts.projectReleaseLabelValue))
  }

  /** And so are the labels that select the namespaces of the project: those of the chart without a project
      label, and otherwise the project's, under the operator's own label if it creates release namespaces. */
  ghost predicate SelectorIsSet(opts: Options, selector: Option<LabelSelector>, projectID: string,
                                values: map<string, Value>) {
    var labels := Lookup(StringMap(values), ["global", "cattle", "projectNamespaceSelector", "matchLabels"]);
    && (opts.projectLabel == "" && selector.Some? ==>
          && labels == Some(Labels(selector.value.matchLabels))
          && Lookup(StringMap(values), ["global", "cattle", "projectNamespaceSelector", "matchExpressions"])
             == Some(Other(selector.value.matchExpressions)))
    && (opts.projectLabel != "" && opts.projectReleaseLabelValue == "" ==>
          labels == Some(Labels(map[opts.projectLabel := projectID])))
    && (opts.projectLabel != "" && opts.projectReleaseLabelValue != "" ==>
          labels == Some(Labels(map["helm.cattle.io/projectId" := projectID])))
  }

  lemma {:induction false} MapsOnTheWay(v: Value, path: seq<string>, i: nat)
    requires i < |path| && Lookup(v, path).Some?
    ensures IsMapAt(v, path[..i])
    decreases |path|
  {
    if i == 0 {
    } else {
      LookupStep(v, path, i);
      MapsOnTheWay(AsMap(v).value[path[0]], path[1..], i - 1);
    }
  }

  /** A layer that is silent at a path does not show there. */
  lemma SilentLayer(below: Value, layer: map<string, Value>, path: seq<string>)
    requires Silent(layer, path)
    ensures Lookup(Merge(below, StringMap(layer)), path) == Lookup(below, path)
  {
    assert path[..|path|] == path;
    var i := MergeAtEveryPath(below, StringMap(layer), path);
    if Lookup(StringMap(layer), path[..i]).Some? && Lookup(below, path).Some? {
      MapsOnTheWay(below, path, i);
    }
  }

  /** What lies under global.cattle is found there, and nothing anywhere else. */
  lemma UnderCattleLookup(m: map<string, Value>, path: seq<string>)
    requires path !in {[], ["global"], ["global", "cattle"]}
    ensures Lookup(StringMap(UnderCattle(m)), path)
         == if |path| >= 3 && path[..2] == ["global", "cattle"] && path[2] in m then Lookup(m[path[2]], path[3..])
            else None
  {
    var inner := StringMap(map["cattle" := StringMap(m)]);
    if path[0] == "global" {
      assert path == ["global"] + path[1..] && (|path| == 1 ==> path == ["global"]);
      if path[1] == "cattle" {
        assert path == ["global", "cattle"] + path[2..] && (|path| == 2 ==> path == ["global", "cattle"]);
        assert path[1..][1..] == path[2..] && path[2..][1..] == path[3..];
        assert Lookup(inner, path[1..]) == Lookup(StringMap(m), path[2..]);
      }
    }
  }

  lemma UnderCattleIsMap(m: map<string, Value>)
    ensures IsMapAt(StringMap(UnderCattle(m)), [])
    ensures IsMapAt(StringMap(UnderCattle(m)), ["global"])
    ensures IsMapAt(StringMap(UnderCattle(m)), ["global", "cattle"])
  {
    assert ["global", "cattle"][1..] == ["cattle"];
    assert Lookup(StringMap(map["cattle" := StringMap(m)]), ["cattle"]) == Some(StringMap(m));
  }

  lemma DefaultsAt(opts: Options, path: seq<string>)
    requires Outside(path)
    ensures Lookup(StringMap(Defaults(opts)), path)
         == if path == ["global", "cattle", "systemDefaultRegistry"] then Some(Other(opts.systemDefaultRegistry))
            else if path == ["global", "cattle", "url"] then Some(Other(opts.cattleURL))
            else None
  {
    var m := map["systemDefaultRegistry" := Other(opts.systemDefaultRegistry), "url" := Other(opts.cattleURL)];
    UnderCattleLookup(m, path);
    if |path| >= 3 && path[..2] == ["global", "cattle"] {
      assert path == ["global", "cattle", path[2]] + path[3..];
    }
  }

  lemma RequiredIsSilent(opts: Options, selector: Option<LabelSelector>, projectID: string, targets: seq<string>,
                         path: seq<string>)
    requires Outside(path)
    ensures Silent(RequiredOverrides(opts, selector, projectID, targets), path)
  {
    var m := RequiredValues(opts, selector, projectID, targets);
    hide ProjectNamespaceSelector;
    UnderCattleLookup(m, path);
    UnderCattleIsMap(m);
    forall i | 0 <= i < |path| && Lookup(StringMap(UnderCattle(m)), path[..i]).Some?
      ensures IsMapAt(StringMap(UnderCattle(m)), path[..i])
    {
      assert i >= 3 ==> path[..i][..2] == path[..2] && path[..i][2] == path[2];
      if path[..i] !in {[], ["global"], ["global", "cattle"]} {
        UnderCattleLookup(m, path[..i]);
      }
    }
  }

  lemma NoDefaultMap(opts: Options, path: seq<string>)
    requires Outside(path)
    ensures !IsMapAt(StringMap(Defaults(opts)), path)
  {
    DefaultsAt(opts, path);
  }

  lemma LayeredIsMerge(opts: Options, user: map<string, Value>, overrides: map<string, Value>,
                       required: map<string, Value>)
    ensures StringMap(Layered(opts, user, overrides))
         == Merge(Merge(StringMap(Defaults(opts)), StringMap(user)), StringMap(overrides))
    ensures StringMap(Merged(Layered(opts, user, overrides), required))
         == Merge(StringMap(Layered(opts, user, overrides)), StringMap(required))
  {
  }

  /** What the values have at a path outside, by the layers from the top. */
  lemma LayersAt(opts: Options, selector: Option<LabelSelector>, user: map<string, Value>,
                 overrides: map<string, Value>, projectID: string, targets: seq<string>, path: seq<string>)
    requires Outside(path)
    ensures var at := Lookup(StringMap(Merged(Layered(opts, user, overrides),
                                              RequiredOverrides(opts, selector, projectID, targets))), path);
      && (Lookup(StringMap(overrides), path).Some?
          && (IsMapAt(StringMap(overrides), path) ==> !IsMapAt(StringMap(user), path)) ==>
            at == Lookup(StringMap(overrides), path))
      && (Lookup(StringMap(user), path).Some? && Silent(overrides, path) ==> at == Lookup(StringMap(user), path))
      && (Silent(user, path) && Silent(overrides, path) ==> at == Lookup(StringMap(Defaults(opts)), path))
  {
    var required := RequiredOverrides(opts, selector, projectID, targets);
    var defaults := StringMap(Defaults(opts));
    var withUser := Merge(defaults, StringMap(user));
    var layered := StringMap(Layered(opts, user, overrides));
    LayeredIsMerge(opts, user, overrides, required);
    RequiredIsSilent(opts, selector, projectID, targets, path);
    NoDefaultMap(opts, path);
    hide Merge, Merged, Layered, RequiredOverrides, Defaults, Silent, Outside;
    SilentLayer(layered, required, path);
    if Silent(user, path) {
      SilentLayer(defaults, user, path);
    } else if Lookup(StringMap(user), path).Some? {
      OverlayStands(defaults, StringMap(user), path);
    }
    if Silent(overrides, path) {
      SilentLayer(withUser, overrides, path);
    } else if Lookup(StringMap(overrides), path).Some? && !BothMapsAt(withUser, StringMap(overrides), path) {
      OverlayStands(withUser, StringMap(overrides), path);
    } else if IsMapAt(StringMap(overrides), path) && !IsMapAt(StringMap(user), path) {
      var i := MergeAtEveryPath(defaults, StringMap(user), path);
    }
  }

  lemma LayersAreSeen(opts: Options, selector: Option<LabelSelector>, user: map<string, Value>,
                      overrides: map<string, Value>, projectID: string, targets: seq<string>)
    ensures var values := Merged(Layered(opts, user, overrides),
                                 RequiredOverrides(opts, selector, projectID, targets));
      OverridesStand(user, overrides, values) && UserStands(user, overrides, values)
      && DefaultsRemain(opts, user, overrides, values)
  {
    hide Merged, Layered, RequiredOverrides, Defaults, Silent, Outside, Lookup;
    var values := Merged(Layered(opts, user, overrides), RequiredOverrides(opts, selector, projectID, targets));
    forall p: seq<string> | Outside(p)
      ensures Lookup(StringMap(overrides), p).Some?
              && (IsMapAt(StringMap(overrides), p) ==> !IsMapAt(StringMap(user), p)) ==>
        Lookup(StringMap(values), p) == Lookup(StringMap(overrides), p)
      ensures Lookup(StringMap(user), p).Some? && Silent(overrides, p) ==>
        Lookup(StringMap(values), p) == Lookup(StringMap(user), p)
      ensures Silent(user, p) && Silent(overrides, p) ==>
        Lookup(StringMap(values), p)
        == if p == ["global", "cattle", "systemDefaultRegistry"] then Some(Other(opts.systemDefaultRegistry))
           else if p == ["global", "cattle", "url"] then Some(Other(opts.cattleURL))
           else None
    {
      LayersAt(opts, selector, user, overrides, projectID, targets, p);
      DefaultsAt(opts, p);
    }
  }

  lemma RequiredIsFound(opts: Options, selector: Option<LabelSelector>, user: map<string, Value>,
                        overrides: map<string, Value>, projectID: string, targets: seq<string>)
    ensures var values := Merged(Layered(opts, user, overrides),
                                 RequiredOverrides(opts, selector, projectID, targets));
      RequiredIsSet(opts, projectID, targets, values)
  {
    hide Layered, Merged, RequiredOverrides;
    RequiredValuesStand(opts, selector, user, overrides, projectID, targets, "clusterId");
    RequiredValuesStand(opts, selector, user, overrides, projectID, targets, "projectNamespaces");
    RequiredValuesStand(opts, selector, user, overrides, projectID, targets, "projectID");
    RequiredValuesStand(opts, selector, user, overrides, projectID, targets, "releaseProjectID");
    assert CATTLE + ["clusterId"] == ["global", "cattle", "clusterId"];
    assert CATTLE + ["projectNamespaces"] == ["global", "cattle", "projectNamespaces"];
    assert CATTLE + ["projectID"] == ["global", "cattle", "projectID"];
    assert CATTLE + ["releaseProjectID"] == ["global", "cattle", "releaseProjectID"];
  }

  /** A key of the required selector. */
  lemma SelectorKeyStands(opts: Options, selector: Option<LabelSelector>, user: map<string, Value>,
                          overrides: map<string, Value>, projectID: string, targets: seq<string>, key: string)
    requires key in ProjectNamespaceSelector(opts, selector, projectID)
    requires !IsMap(ProjectNamespaceSelector(opts, selector, projectID)[key])
    ensures var values := Merged(Layered(opts, user, overrides),
                                 RequiredOverrides(opts, selector, projectID, targets));
      Lookup(StringMap(values), ["global", "cattle", "projectNamespaceSelector", key])
      == Some(ProjectNamespaceSelector(opts, selector, projectID)[key])
  {
    var path := ["global", "cattle", "projectNamespaceSelector", key];
    var required := RequiredValues(opts, selector, projectID, targets);
    LayeredIsMerge(opts, user, overrides, UnderCattle(required));
    assert path[..2] == ["global", "cattle"] && path[3..] == [key] && [key][1..] == [];
    UnderCattleLookup(required, path);
    assert required["projectNamespaceSelector"] == StringMap(ProjectNamespaceSelector(opts, selector, projectID));
    hide Merge, Merged, Layered, RequiredValues, UnderCattle, ProjectNamespaceSelector;
    OverlayStands(StringMap(Layered(opts, user, overrides)), StringMap(UnderCattle(required)), path);
  }

  lemma SelectorIsFound(opts: Options, selector: Option<LabelSelector>, user: map<string, Value>,
                        overrides: map<string, Value>, projectID: string, targets: seq<string>)
    ensures var values := Merged(Layered(opts, user, overrides),
                                 RequiredOverrides(opts, selector, projectID, targets));
      SelectorIsSet(opts, selector, projectID, values)
  {
    hide Layered, Merged, RequiredOverrides, Lookup;
    if opts.projectLabel != "" || selector.Some? {
      SelectorKeyStands(opts, selector, user, overrides, projectID, targets, "matchLabels");
      if opts.projectLabel == "" {
        SelectorKeyStands(opts, selector, user, overrides, projectID, targets, "matchExpressions");
      }
    }
  }

  method GetValues(opts: Options, selector: Option<LabelSelector>, user: map<string, Value>,
                   overrides: map<string, Value>, projectID: string, targets: seq<string>)
    returns (values: map<string, Value>)
    ensures values == Merged(Layered(opts, user, overrides), RequiredOverrides(opts, selector, projectID, targets))
    ensures OverridesStand(user, overrides, values)
    ensures UserStands(user, overrides, values)
    ensures DefaultsRemain(opts, user, overrides, values)
    ensures RequiredIsSet(opts, projectID, targets, values)
    ensures SelectorIsSet(opts, selector, projectID, values)
  {
    hide Merged, RequiredOverrides, Defaults, OverridesStand, UserStands, DefaultsRemain, RequiredIsSet, SelectorIsSet;
    values := Defaults(opts);
    values := MergeMaps(values, user, StringMap(user));
    values := MergeMaps(values, overrides, StringMap(overrides));
    var required := RequiredOverrides(opts, selector, projectID, targets);
    values := MergeMaps(values, required, StringMap(required));
    LayersAreSeen(opts, selector, user, overrides, projectID, targets);
    RequiredIsFound(opts, selector, user, overrides, projectID, targets);
    SelectorIsFound(opts, selector, user, overrides, projectID, targets);
  }

  lemma OwnLayersHaveNoGeneric(opts: Options, selector: Option<LabelSelector>, projectID: string, targets: seq<string>)
    ensures NoGeneric(StringMap(Defaults(opts)))
    ensures NoGeneric(StringMap(RequiredOverrides(opts, selector, projectID, targets)))
  {
    UnderCattleHasNoGeneric(
      map["systemDefaultRegistry" := Other(opts.systemDefaultRegistry), "url" := Other(opts.cattleURL)]);
    assert forall k | k in ProjectNamespaceSelector(opts, selector, projectID) ::
      NoGeneric(ProjectNamespaceSelector(opts, selector, projectID)[k]);
    hide ProjectNamespaceSelector;
    UnderCattleHasNoGeneric(RequiredValues(opts, selector, projectID, targets));
  }

  lemma UnderCattleHasNoGeneric(m: map<string, Value>)
    requires forall k | k in m :: NoGeneric(m[k])
    ensures NoGeneric(StringMap(UnderCattle(m)))
  {
    assert NoGeneric(StringMap(m));
    assert NoGeneric(StringMap(map["cattle" := StringMap(m)]));
  }

  /** So the values are merged as the comment says if neither the user's nor the operator's hold a GenericMap
      below the top. */
  lemma LayersAgree(opts: Options, selector: Option<LabelSelector>, user: map<string, Value>,
                    overrides: map<string, Value>, projectID: string, targets: seq<string>)
    requires NoGeneric(StringMap(user)) && NoGeneric(StringMap(overrides))
    ensures var withUser := Merged(Defaults(opts), user);
      && MeansTheSame(StringMap(Defaults(opts)), StringMap(user))
      && MeansTheSame(StringMap(withUser), StringMap(overrides))
      && MeansTheSame(StringMap(Layered(opts, user, overrides)),
                      StringMap(RequiredOverrides(opts, selector, projectID, targets)))
  {
    var defaults, withUser := StringMap(Defaults(opts)), StringMap(Merged(Defaults(opts), user));
    var layered := StringMap(Layered(opts, user, overrides));
    var required := StringMap(RequiredOverrides(opts, selector, projectID, targets));
    OwnLayersHaveNoGeneric(opts, selector, projectID, targets);
    assert withUser == Merge(defaults, StringMap(user)) && layered == Merge(withUser, StringMap(overrides));
    hide Merge, Plain, Agrees, NoGeneric, Merged, Layered, RequiredOverrides;
    NoGenericAgrees(defaults, StringMap(user));
    NoGenericAgrees(withUser, StringMap(overrides));
    NoGenericAgrees(layered, required);
    MeansTheSameIffAgrees(defaults, StringMap(user));
    MeansTheSameIffAgrees(withUser, StringMap(overrides));
    MeansTheSameIffAgrees(layered, required);
  }
}
