/** What the two-level lock index `keyByResourceKeyByGVK` of the object set register means.

    The index maps a kind and a resource to the key of the object set that has locked the resource.
    The functions here are the specification of the in-place code in module ObjectSetRegister; the
    lemmas say that the index is the inverse of a map from each key to the resources it has locked. */
module LockIndex {
  import opened Prelude

  type Index = map<Gvk, map<Key, Key>>

  /** The key that a change to a resource is resolved to, if any. */
  function Resolved(idx: Index, r: Resource): Option<Key> {
    if r.gvk in idx && r.key in idx[r.gvk] then Some(idx[r.gvk][r.key]) else None
  }

  /** The resources that `key` has locked. */
  function Owned(idx: Index, key: Key): set<Resource> {
    set g, k | g in idx && k in idx[g] && idx[g][k] == key :: Resource(g, k)
  }

  predicate NoEmptyInner(idx: Index) {
    forall g | g in idx :: idx[g] != map[]
  }

  /** Some object of the set is already locked by another key. */
  ghost predicate Conflict(idx: Index, key: Key, objects: Objects) {
    exists r | r in Members(objects) :: Resolved(idx, r).Some? && Resolved(idx, r) != Some(key)
  }

  function Others(inner: map<Key, Key>, key: Key): map<Key, Key> {
    map k | k in inner && inner[k] != key :: inner[k]
  }

  /** The index once every entry of `key` is gone; a kind without entries is dropped. */
  function Unlock(idx: Index, key: Key): Index {
    map g | g in idx && Others(idx[g], key) != map[] :: Others(idx[g], key)
  }

  /** Half-way through an inner map: only the entries outside `left` have been looked at. */
  function OthersOutside(inner: map<Key, Key>, key: Key, left: set<Key>): map<Key, Key> {
    map k | k in inner && (k in left || inner[k] != key) :: inner[k]
  }

  /** Half-way through Unlock: the kinds in `left` have not been looked at. */
  function UnlockOutside(idx: Index, key: Key, left: set<Gvk>): Index {
    map g | g in idx && (g in left || Others(idx[g], key) != map[]) :: if g in left then idx[g] else Others(idx[g], key)
  }

  lemma UnlockOutsideStep(idx: Index, key: Key, left: set<Gvk>, g: Gvk)
    requires g in left && g in idx
    ensures var others := Others(idx[g], key);
      UnlockOutside(idx, key, left - {g})
      == if others == map[] then UnlockOutside(idx, key, left) - {g} else UnlockOutside(idx, key, left)[g := others]
  {
  }

  lemma UnlockOutsideEnds(idx: Index, key: Key)
    ensures UnlockOutside(idx, key, idx.Keys) == idx
    ensures UnlockOutside(idx, key, {}) == Unlock(idx, key)
    ensures forall inner: map<Key, Key> :: OthersOutside(inner, key, inner.Keys) == inner
    ensures forall inner: map<Key, Key> :: OthersOutside(inner, key, {}) == Others(inner, key)
  {
  }

  function Inner(idx: Index, g: Gvk): map<Key, Key> {
    if g in idx then idx[g] else map[]
  }

  /** The inner map of a kind after the resources `ks` have been entered for `key`. */
  function Entered(inner: map<Key, Key>, ks: set<Key>, key: Key): map<Key, Key> {
    inner + map k | k in ks :: key
  }

  /** The index after the groups `written` of the object set have been entered for `key`. */
  function Write(idx: Index, key: Key, objects: Objects, written: set<Gvk>): Index {
    map g | g in idx.Keys + written * objects.Keys ::
      if g in written && g in objects then Entered(Inner(idx, g), objects[g], key) else idx[g]
  }

  lemma WriteStep(idx: Index, key: Key, objects: Objects, written: set<Gvk>, g: Gvk)
    requires g in objects && g !in written
    ensures var before := Write(idx, key, objects, written);
      Write(idx, key, objects, written + {g}) == before[g := Entered(Inner(before, g), objects[g], key)]
  {
  }

  lemma EnteredStep(inner: map<Key, Key>, ks: set<Key>, k: Key, key: Key)
    ensures Entered(inner, {}, key) == inner
    ensures Entered(inner, ks + {k}, key) == Entered(inner, ks, key)[k := key]
  {
  }

  lemma WriteNothing(idx: Index, key: Key, objects: Objects)
    ensures Write(idx, key, objects, {}) == idx
  {
  }

  function Restrict(objects: Objects, written: set<Gvk>): Objects {
    map g | g in objects && g in written :: objects[g]
  }

  /** The index after `lock`: refused on a conflict, otherwise the groups `written` replace the entries
      of the key. All groups are written unless the watch of a kind fails. */
  ghost function Lock(idx: Index, key: Key, objects: Objects, written: set<Gvk>): Index {
    if Conflict(idx, key, objects) then idx else Write(Unlock(idx, key), key, objects, written)
  }

  lemma OwnedIsResolved(idx: Index, key: Key, r: Resource)
    ensures r in Owned(idx, key) <==> Resolved(idx, r) == Some(key)
  {
  }

  lemma UnlockResolves(idx: Index, key: Key, r: Resource)
    ensures Resolved(Unlock(idx, key), r) == if Resolved(idx, r) == Some(key) then None else Resolved(idx, r)
  {
    if r.gvk in idx && r.key in idx[r.gvk] && idx[r.gvk][r.key] != key {
      assert r.key in Others(idx[r.gvk], key);
    }
  }

  lemma WriteResolves(idx: Index, key: Key, objects: Objects, written: set<Gvk>, r: Resource)
    ensures Resolved(Write(idx, key, objects, written), r)
         == if r in Members(Restrict(objects, written)) then Some(key) else Resolved(idx, r)
  {
  }

  /** `lock` is exact: refused, it changes nothing; otherwise the key owns precisely what was written,
      so stale entries are gone, and in every case no other key gains or loses a resource. */
  lemma LockIsExact(idx: Index, key: Key, objects: Objects, written: set<Gvk>)
    ensures Conflict(idx, key, objects) ==> Lock(idx, key, objects, written) == idx
    ensures !Conflict(idx, key, objects)
        ==> Owned(Lock(idx, key, objects, written), key) == Members(Restrict(objects, written))
    ensures forall other | other != key :: Owned(Lock(idx, key, objects, written), other) == Owned(idx, other)
  {
    if !Conflict(idx, key, objects) {
      var after := Lock(idx, key, objects, written);
      forall r
        ensures Resolved(after, r) == if r in Members(Restrict(objects, written)) then Some(key)
                                      else if Resolved(idx, r) == Some(key) then None else Resolved(idx, r)
        ensures r in Members(Restrict(objects, written)) ==> r in Members(objects)
      {
        UnlockResolves(idx, key, r);
        WriteResolves(Unlock(idx, key), key, objects, written, r);
      }
      forall k, r ensures r in Owned(after, k) <==> Resolved(after, r) == Some(k) {
        OwnedIsResolved(after, k, r);
      }
      forall k, r ensures r in Owned(idx, k) <==> Resolved(idx, r) == Some(k) {
        OwnedIsResolved(idx, k, r);
      }
      assert Owned(after, key) == Members(Restrict(objects, written));
      forall other | other != key ensures Owned(after, other) == Owned(idx, other) {
        forall r ensures r in Owned(after, other) <==> r in Owned(idx, other) {
          assert r in Owned(after, other) <==> Resolved(after, r) == Some(other);
          assert r in Owned(idx, other) <==> Resolved(idx, r) == Some(other);
        }
      }
    }
  }

  /** Only the kinds that were written are new to the index. */
  lemma LockAddsWritten(idx: Index, key: Key, objects: Objects, written: set<Gvk>)
    ensures Lock(idx, key, objects, written).Keys <= idx.Keys + written
  {
  }

  lemma UnlockIsExact(idx: Index, key: Key)
    ensures Owned(Unlock(idx, key), key) == {}
    ensures forall other | other != key :: Owned(Unlock(idx, key), other) == Owned(idx, other)
  {
    var after := Unlock(idx, key);
    forall r ensures r !in Owned(after, key) {
      UnlockResolves(idx, key, r);
      OwnedIsResolved(after, key, r);
    }
    forall other | other != key ensures Owned(after, other) == Owned(idx, other) {
      forall r ensures r in Owned(after, other) <==> r in Owned(idx, other) {
        UnlockResolves(idx, key, r);
        OwnedIsResolved(after, other, r);
        OwnedIsResolved(idx, other, r);
      }
    }
  }

  /** Dropping its own entries neither causes nor resolves a conflict for a key. */
  lemma UnlockKeepsConflict(idx: Index, key: Key, objects: Objects)
    ensures Conflict(Unlock(idx, key), key, objects) <==> Conflict(idx, key, objects)
  {
    forall r ensures (Resolved(Unlock(idx, key), r).Some? && Resolved(Unlock(idx, key), r) != Some(key))
                <==> (Resolved(idx, r).Some? && Resolved(idx, r) != Some(key))
    {
      UnlockResolves(idx, key, r);
    }
  }

  /** A conflict depends on what the other keys own only. */
  lemma ConflictDependsOnOthers(before: Index, after: Index, key: Key, objects: Objects)
    requires forall other | other != key :: Owned(after, other) == Owned(before, other)
    ensures Conflict(after, key, objects) <==> Conflict(before, key, objects)
  {
    forall r, other | other != key ensures Resolved(after, r) == Some(other) <==> Resolved(before, r) == Some(other) {
      OwnedIsResolved(after, other, r);
      OwnedIsResolved(before, other, r);
    }
  }

  // ---------------------------------------------------------------- every run of the index

  /** A critical section under keyMapLock. Resolve only reads, so it is not listed. */
  datatype Op = LockOp(key: Key, objects: Objects, written: set<Gvk>) | UnlockOp(key: Key)

  ghost function Apply(idx: Index, op: Op): Index {
    match op
    case LockOp(key, objects, written) => Lock(idx, key, objects, written)
    case UnlockOp(key) => Unlock(idx, key)
  }

  ghost function Run(idx: Index, ops: seq<Op>): Index
    decreases |ops|
  {
    if ops == [] then idx else Run(Apply(idx, ops[0]), ops[1..])
  }

  /** The simple form: which resources each key holds. */
  type Forward = map<Key, set<Resource>>

  function Held(f: Forward, key: Key): set<Resource> {
    if key in f then f[key] else {}
  }

  ghost function ApplyForward(f: Forward, op: Op): Forward {
    match op
    case LockOp(key, objects, written) =>
      if exists other :: other != key && Held(f, other) * Members(objects) != {} then f
      else f[key := Members(Restrict(objects, written))]
    case UnlockOp(key) => f[key := {}]
  }

  ghost function RunForward(f: Forward, ops: seq<Op>): Forward
    decreases |ops|
  {
    if ops == [] then f else RunForward(ApplyForward(f, ops[0]), ops[1..])
  }

  /** The index and the forward map say the same thing. */
  ghost predicate Inverse(idx: Index, f: Forward) {
    forall key :: Owned(idx, key) == Held(f, key)
  }

  predicate GroupsNonEmpty(op: Op) {
    op.LockOp? ==> NonEmptyGroups(op.objects)
  }

  lemma ConflictIsOverlap(idx: Index, f: Forward, key: Key, objects: Objects)
    requires Inverse(idx, f)
    ensures Conflict(idx, key, objects) <==> exists other :: other != key && Held(f, other) * Members(objects) != {}
  {
    if Conflict(idx, key, objects) {
      var r :| r in Members(objects) && Resolved(idx, r).Some? && Resolved(idx, r) != Some(key);
      var other := Resolved(idx, r).value;
      OwnedIsResolved(idx, other, r);
      assert r in Held(f, other) * Members(objects);
    }
    if other :| other != key && Held(f, other) * Members(objects) != {} {
      var r :| r in Held(f, other) * Members(objects);
      assert r in Owned(idx, other);
      OwnedIsResolved(idx, other, r);
    }
  }

  lemma ApplyKeepsInverse(idx: Index, f: Forward, op: Op)
    requires Inverse(idx, f)
    ensures Inverse(Apply(idx, op), ApplyForward(f, op))
  {
    match op
    case LockOp(key, objects, written) =>
      ConflictIsOverlap(idx, f, key, objects);
      LockIsExact(idx, key, objects, written);
    case UnlockOp(key) =>
      UnlockIsExact(idx, key);
  }

  lemma ApplyKeepsInnerNonEmpty(idx: Index, op: Op)
    requires NoEmptyInner(idx) && GroupsNonEmpty(op)
    ensures NoEmptyInner(Apply(idx, op))
  {
    if op.LockOp? && !Conflict(idx, op.key, op.objects) {
      var after := Apply(idx, op);
      forall g | g in after ensures after[g] != map[] {
        if g in op.written && g in op.objects {
          var k :| k in op.objects[g];
          assert k in after[g];
        }
      }
    }
  }

  /** In every run the index is exactly the inverse of the forward map. */
  lemma {:induction false} RunIsInverse(idx: Index, f: Forward, ops: seq<Op>)
    requires Inverse(idx, f)
    ensures Inverse(Run(idx, ops), RunForward(f, ops))
    decreases |ops|
  {
    if ops == [] {
    } else {
      ApplyKeepsInverse(idx, f, ops[0]);
      RunIsInverse(Apply(idx, ops[0]), ApplyForward(f, ops[0]), ops[1..]);
    }
  }

  lemma {:induction false} RunKeepsInnerNonEmpty(idx: Index, ops: seq<Op>)
    requires NoEmptyInner(idx)
    requires forall i | 0 <= i < |ops| :: GroupsNonEmpty(ops[i])
    ensures NoEmptyInner(Run(idx, ops))
    decreases |ops|
  {
    if ops == [] {
    } else {
      assert GroupsNonEmpty(ops[0]);
      ApplyKeepsInnerNonEmpty(idx, ops[0]);
      RunKeepsInnerNonEmpty(Apply(idx, ops[0]), ops[1..]);
    }
  }

  /** Locks are exclusive: from the empty index, in every run, two keys never hold one resource. */
  lemma RunIsExclusive(ops: seq<Op>, a: Key, b: Key)
    requires a != b
    ensures Held(RunForward(map[], ops), a) !! Held(RunForward(map[], ops), b)
  {
    RunIsInverse(map[], map[], ops);
    var idx, f := Run(map[], ops), RunForward(map[], ops);
    forall r | r in Held(f, a) && r in Held(f, b) ensures false {
      assert r in Owned(idx, a) && r in Owned(idx, b);
      OwnedIsResolved(idx, a, r);
      OwnedIsResolved(idx, b, r);
    }
  }

  /** One more operation at the end of a run. */
  lemma {:induction false} RunAppend(idx: Index, ops: seq<Op>, op: Op)
    ensures Run(idx, ops + [op]) == Apply(Run(idx, ops), op)
    decreases |ops|
  {
    if ops == [] {
      assert Run(idx, [op]) == Run(Apply(idx, op), [op][1..]);
    } else {
      RunAppend(Apply(idx, ops[0]), ops[1..], op);
      assert (ops + [op])[1..] == ops[1..] + [op];
    }
  }

  /** The operations that concern other keys leave what a key holds alone. */
  lemma {:induction false} RunKeepsBystander(f: Forward, ops: seq<Op>, key: Key)
    requires forall i | 0 <= i < |ops| :: ops[i].key != key
    ensures Held(RunForward(f, ops), key) == Held(f, key)
    decreases |ops|
  {
    if ops == [] {
    } else {
      assert ops[0].key != key;
      RunKeepsBystander(ApplyForward(f, ops[0]), ops[1..], key);
    }
  }
}
