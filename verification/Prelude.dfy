/** Types shared by the modules of the model. */
module Prelude {

  datatype Option<+T> = None | Some(value: T)

  /** relatedresource.Key: the namespace and name that identify an object or a Helm release. */
  datatype Key = Key(namespace: string, name: string)

  /** schema.GroupVersionKind. */
  datatype Gvk = Gvk(group: string, version: string, kind: string)

  /** One object of the cluster, as the lock index sees it. */
  datatype Resource = Resource(gvk: Gvk, key: Key)

  /** The value of `objectset.ObjectsByGVK()`: the objects of a manifest, grouped by kind. */
  type Objects = map<Gvk, set<Key>>

  /** ObjectSet groups are created when their first object is added, so none is empty. */
  predicate NonEmptyGroups(objects: Objects) {
    forall g | g in objects :: objects[g] != {}
  }

  function Members(objects: Objects): set<Resource> {
    set g, k | g in objects && k in objects[g] :: Resource(g, k)
  }

  function Elements<T>(xs: seq<T>): set<T> {
    set x | x in xs
  }

  predicate NoDuplicates<T(==)>(xs: seq<T>) {
    forall i, j | 0 <= i < j < |xs| :: xs[i] != xs[j]
  }

  /** The items that an informer has under a key of an index. */
  function ByIndex<T(!new)>(items: seq<T>, indexer: T -> seq<string>, key: string): (found: seq<T>)
    ensures forall x :: x in found <==> x in items && key in indexer(x)
  {
    if items == [] then []
    else
      assert items == items[..|items| - 1] + [items[|items| - 1]];
      ByIndex(items[..|items| - 1], indexer, key)
      + if key in indexer(items[|items| - 1]) then [items[|items| - 1]] else []
  }
}
