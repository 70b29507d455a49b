/** The register of object sets, with its maps updated in place.

    Calls do not overlap here; LockProtocol has the interleavings. The states are heap objects because
    the register hands them out: deleteState changes an object that earlier events still refer to. */
module ObjectSetRegister {
  import opened Prelude
  import opened EventLog
  import opened GvkWatcher
  import LockIndex

  class ObjectSet {
    const groups: Objects

    constructor (groups: Objects)
      ensures this.groups == groups
    {
      this.groups := groups;
    }
  }

  /** sync.RWMutex, of which only the identity matters here. */
  class Mutex {
    constructor () {}
  }

  class ObjectSetState {
    const key: Key
    const mutateMu: Mutex
    var generation: nat
    var resourceVersion: string
    var objectSet: ObjectSet?
    var locked: bool

    /** newObjectSetState. */
    constructor (key: Key)
      ensures this.key == key && generation == 0 && resourceVersion == Decimal(0)
      ensures objectSet == null && !locked && fresh(mutateMu)
    {
      this.key := key;
      generation, resourceVersion := 0, "0";
      objectSet, locked := null, false;
      mutateMu := new Mutex();
    }

    predicate SameAs(other: ObjectSetState)
      reads this, other
    {
      && key == other.key && mutateMu == other.mutateMu
      && generation == other.generation && resourceVersion == other.resourceVersion
      && objectSet == other.objectSet && locked == other.locked
    }

    /** DeepCopy: the object set and the mutex are shared with the original. */
    constructor Copy(original: ObjectSetState)
      ensures SameAs(original)
    {
      key, mutateMu := original.key, original.mutateMu;
      generation, resourceVersion := original.generation, original.resourceVersion;
      objectSet, locked := original.objectSet, original.locked;
    }
  }

  datatype Event = Event(kind: EventType, state: ObjectSetState)

  /** What an informer holds after the events, each applied to its store. */
  function Replay(events: seq<Event>): map<Key, ObjectSetState> {
    if events == [] then map[]
    else
      var store, last := Replay(events[..|events| - 1]), events[|events| - 1];
      if last.kind == Deleted then store - {last.state.key} else store[last.state.key := last.state]
  }

  lemma ReplayAppend(events: seq<Event>, e: Event)
    ensures Replay(events + [e])
         == if e.kind == Deleted then Replay(events) - {e.state.key} else Replay(events)[e.state.key := e.state]
  {
  }

  datatype LockResult = Locked | AlreadyAssociated | WatchFailed

  class Register {
    var stateByKey: map<Key, ObjectSetState>
    var index: LockIndex.Index
    var stateChanges: seq<Event>
    const gvkWatcher: Watcher

    /** The entries of stateChanges as they were sent. */
    ghost var log: seq<Entry>

    /** Every state that was ever sent. */
    ghost var Repr: set<ObjectSetState>

    ghost predicate Valid()
      reads this, Repr`generation, Repr`resourceVersion
    {
      LogOk() && MapOk()
    }

    /** The log says what the events said when they were sent, and each came in its turn. */
    ghost predicate LogOk()
      reads this`log, this`stateChanges, this`Repr, Repr`generation, Repr`resourceVersion
    {
      && |log| == |stateChanges|
      && (forall i | 0 <= i < |log| ::
            var state := stateChanges[i].state;
            state in Repr && log[i] == Entry(stateChanges[i].kind, state.key, state.generation, state.resourceVersion))
      && Legal(log)
    }

    /** The states are what replaying the events yields, each at the generation where the log left it. */
    ghost predicate MapOk()
      reads this, Repr`generation, Repr`resourceVersion
    {
      && stateByKey == Replay(stateChanges)
      && (forall k | k in stateByKey ::
            var s := stateByKey[k];
            s in Repr && s.key == k && s.resourceVersion == Decimal(s.generation))
      && (forall k :: Live(log, k) == if k in stateByKey then Some(stateByKey[k].generation) else None)
    }

    /** Of every state that was ever sent, also of those emptied since. */
    ghost predicate LockedIffSet()
      reads this`Repr, Repr
    {
      forall s | s in Repr :: s.locked <==> s.objectSet != null
    }

    /** Every kind of the index is registered with the watcher. */
    ghost predicate IndexIsWatched()
      reads this`index, gvkWatcher
    {
      index.Keys <= gvkWatcher.gvkRegistered
    }

    constructor (gvkWatcher: Watcher)
      ensures Valid() && LockedIffSet() && stateByKey == map[] && index == map[] && stateChanges == []
      ensures this.gvkWatcher == gvkWatcher
    {
      stateByKey, index, stateChanges := map[], map[], [];
      this.gvkWatcher := gvkWatcher;
      log, Repr := [], {};
    }

    // -------------------------------------------------------------- the lock index

    method CanLock(key: Key, objects: Objects) returns (ok: bool)
      ensures ok <==> !LockIndex.Conflict(index, key, objects)
    {
      var todo := objects.Keys;
      while todo != {}
        invariant todo <= objects.Keys
        invariant forall r | r in Members(objects) && r.gvk !in todo ::
          LockIndex.Resolved(index, r).Some? ==> LockIndex.Resolved(index, r) == Some(key)
      {
        var g :| g in todo;
        if g in index {
          var left := objects[g];
          while left != {}
            invariant left <= objects[g]
            invariant forall k | k in objects[g] && k !in left :: k in index[g] ==> index[g][k] == key
          {
            var k :| k in left;
            if k in index[g] && index[g][k] != key {
              assert Resource(g, k) in Members(objects);
              return false;
            }
            left := left - {k};
          }
        }
        todo := todo - {g};
      }
      return true;
    }

    method RemoveAllEntries(key: Key)
      modifies this`index
      ensures index == LockIndex.Unlock(old(index), key)
    {
      ghost var before := index;
      LockIndex.UnlockOutsideEnds(before, key);
      hide LockIndex.UnlockOutside, LockIndex.Unlock;
      var todo := index.Keys;
      while todo != {}
        invariant todo <= before.Keys
        invariant forall g | g in todo :: g in index && index[g] == before[g]
        invariant index == LockIndex.UnlockOutside(before, key, todo)
      {
        var g :| g in todo;
        var inner := index[g];
        var left := inner.Keys;
        while left != {}
          invariant left <= before[g].Keys
          invariant inner == LockIndex.OthersOutside(before[g], key, left)
        {
          var k :| k in left;
          if inner[k] == key {
            inner := inner - {k};
          }
          left := left - {k};
        }
        LockIndex.UnlockOutsideStep(before, key, todo, g);
        index := if |inner| == 0 then index - {g} else index[g := inner];
        todo := todo - {g};
      }
    }

    /** lock: `answers` is what starting the watch of a kind would give in this call. */
    method LockObjects(key: Key, objects: Objects, answers: Gvk -> Answer)
      returns (result: LockResult, written: set<Gvk>)
      modifies this`index, gvkWatcher
      ensures index == LockIndex.Lock(old(index), key, objects, written)
      ensures result == AlreadyAssociated <==> LockIndex.Conflict(old(index), key, objects)
      ensures result == Locked ==> written == objects.Keys
      ensures result == WatchFailed ==> written <= objects.Keys && exists g | g in written :: answers(g) != Starts
      ensures result == AlreadyAssociated ==> written == {}
      ensures result != AlreadyAssociated ==> written <= gvkWatcher.gvkRegistered
      ensures old(gvkWatcher.gvkRegistered) <= gvkWatcher.gvkRegistered
    {
      written := {};
      var ok := CanLock(key, objects);
      if !ok {
        return AlreadyAssociated, written;
      }
      RemoveAllEntries(key);
      ghost var cleared := index;
      LockIndex.WriteNothing(cleared, key, objects);
      hide LockIndex.Write, LockIndex.Unlock, LockIndex.Conflict, LockIndex.Entered, AfterWatch, Begin;
      var todo := objects.Keys;
      while todo != {}
        invariant todo !! written && todo + written == objects.Keys
        invariant index == LockIndex.Write(cleared, key, objects, written)
        invariant written <= gvkWatcher.gvkRegistered
        invariant old(gvkWatcher.gvkRegistered) <= gvkWatcher.gvkRegistered
      {
        var g :| g in todo;
        var inner := if g in index then index[g] else map[];
        var left := objects[g];
        ghost var first, done := inner, {};
        LockIndex.EnteredStep(first, {}, key, key);
        while left != {}
          invariant left !! done && left + done == objects[g]
          invariant inner == LockIndex.Entered(first, done, key)
          modifies {}
        {
          var k :| k in left;
          LockIndex.EnteredStep(first, done, k, key);
          inner := inner[k := key];
          left, done := left - {k}, done + {k};
        }
        assert done == objects[g];
        LockIndex.WriteStep(cleared, key, objects, written, g);
        index := index[g := inner];
        todo, written := todo - {g}, written + {g};
        var started := gvkWatcher.Watch(g, answers(g));
        if !started {
          return WatchFailed, written;
        }
      }
      return Locked, written;
    }

    method Unlock(key: Key)
      modifies this`index
      ensures index == LockIndex.Unlock(old(index), key)
      ensures old(Valid()) ==> Valid()
      ensures old(IndexIsWatched()) ==> IndexIsWatched()
    {
      RemoveAllEntries(key);
    }

    /** Resolve: the keys to enqueue when an object of the cluster changes. */
    method Resolve(gvk: Gvk, namespace: string, name: string) returns (keys: seq<Key>)
      ensures keys == match LockIndex.Resolved(index, Resource(gvk, Key(namespace, name)))
                      case Some(key) => [key]
                      case None => []
    {
      var resourceKey := Key(namespace, name);
      if gvk !in index {
        return [];
      }
      var keyByResourceKey := index[gvk];
      if resourceKey !in keyByResourceKey {
        return [];
      }
      return [keyByResourceKey[resourceKey]];
    }

    // -------------------------------------------------------------- the public operations

    ghost function Value(): Registered
      reads this, stateByKey.Values
    {
      Registered(States(), index)
    }

    method Set(key: Key, os: ObjectSet?, locked: Option<bool>)
      requires Valid()
      modifies this`stateByKey, this`stateChanges, this`log, this`Repr
      ensures Valid()
      ensures Value() == Registered(AfterSet(old(States()), key, os, locked), old(index))
      ensures Override(old(States()), States(), key, os, locked)
      ensures key in stateByKey
      ensures stateChanges == old(stateChanges)
        + if Repeats(old(States()), key, os, locked) then []
          else [Event(if key in old(stateByKey) then Modified else Added, stateByKey[key])]
      ensures old(LockedIffSet()) && SetsAndLocks(os, locked) ==> LockedIffSet()
    {
      hide Live, Legal, Replay;
      assert key in stateByKey ==> stateByKey[key] in Repr;
      hide Valid;
      SetState(key, os, locked, false);
      assert StateOf(key) == AfterSet(old(States()), key, os, locked)[key];
      OverridesAndRepeats(old(States()), key, os, locked);
    }

    /** Wakes the handler of the key: an event is sent even though nothing changes. */
    method Enqueue(key: Key)
      requires Valid()
      modifies this`stateByKey, this`stateChanges, this`log, this`Repr
      ensures Valid()
      ensures Value() == Registered(AfterSet(old(States()), key, null, None), old(index))
      ensures Override(old(States()), States(), key, null, None)
      ensures key in stateByKey && fresh(stateByKey[key])
      ensures stateChanges
           == old(stateChanges) + [Event(if key in old(stateByKey) then Modified else Added, stateByKey[key])]
      ensures old(LockedIffSet()) ==> LockedIffSet()
    {
      hide Live, Legal, Replay;
      assert key in stateByKey ==> stateByKey[key] in Repr;
      hide Valid;
      SetState(key, null, None, true);
      assert StateOf(key) == AfterSet(old(States()), key, null, None)[key];
      OverridesAndRepeats(old(States()), key, null, None);
    }

    /** Lock: any error of LockObjects is dropped. */
    method Lock(key: Key, answers: Gvk -> Answer) returns (written: set<Gvk>)
      modifies this`index, gvkWatcher
      ensures old(Valid()) ==> Valid()
      ensures old(IndexIsWatched()) ==> IndexIsWatched()
      ensures key in stateByKey && stateByKey[key].objectSet != null ==>
        written <= stateByKey[key].objectSet.groups.Keys
      ensures (forall g :: answers(g) == Starts) ==> Complete(old(Value()), key, written)
      ensures Value() == AfterLock(old(Value()), key, written)
    {
      hide LockIndex.Unlock, LockIndex.Lock, LockIndex.Conflict;
      written := {};
      if key !in stateByKey {
        return;
      }
      var s := stateByKey[key];
      if s.objectSet == null {
        return;
      }
      ghost var before := index;
      var _, entered := LockObjects(key, s.objectSet.groups, answers);
      LockIndex.LockAddsWritten(before, key, s.objectSet.groups, entered);
      written := entered;
    }

    /** Delete: drops the state, then lets the handler clean up. */
    method Delete(key: Key, purge: bool, applier: Applier, applyOk: bool)
      requires Valid()
      modifies this`stateByKey, this`stateChanges, this`log, this`Repr, this`index, applier
      modifies (if key in stateByKey then {stateByKey[key]} else {})`objectSet
      modifies (if key in stateByKey then {stateByKey[key]} else {})`locked
      ensures Valid()
      ensures Value() == AfterDelete(old(Value()), key)
      ensures applier.calls == old(applier.calls) + if purge then [ApplyNothing(key)] else []
      ensures old(LockedIffSet()) ==> LockedIffSet()
    {
      hide Valid, States, LockedIffSet, LockIndex.Unlock;
      DeleteState(key);
      OnRemove(this, applier, key, purge, applyOk);
    }

    /** List: copies of the stored states, which is what an informer holds after the events. */
    method List() returns (items: seq<ObjectSetState>)
      requires Valid()
      ensures forall i | 0 <= i < |items| ::
        && fresh(items[i]) && items[i].key in Replay(stateChanges)
        && var s := Replay(stateChanges)[items[i].key];
           items[i].SameAs(s)
      ensures forall i, j | 0 <= i < j < |items| :: items[i].key != items[j].key
      ensures |items| == |Replay(stateChanges)|
    {
      hide Live, Legal, Replay;
      assert forall k | k in stateByKey :: stateByKey[k].key == k;
      hide Valid;
      items := [];
      var todo := stateByKey.Keys;
      while todo != {}
        invariant todo <= stateByKey.Keys && |items| + |todo| == |stateByKey|
        invariant forall i | 0 <= i < |items| :: fresh(items[i]) && items[i].key in stateByKey.Keys - todo
        invariant forall i | 0 <= i < |items| :: items[i].SameAs(stateByKey[items[i].key])
        invariant forall i, j | 0 <= i < j < |items| :: items[i].key != items[j].key
        modifies {}
      {
        var k :| k in todo;
        var item := new ObjectSetState.Copy(stateByKey[k]);
        items := items + [item];
        todo := todo - {k};
      }
    }

    // -------------------------------------------------------------- the states

    function StateOf(key: Key): Desired
      requires key in stateByKey
      reads this`stateByKey, stateByKey[key]
    {
      Desired(stateByKey[key].objectSet, stateByKey[key].locked)
    }

    /** The desired state of every key. */
    ghost function States(): (states: map<Key, Desired>)
      reads this`stateByKey, stateByKey.Values
      ensures states.Keys == stateByKey.Keys
      ensures forall k | k in states :: states[k] == StateOf(k)
    {
      map k | k in stateByKey :: StateOf(k)
    }

    twostate lemma StoredStates(key: Key, new s: ObjectSetState)
      requires stateByKey == old(stateByKey)[key := s]
      requires forall k | k in old(stateByKey) && k != key :: StateOf(k) == old(StateOf(k))
      ensures States() == old(States())[key := Desired(s.objectSet, s.locked)]
    {
    }

    twostate lemma DroppedStates(key: Key)
      requires stateByKey == old(stateByKey) - {key}
      requires forall k | k in old(stateByKey) && k != key :: StateOf(k) == old(StateOf(k))
      ensures States() == old(States()) - {key}
    {
    }

    /** The state that setState is about to store: null and None keep what is stored. */
    method NextState(key: Key, os: ObjectSet?, locked: Option<bool>) returns (s: ObjectSetState)
      requires key in stateByKey ==> stateByKey[key].key == key
      ensures fresh(s) && s.key == key && s.resourceVersion == Decimal(s.generation)
      ensures s.generation == if key in stateByKey then stateByKey[key].generation + 1 else 0
      ensures key in stateByKey ==> s.mutateMu == stateByKey[key].mutateMu
      ensures Desired(s.objectSet, s.locked)
           == Wanted(if key in stateByKey then StateOf(key) else NOTHING_DESIRED, os, locked)
    {
      if key !in stateByKey {
        s := new ObjectSetState(key);
      } else {
        s := new ObjectSetState.Copy(stateByKey[key]);
        s.generation := s.generation + 1;
        s.resourceVersion := Decimal(s.generation);
      }
      if os != null {
        s.objectSet := os;
      }
      if locked.Some? {
        s.locked := locked.value;
      }
    }

    method SetState(key: Key, os: ObjectSet?, locked: Option<bool>, forceEnqueue: bool)
      requires Valid()
      modifies this`stateByKey, this`stateChanges, this`log, this`Repr
      ensures Valid()
      ensures States() == AfterSet(old(States()), key, os, locked)
      ensures if Changes(old(States()), key, os, locked, forceEnqueue)
              then && key in stateByKey && fresh(stateByKey[key])
                   && stateByKey == old(stateByKey)[key := stateByKey[key]]
                   && stateChanges == old(stateChanges)
                        + [Event(if key in old(stateByKey) then Modified else Added, stateByKey[key])]
                   && Repr == old(Repr) + {stateByKey[key]}
                   && (key in old(stateByKey) ==> stateByKey[key].mutateMu == old(stateByKey[key].mutateMu))
              else unchanged(this)
    {
      hide Live, Legal, Replay, Wanted, States;
      var s := NextState(key, os, locked);
      var modifying := key in stateByKey;
      var objectChanged := forceEnqueue || !modifying;
      if modifying {
        var original := stateByKey[key];
        objectChanged := objectChanged || s.objectSet != original.objectSet || s.locked != original.locked;
      }
      if !objectChanged {
        assert States() == old(States());
        return;
      }
      Store(if modifying then Modified else Added, s);
      StoredStates(key, s);
    }

    /** Sends an event. */
    method Announce(kind: EventType, s: ObjectSetState)
      requires LogOk() && Follows(Live(log, s.key), Entry(kind, s.key, s.generation, s.resourceVersion))
      modifies this`stateChanges, this`log, this`Repr
      ensures LogOk()
      ensures stateChanges == old(stateChanges) + [Event(kind, s)]
      ensures log == old(log) + [Entry(kind, s.key, s.generation, s.resourceVersion)]
      ensures Repr == old(Repr) + {s}
    {
      LegalAppend(log, Entry(kind, s.key, s.generation, s.resourceVersion));
      hide Live, Legal, Follows, Decimal;
      stateChanges := stateChanges + [Event(kind, s)];
      log := log + [Entry(kind, s.key, s.generation, s.resourceVersion)];
      Repr := Repr + {s};
    }

    /** Sends the event and keeps the state; setState does both under stateMapLock. */
    method Store(kind: EventType, s: ObjectSetState)
      requires Valid() && kind != Deleted
      requires Follows(Live(log, s.key), Entry(kind, s.key, s.generation, s.resourceVersion))
      modifies this`stateByKey, this`stateChanges, this`log, this`Repr
      ensures Valid()
      ensures stateByKey == old(stateByKey)[s.key := s]
      ensures stateChanges == old(stateChanges) + [Event(kind, s)]
      ensures Repr == old(Repr) + {s}
    {
      LegalAppend(log, Entry(kind, s.key, s.generation, s.resourceVersion));
      ReplayAppend(stateChanges, Event(kind, s));
      hide Live, Legal, Replay, LogOk, Follows, Decimal;
      Announce(kind, s);
      stateByKey := stateByKey[s.key := s];
    }

    /** deleteState: the state object is emptied, also for the events that already carry it. */
    method DeleteState(key: Key)
      requires Valid()
      modifies this`stateByKey, this`stateChanges, this`log, this`Repr
      modifies (if key in stateByKey then {stateByKey[key]} else {})`objectSet
      modifies (if key in stateByKey then {stateByKey[key]} else {})`locked
      ensures Valid()
      ensures key !in old(stateByKey) ==> unchanged(this)
      ensures key in old(stateByKey) ==>
        var s := old(stateByKey[key]);
        && stateByKey == old(stateByKey) - {key}
        && stateChanges == old(stateChanges) + [Event(Deleted, s)]
        && s.objectSet == null && !s.locked
      ensures Repr == old(Repr)
      ensures old(LockedIffSet()) ==> LockedIffSet()
      ensures States() == old(States()) - {key}
    {
      if key !in stateByKey {
        return;
      }
      hide Live, Legal, Replay, States;
      var s := stateByKey[key];
      assert s.key == key;
      hide Valid;
      Drop(s);
      DroppedStates(key);
    }

    /** The order of deleteState: out of the map, emptied, announced. */
    method Drop(s: ObjectSetState)
      requires Valid() && s.key in stateByKey && stateByKey[s.key] == s
      modifies this`stateByKey, this`stateChanges, this`log, this`Repr, s`objectSet, s`locked
      ensures Valid() && Repr == old(Repr) && s.objectSet == null && !s.locked
      ensures stateByKey == old(stateByKey) - {s.key} && forall k | k in stateByKey :: stateByKey[k] != s
      ensures stateChanges == old(stateChanges) + [Event(Deleted, s)]
    {
      DropFollows(s);
      hide MapOk, LogOk, Follows;
      stateByKey := stateByKey - {s.key};
      s.objectSet := null;
      s.locked := false;
      Announce(Deleted, s);
      DroppedIsOk(s);
    }

    lemma DropFollows(s: ObjectSetState)
      requires MapOk() && s.key in stateByKey && stateByKey[s.key] == s
      ensures Follows(Live(log, s.key), Entry(Deleted, s.key, s.generation, s.resourceVersion)) && s in Repr
    {
    }

    twostate lemma DroppedIsOk(s: ObjectSetState)
      requires old(Valid()) && s.key in old(stateByKey) && old(stateByKey)[s.key] == s
      requires stateByKey == old(stateByKey) - {s.key} && Repr == old(Repr) + {s}
      requires stateChanges == old(stateChanges) + [Event(Deleted, s)]
      requires log == old(log) + [Entry(Deleted, s.key, s.generation, s.resourceVersion)]
      requires forall o | o in Repr :: o.generation == old(o.generation) && o.resourceVersion == old(o.resourceVersion)
      ensures MapOk() && Repr == old(Repr) && forall k | k in stateByKey :: stateByKey[k] != s
    {
      LegalAppend(old(log), Entry(Deleted, s.key, s.generation, s.resourceVersion));
      ReplayAppend(old(stateChanges), Event(Deleted, s));
      hide Live, Legal, Replay, Follows, Decimal;
    }
  }

  /** What the register wants for a key. */
  datatype Desired = Desired(objectSet: ObjectSet?, locked: bool)

  const NOTHING_DESIRED := Desired(null, false)

  function Wanted(before: Desired, os: ObjectSet?, locked: Option<bool>): Desired {
    Desired(if os != null then os else before.objectSet, if locked.Some? then locked.value else before.locked)
  }

  function AfterSet(states: map<Key, Desired>, key: Key, os: ObjectSet?, locked: Option<bool>): map<Key, Desired> {
    states[key := Wanted(if key in states then states[key] else NOTHING_DESIRED, os, locked)]
  }

  /** What is given replaces what was wanted for the key, and what is not given stays; a new key wants nothing
      and is not locked. */
  ghost predicate Override(before: map<Key, Desired>, after: map<Key, Desired>, key: Key, os: ObjectSet?,
                           locked: Option<bool>) {
    && key in after && after - {key} == before - {key}
    && (os != null ==> after[key].objectSet == os)
    && (os == null ==> after[key].objectSet == if key in before then before[key].objectSet else null)
    && (locked.Some? ==> after[key].locked == locked.value)
    && (locked.None? ==> (after[key].locked <==> key in before && before[key].locked))
  }

  /** Nothing is given that is not wanted already. */
  predicate Repeats(before: map<Key, Desired>, key: Key, os: ObjectSet?, locked: Option<bool>) {
    key in before && os in {null, before[key].objectSet} && locked in {None, Some(before[key].locked)}
  }

  lemma OverridesAndRepeats(before: map<Key, Desired>, key: Key, os: ObjectSet?, locked: Option<bool>)
    ensures Override(before, AfterSet(before, key, os, locked), key, os, locked)
    ensures Repeats(before, key, os, locked) <==> !Changes(before, key, os, locked, false)
  {
  }

  /** Both or neither: how the release controller and the watcher call Set and Enqueue. */
  predicate SetsAndLocks(os: ObjectSet?, locked: Option<bool>) {
    if os == null then locked == None else locked == Some(true)
  }

  /** Whether setState stores and sends a new state. */
  predicate Changes(states: map<Key, Desired>, key: Key, os: ObjectSet?, locked: Option<bool>, forceEnqueue: bool) {
    forceEnqueue || key !in states || AfterSet(states, key, os, locked)[key] != states[key]
  }

  /** The register as a value. */
  datatype Registered = Registered(states: map<Key, Desired>, idx: LockIndex.Index)

  ghost function AfterLock(r: Registered, key: Key, written: set<Gvk>): Registered {
    if key in r.states && r.states[key].objectSet != null then
      r.(idx := LockIndex.Lock(r.idx, key, r.states[key].objectSet.groups, written))
    else r
  }

  /** Nothing kept the key from entering all kinds of its object set. */
  ghost predicate Complete(r: Registered, key: Key, written: set<Gvk>) {
    key in r.states && r.states[key].objectSet != null
    && !LockIndex.Conflict(r.idx, key, r.states[key].objectSet.groups)
    ==> written == r.states[key].objectSet.groups.Keys
  }

  lemma UnlockKeepsComplete(r: Registered, key: Key, written: set<Gvk>)
    ensures Complete(AfterUnlock(r, key), key, written) <==> Complete(r, key, written)
  {
    if key in r.states && r.states[key].objectSet != null {
      LockIndex.UnlockKeepsConflict(r.idx, key, r.states[key].objectSet.groups);
    }
  }

  function AfterUnlock(r: Registered, key: Key): Registered {
    r.(idx := LockIndex.Unlock(r.idx, key))
  }

  function AfterDelete(r: Registered, key: Key): Registered {
    Registered(r.states - {key}, LockIndex.Unlock(r.idx, key))
  }

  /** The register after OnChange has handled a state of `key`; the Lock it defers looks up the state
      that is current by then. */
  ghost function AfterChange(r: Registered, key: Key, locked: bool, written: set<Gvk>): Registered {
    if locked then AfterLock(AfterUnlock(r, key), key, written) else AfterUnlock(r, key)
  }

  // ---------------------------------------------------------------- the handler

  datatype ApplyCall = ApplySet(owner: Key, desired: ObjectSet?) | ApplyNothing(owner: Key)

  /** wrangler's apply, which may fail. */
  class Applier {
    var calls: seq<ApplyCall>

    constructor ()
      ensures calls == []
    {
      calls := [];
    }

    method Apply(call: ApplyCall, succeeds: bool) returns (ok: bool)
      modifies this
      ensures calls == old(calls) + [call] && ok == succeeds
    {
      calls := calls + [call];
      return succeeds;
    }
  }

  /** OnChange: unlock, apply, and lock again whether or not the apply has succeeded. */
  method OnChange(locker: Register, applier: Applier, key: Key, oss: ObjectSetState?, applyOk: bool,
                  answers: Gvk -> Answer)
    returns (ok: bool, written: set<Gvk>)
    requires locker.gvkWatcher as object != applier
    modifies locker`index, locker.gvkWatcher, applier
    ensures old(locker.Valid()) ==> locker.Valid()
    ensures old(locker.IndexIsWatched()) ==> locker.IndexIsWatched()
    ensures oss == null ==> ok && locker.Value() == old(locker.Value()) && applier.calls == old(applier.calls)
    ensures oss != null ==> locker.Value() == AfterChange(old(locker.Value()), key, oss.locked, written)
    ensures oss != null ==> ok == (oss.locked ==> applyOk)
    ensures oss != null ==>
      applier.calls == old(applier.calls) + if oss.locked then [ApplySet(key, oss.objectSet)] else []
    ensures old(locker.LockedIffSet()) && oss in locker.Repr ==>
      locker.LockedIffSet() && ApplySet(key, null) !in applier.calls[|old(applier.calls)|..]
    ensures oss != null && oss.locked && (forall g :: answers(g) == Starts) ==>
      Complete(old(locker.Value()), key, written)
  {
    assert locker.LockedIffSet() && oss in locker.Repr ==> oss.locked == (oss.objectSet != null);
    hide LockIndex.Unlock, LockIndex.Lock, Complete, AfterChange;
    hide Register.States, Register.Valid, Register.LockedIffSet, Register.IndexIsWatched;
    ok, written := true, {};
    if oss == null {
      return;
    }
    ok, written := HandleState(locker, applier, key, oss, applyOk, answers);
  }

  /** OnChange for a state that there is. */
  method HandleState(locker: Register, applier: Applier, key: Key, oss: ObjectSetState, applyOk: bool,
                     answers: Gvk -> Answer)
    returns (ok: bool, written: set<Gvk>)
    requires locker.gvkWatcher as object != applier
    modifies locker`index, locker.gvkWatcher, applier
    ensures old(locker.Valid()) ==> locker.Valid()
    ensures old(locker.IndexIsWatched()) ==> locker.IndexIsWatched()
    ensures locker.Value() == AfterChange(old(locker.Value()), key, oss.locked, written)
    ensures ok == (oss.locked ==> applyOk)
    ensures applier.calls == old(applier.calls) + if oss.locked then [ApplySet(key, oss.objectSet)] else []
    ensures oss.locked && (forall g :: answers(g) == Starts) ==> Complete(old(locker.Value()), key, written)
  {
    hide LockIndex.Unlock, LockIndex.Lock, Complete, Register.States, Register.Valid, Register.IndexIsWatched;
    ok, written := true, {};
    locker.Unlock(key);
    if !oss.locked {
      return;
    }
    ok, written := ApplyThenLock(locker, applier, key, ApplySet(key, oss.objectSet), applyOk, answers);
    UnlockKeepsComplete(old(locker.Value()), key, written);
  }

  /** The rest of OnChange: the lock is deferred, so it is taken whatever the apply returns. */
  method ApplyThenLock(locker: Register, applier: Applier, key: Key, call: ApplyCall, applyOk: bool,
                       answers: Gvk -> Answer)
    returns (ok: bool, written: set<Gvk>)
    requires locker.gvkWatcher as object != applier
    modifies locker`index, locker.gvkWatcher, applier
    ensures old(locker.Valid()) ==> locker.Valid()
    ensures old(locker.IndexIsWatched()) ==> locker.IndexIsWatched()
    ensures locker.Value() == AfterLock(old(locker.Value()), key, written)
    ensures ok == applyOk && applier.calls == old(applier.calls) + [call]
    ensures (forall g :: answers(g) == Starts) ==> Complete(old(locker.Value()), key, written)
  {
    hide LockIndex.Lock, Complete, Register.States, Register.Valid, AfterLock;
    ok := applier.Apply(call, applyOk);
    assert locker.Value() == old(locker.Value());
    written := locker.Lock(key, answers);
  }

  method OnRemove(locker: Register, applier: Applier, key: Key, purge: bool, applyOk: bool)
    modifies locker`index, applier
    ensures old(locker.Valid()) ==> locker.Valid()
    ensures locker.index == LockIndex.Unlock(old(locker.index), key)
    ensures applier.calls == old(applier.calls) + if purge then [ApplyNothing(key)] else []
  {
    locker.Unlock(key);
    if !purge {
      return;
    }
    var _ := applier.Apply(ApplyNothing(key), applyOk);
  }
}
