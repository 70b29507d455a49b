/** The release controller: how the state of a Helm release drives the register, and how controllers
    of several operators share HelmRelease objects. */
module HelmReleases {
  import opened Prelude
  import opened ObjectSetRegister
  import opened EventLog
  import opened GvkWatcher
  import LockIndex

  /** Release.Info.Status; PendingOrUninstalling stands for the states of a Helm operation under way. */
  datatype HelmStatus = Unknown | Deployed | Uninstalled | Superseded | Failed | PendingOrUninstalling

  datatype ReleaseState =
    | NoState | UnknownState | DeployedState | UninstalledState | ErrorState | FailedState | TransitioningState
    | SecretNotFoundState

  /** The latest stored version of a release. Its info may be missing, its manifest may not parse. */
  datatype Lookup = ReleaseNotFound | LookupFails | Latest(status: Option<HelmStatus>, manifest: Option<Objects>)

  /** newReleaseInfo. */
  function StateOfRelease(status: Option<HelmStatus>): ReleaseState {
    match status
    case None => NoState
    case Some(Unknown) => UnknownState
    case Some(Deployed) => DeployedState
    case Some(Uninstalled) => UninstalledState
    case Some(Superseded) => ErrorState
    case Some(Failed) => FailedState
    case Some(PendingOrUninstalling) => TransitioningState
  }

  // ---------------------------------------------------------------- who manages a HelmRelease

  datatype Management = Ignore | Claim | Manage

  /** shouldManage: an unclaimed HelmRelease is claimed, which brings it back here later. */
  function ShouldManage(systemNamespace: string, me: string, namespace: string, managedBy: Option<string>): Management {
    if namespace != systemNamespace then Ignore
    else match managedBy
      case Some(name) => if name == me then Manage else Ignore
      case None => Claim
  }

  /** What one call of OnHelmRelease does to the register. */
  datatype Outcome = Nothing | Forgets | Releases | Tracks

  function OutcomeOf(handles: bool, last: Lookup, statusOk: bool): Outcome {
    if !handles then Nothing
    else match last
      case ReleaseNotFound => Forgets
      case LookupFails => Nothing
      case Latest(status, manifest) =>
        if !statusOk then Nothing
        else if status != Some(Deployed) then Releases
        else if manifest == None then Nothing
        else Tracks
  }

  function AfterOutcome(r: Registered, release: Key, outcome: Outcome, os: ObjectSet?): Registered {
    match outcome
    case Nothing => r
    case Forgets => AfterDelete(r, release)
    case Releases => AfterUnlock(r, release)
    case Tracks => Registered(AfterSet(r.states, release, os, Some(true)), r.idx)
  }

  /** A HelmRelease that is removed: two of its states are taken to mean that nothing is tracked. */
  function AfterRemove(r: Registered, release: Key, state: ReleaseState): Registered {
    if state == SecretNotFoundState || state == UninstalledState then r else AfterDelete(r, release)
  }

  function StateAfter(before: ReleaseState, last: Lookup): ReleaseState {
    match last
    case ReleaseNotFound => SecretNotFoundState
    case LookupFails => before
    case Latest(status, _) => StateOfRelease(status)
  }

  // ---------------------------------------------------------------- what is promised, by Helm status

  ghost predicate NothingResolves(r: Registered, release: Key) {
    forall res :: LockIndex.Resolved(r.idx, res) != Some(release)
  }

  ghost predicate OthersResolve(before: Registered, after: Registered, release: Key) {
    forall res, other | other != release ::
      LockIndex.Resolved(after.idx, res) == Some(other) <==> LockIndex.Resolved(before.idx, res) == Some(other)
  }

  /** A call of OnHelmRelease. Nothing is done if the HelmRelease is not `mine`, the lookup or the status update
      fails, or a deployed manifest does not parse. A release that is not found is forgotten, whether or not
      the status can be written; one in any status other than deployed is unlocked; and the manifest of a
      deployed one becomes the object set to lock. */
  ghost predicate Answered(mine: bool, last: Lookup, statusOk: bool, release: Key, os: ObjectSet?, before: Registered,
                           after: Registered) {
    && OthersResolve(before, after, release)
    && (!mine || last.LookupFails? || (last.Latest? && !statusOk) || last == Latest(Some(Deployed), None) ==>
          os == null && after == before)
    && (mine && last.ReleaseNotFound? ==>
          os == null && after.states == before.states - {release} && NothingResolves(after, release))
    && (mine && last.Latest? && statusOk && last.status != Some(Deployed) ==>
          os == null && after.states == before.states && NothingResolves(after, release))
    && (mine && last.Latest? && statusOk && last.status == Some(Deployed) && last.manifest.Some? ==>
          && os != null && os.groups == last.manifest.value
          && after.states == before.states[release := Desired(os, true)] && after.idx == before.idx)
  }

  /** The same once the event of a deployed release has been handled. */
  ghost predicate Resolves(mine: bool, last: Lookup, statusOk: bool, release: Key, before: Registered,
                           after: Registered) {
    && OthersResolve(before, after, release)
    && (!mine || last.LookupFails? || (last.Latest? && !statusOk) || last == Latest(Some(Deployed), None) ==>
          after == before)
    && (mine && last.ReleaseNotFound? ==>
          after.states == before.states - {release} && NothingResolves(after, release))
    && (mine && last.Latest? && statusOk && last.status != Some(Deployed) ==>
          after.states == before.states && NothingResolves(after, release))
    && (mine && last.Latest? && statusOk && last.status == Some(Deployed) && last.manifest.Some? ==>
          && release in after.states && after.states[release].locked
          && after.states[release].objectSet != null && after.states[release].objectSet.groups == last.manifest.value
          && after.states - {release} == before.states - {release}
          && if LockIndex.Conflict(before.idx, release, last.manifest.value) then NothingResolves(after, release)
             else forall res ::
               LockIndex.Resolved(after.idx, res) == Some(release) <==> res in Members(last.manifest.value))
  }

  /** The state that the status of the HelmRelease comes to tell. */
  predicate StateTold(mine: bool, last: Lookup, before: ReleaseState, after: ReleaseState) {
    && (!mine || last.LookupFails? ==> after == before)
    && (mine && last.ReleaseNotFound? ==> after == SecretNotFoundState)
    && (mine && last.Latest? ==>
          && (after == DeployedState <==> last.status == Some(Deployed))
          && (after == UninstalledState <==> last.status == Some(Uninstalled))
          && (after == FailedState <==> last.status == Some(Failed))
          && (after == TransitioningState <==> last.status == Some(PendingOrUninstalling))
          && (after == ErrorState <==> last.status == Some(Superseded))
          && (after == UnknownState <==> last.status == Some(Unknown))
          && (after == NoState <==> last.status == None))
  }

  class HelmRelease {
    const namespace: string
    const release: Key
    var managedBy: Option<string>
    var deleting: bool
    var state: ReleaseState

    constructor (namespace: string, release: Key)
      ensures this.namespace == namespace && this.release == release
      ensures managedBy == None && !deleting && state == NoState
    {
      this.namespace, this.release := namespace, release;
      managedBy, deleting, state := None, false, NoState;
    }
  }

  class Controller {
    const systemNamespace: string
    const managedBy: string
    const register: Register
    const applier: Applier

    constructor (systemNamespace: string, managedBy: string, register: Register, applier: Applier)
      ensures this.systemNamespace == systemNamespace && this.managedBy == managedBy
      ensures this.register == register && this.applier == applier
    {
      this.systemNamespace, this.managedBy := systemNamespace, managedBy;
      this.register, this.applier := register, applier;
    }

    predicate Handles(h: HelmRelease)
      reads h
    {
      ShouldManage(systemNamespace, managedBy, h.namespace, h.managedBy) == Manage && !h.deleting
    }

    /** The deployed branch: the manifest becomes the desired state of the release. */
    method Track(release: Key, manifest: Objects) returns (os: ObjectSet)
      requires register.Valid()
      modifies register`stateByKey, register`stateChanges, register`log, register`Repr
      ensures register.Valid() && fresh(os) && os.groups == manifest
      ensures old(register.LockedIffSet()) ==> register.LockedIffSet()
      ensures register.Value()
           == Registered(AfterSet(old(register.States()), release, os, Some(true)), old(register.index))
      ensures release in register.stateByKey
      ensures register.stateChanges == old(register.stateChanges)
        + [Event(if release in old(register.stateByKey) then Modified else Added, register.stateByKey[release])]
    {
      hide Register.Valid, Register.LockedIffSet;
      ghost var states := register.States();
      os := new ObjectSet(manifest);
      assert register.States() == states;
      assert Changes(states, release, os, Some(true), false);
      register.Set(release, os, Some(true));
    }

    /** The status is not part of what the register holds. */
    method SetState(h: HelmRelease, state: ReleaseState)
      requires register.Valid()
      modifies h`state
      ensures register.Valid() && register.States() == old(register.States()) && h.state == state
      ensures old(register.LockedIffSet()) ==> register.LockedIffSet()
    {
      h.state := state;
    }

    /** `updateOk` and `statusOk` say whether the API accepts the claim and the new status; `claims` whether
        a claim is made. */
    method OnHelmRelease(h: HelmRelease, last: Lookup, updateOk: bool, statusOk: bool, applyOk: bool)
      returns (ok: bool, os: ObjectSet?, claims: bool)
      requires register.Valid()
      modifies register`stateByKey, register`stateChanges, register`log, register`Repr, register`index, applier, h`state
      modifies (if h.release in register.stateByKey then {register.stateByKey[h.release]} else {})`objectSet
      modifies (if h.release in register.stateByKey then {register.stateByKey[h.release]} else {})`locked
      ensures register.Valid()
      ensures old(register.LockedIffSet()) ==> register.LockedIffSet()
      ensures claims <==> h.namespace == systemNamespace && h.managedBy == None
      ensures var mine := h.namespace == systemNamespace && h.managedBy == Some(managedBy) && !h.deleting;
        && Answered(mine, last, statusOk, h.release, os, old(register.Value()), register.Value())
        && StateTold(mine, last, old(h.state), h.state)
        && ok == (if mine then statusOk && !last.LookupFails? && last != Latest(Some(Deployed), None)
                  else claims ==> updateOk)
        && applier.calls == old(applier.calls) + if mine && last.ReleaseNotFound? then [ApplyNothing(h.release)] else []
      ensures os == null && !last.ReleaseNotFound? ==> register.stateChanges == old(register.stateChanges)
      ensures os != null ==> fresh(os) && h.release in register.stateByKey
      ensures os != null ==>
        register.stateChanges == old(register.stateChanges)
           + [Event(if h.release in old(register.stateByKey) then Modified else Added, register.stateByKey[h.release])]
      ensures register.Value()
           == AfterOutcome(old(register.Value()), h.release, OutcomeOf(old(Handles(h)), last, statusOk), os)
      ensures h.state == if old(Handles(h)) then StateAfter(old(h.state), last) else old(h.state)
      ensures os != null <==> OutcomeOf(old(Handles(h)), last, statusOk) == Tracks
    {
      hide Register.Valid, Register.LockedIffSet, Register.States, AfterOutcome, OutcomeOf, Answered, StateTold;
      ghost var before, handled := register.Value(), Handles(h);
      ok, os, claims := true, null, false;
      var management := ShouldManage(systemNamespace, managedBy, h.namespace, h.managedBy);
      if management != Manage {
        claims := management == Claim;
        ok := management == Ignore || updateOk;
      } else if !h.deleting {
        ok, os := HandleRelease(h, last, statusOk, applyOk);
      }
      UnhandledIsNothing(before, h.release, last, statusOk);
      OutcomeAnswers(before, h.release, handled, last, statusOk, os);
      StateIsTold(handled, last, old(h.state));
    }

    /** The rest of OnHelmRelease for a HelmRelease that this controller manages. */
    method HandleRelease(h: HelmRelease, last: Lookup, statusOk: bool, applyOk: bool)
      returns (ok: bool, os: ObjectSet?)
      requires register.Valid() && Handles(h)
      modifies register`stateByKey, register`stateChanges, register`log, register`Repr, register`index, applier, h`state
      modifies (if h.release in register.stateByKey then {register.stateByKey[h.release]} else {})`objectSet
      modifies (if h.release in register.stateByKey then {register.stateByKey[h.release]} else {})`locked
      ensures register.Valid()
      ensures old(register.LockedIffSet()) ==> register.LockedIffSet()
      ensures ok <==> statusOk && !last.LookupFails? && last != Latest(Some(Deployed), None)
      ensures var outcome := OutcomeOf(true, last, statusOk);
        && register.Value() == AfterOutcome(old(register.Value()), h.release, outcome, os)
        && (outcome == Tracks <==> os != null)
        && (os != null ==> fresh(os) && last.manifest == Some(os.groups))
      ensures os == null && !last.ReleaseNotFound? ==> register.stateChanges == old(register.stateChanges)
      ensures os != null ==> h.release in register.stateByKey
      ensures os != null ==>
        register.stateChanges == old(register.stateChanges)
           + [Event(if h.release in old(register.stateByKey) then Modified else Added, register.stateByKey[h.release])]
      ensures applier.calls == old(applier.calls) + if last.ReleaseNotFound? then [ApplyNothing(h.release)] else []
      ensures h.state == StateAfter(old(h.state), last)
    {
      hide Register.Valid, Register.LockedIffSet, Register.States, Wanted, LockIndex.Unlock;
      ok, os := true, null;
      match last
      case ReleaseNotFound =>
        register.Delete(h.release, true, applier, applyOk);
        SetState(h, SecretNotFoundState);
        ok := statusOk;
      case LookupFails =>
        ok := false;
      case Latest(status, manifest) =>
        SetState(h, StateOfRelease(status));
        if !statusOk {
          ok := false;
        } else if h.state != DeployedState {
          register.Unlock(h.release);
        } else if manifest == None {
          ok := false;
        } else {
          os := Track(h.release, manifest.value);
        }
    }

    /** A reconcile as a whole: the call of OnHelmRelease, and the handling of the event that it has sent if
        the release is deployed, with every watch succeeding. */
    method Reconcile(h: HelmRelease, last: Lookup, updateOk: bool, statusOk: bool, applyOk: bool,
                     answers: Gvk -> Answer)
      requires register.Valid() && register.gvkWatcher as object != applier
      requires forall g :: answers(g) == Starts
      modifies register`stateByKey, register`stateChanges, register`log, register`Repr, register`index, applier, h`state
      modifies register.gvkWatcher
      modifies (if h.release in register.stateByKey then {register.stateByKey[h.release]} else {})`objectSet
      modifies (if h.release in register.stateByKey then {register.stateByKey[h.release]} else {})`locked
      ensures register.Valid()
      ensures var mine := h.namespace == systemNamespace && h.managedBy == Some(managedBy) && !h.deleting;
        Resolves(mine, last, statusOk, h.release, old(register.Value()), register.Value())
    {
      hide Register.Valid, Register.States, Register.LockedIffSet, Register.IndexIsWatched;
      hide AfterChange, Complete, OutcomeOf, LockIndex.Resolved, LockIndex.Conflict, LockIndex.Unlock, Resolves;
      ghost var before, handled := register.Value(), Handles(h);
      ghost var outcome := OutcomeOf(handled, last, statusOk);
      var _, os, _ := OnHelmRelease(h, last, updateOk, statusOk, applyOk);
      ghost var written: set<Gvk> := {};
      if os != null {
        var event := register.stateChanges[|register.stateChanges| - 1];
        assert register.StateOf(h.release) == Desired(os, true);
        var _, entered := OnChange(register, applier, h.release, event.state, applyOk, answers);
        written := entered;
      }
      ReconcileResolves(before, h.release, handled, last, statusOk, os, written, register.Value());
    }

    method OnHelmReleaseRemove(h: HelmRelease, applyOk: bool)
      requires register.Valid()
      modifies register`stateByKey, register`stateChanges, register`log, register`Repr, register`index, applier
      modifies (if h.release in register.stateByKey then {register.stateByKey[h.release]} else {})`objectSet
      modifies (if h.release in register.stateByKey then {register.stateByKey[h.release]} else {})`locked
      ensures register.Valid()
      ensures old(register.LockedIffSet()) ==> register.LockedIffSet()
      ensures register.Value() == AfterRemove(old(register.Value()), h.release, h.state)
      ensures applier.calls == old(applier.calls)
    {
      if h.state == SecretNotFoundState || h.state == UninstalledState {
        return;
      }
      register.Delete(h.release, false, applier, applyOk);
    }
  }

  // ---------------------------------------------------------------- what a reconcile comes to

  /** The register once the handler has dealt with the event of a call of OnHelmRelease; its Lock enters
      the kinds `written`, all of them unless something keeps it. Only tracking sends an event. */
  ghost function Reconciled(r: Registered, release: Key, outcome: Outcome, os: ObjectSet?, written: set<Gvk>)
    : Registered
  {
    var after := AfterOutcome(r, release, outcome, os);
    if outcome == Tracks then AfterChange(after, release, true, written) else after
  }

  /** A deployed release resolves from exactly the objects of its manifest, provided no other release
      holds one; from none of them otherwise. Any other release status, and a missing release, leave
      nothing resolving to it. No other key's answers ever change. */
  lemma ReconcileIsExact(r: Registered, release: Key, outcome: Outcome, os: ObjectSet?, written: set<Gvk>)
    requires outcome == Tracks ==> os != null && Complete(AfterOutcome(r, release, outcome, os), release, written)
    ensures var after := Reconciled(r, release, outcome, os, written);
      && (outcome == Tracks ==>
            && (LockIndex.Owned(after.idx, release) == Members(os.groups)
                <==> !LockIndex.Conflict(r.idx, release, os.groups))
            && (LockIndex.Conflict(r.idx, release, os.groups) ==> LockIndex.Owned(after.idx, release) == {})
            && after.states == r.states[release := Desired(os, true)])
      && (outcome == Releases || outcome == Forgets ==> LockIndex.Owned(after.idx, release) == {})
      && (outcome == Forgets ==> release !in after.states)
      && (outcome == Releases ==> after.states == r.states)
      && (forall other | other != release :: LockIndex.Owned(after.idx, other) == LockIndex.Owned(r.idx, other))
      && (forall other | other != release :: other in after.states <==> other in r.states)
      && (forall other | other != release && other in r.states :: after.states[other] == r.states[other])
  {
    LockIndex.UnlockIsExact(r.idx, release);
    if outcome == Tracks {
      LockIndex.UnlockKeepsConflict(r.idx, release, os.groups);
      LockIndex.LockIsExact(LockIndex.Unlock(r.idx, release), release, os.groups, written);
      assert written == os.groups.Keys ==> LockIndex.Restrict(os.groups, written) == os.groups;
      if LockIndex.Conflict(r.idx, release, os.groups) {
        var m :| m in Members(os.groups);
      }
    }
    hide LockIndex.Owned, LockIndex.Conflict, LockIndex.Lock, LockIndex.Unlock;
  }

  /** The same in terms of what Resolve answers. */
  lemma ReconcileAnswers(r: Registered, release: Key, outcome: Outcome, os: ObjectSet?, written: set<Gvk>,
                         after: Registered)
    requires outcome == Tracks ==> os != null && Complete(AfterOutcome(r, release, outcome, os), release, written)
    requires after == Reconciled(r, release, outcome, os, written)
    ensures forall res, other | other != release ::
      LockIndex.Resolved(after.idx, res) == Some(other) <==> LockIndex.Resolved(r.idx, res) == Some(other)
    ensures outcome == Nothing ==> after == r
    ensures outcome == Forgets ==> release !in after.states
    ensures outcome == Tracks && !LockIndex.Conflict(r.idx, release, os.groups) ==>
      forall res :: LockIndex.Resolved(after.idx, res) == Some(release) <==> res in Members(os.groups)
    ensures (outcome == Tracks && LockIndex.Conflict(r.idx, release, os.groups))
            || outcome == Releases || outcome == Forgets ==>
      forall res :: LockIndex.Resolved(after.idx, res) != Some(release)
  {
    hide LockIndex.Owned, LockIndex.Conflict, LockIndex.Lock, LockIndex.Unlock, LockIndex.Resolved, Complete;
    ReconcileIsExact(r, release, outcome, os, written);
    hide AfterOutcome, Reconciled;
    forall res, other
      ensures res in LockIndex.Owned(after.idx, other) <==> LockIndex.Resolved(after.idx, res) == Some(other)
      ensures res in LockIndex.Owned(r.idx, other) <==> LockIndex.Resolved(r.idx, res) == Some(other)
    {
      LockIndex.OwnedIsResolved(after.idx, other, res);
      LockIndex.OwnedIsResolved(r.idx, other, res);
    }
  }

  lemma OutcomeAnswers(before: Registered, release: Key, handled: bool, last: Lookup, statusOk: bool, os: ObjectSet?)
    requires var outcome := OutcomeOf(handled, last, statusOk);
      (outcome == Tracks <==> os != null) && (os != null ==> last.manifest == Some(os.groups))
    ensures var after := AfterOutcome(before, release, OutcomeOf(handled, last, statusOk), os);
      Answered(handled, last, statusOk, release, os, before, after)
  {
    var idx := LockIndex.Unlock(before.idx, release);
    forall res ensures LockIndex.Resolved(idx, res)
        == if LockIndex.Resolved(before.idx, res) == Some(release) then None else LockIndex.Resolved(before.idx, res)
    {
      LockIndex.UnlockResolves(before.idx, release, res);
    }
    hide LockIndex.Unlock, LockIndex.Resolved;
  }

  lemma UnhandledIsNothing(r: Registered, release: Key, last: Lookup, statusOk: bool)
    ensures OutcomeOf(false, last, statusOk) == Nothing && AfterOutcome(r, release, Nothing, null) == r
  {
  }

  lemma StateIsTold(handled: bool, last: Lookup, before: ReleaseState)
    ensures StateTold(handled, last, before, if handled then StateAfter(before, last) else before)
  {
  }

  lemma ReconcileResolves(r: Registered, release: Key, handled: bool, last: Lookup, statusOk: bool, os: ObjectSet?,
                          written: set<Gvk>, after: Registered)
    requires var outcome := OutcomeOf(handled, last, statusOk);
      && (outcome == Tracks <==> os != null) && (os != null ==> last.manifest == Some(os.groups))
      && (os != null ==> Complete(AfterOutcome(r, release, outcome, os), release, written))
      && after == Reconciled(r, release, outcome, os, written)
    ensures Resolves(handled, last, statusOk, release, r, after)
  {
    ReconcileAnswers(r, release, OutcomeOf(handled, last, statusOk), os, written, after);
    OutcomeAnswers(r, release, handled, last, statusOk, os);
    hide LockIndex.Resolved, LockIndex.Conflict, LockIndex.Lock, LockIndex.Unlock, Complete;
  }

  /** The documentation promises that nothing is done for a release unless it is deployed. The code
      keeps the promise for the index until the next event of the state: Unlock leaves `locked` set, so
      handling a pending event locks the release again although Helm is at work on it. It does so
      exactly when the state is still locked, has objects, and no other release holds one. */
  lemma PendingEventLocksAgain(r: Registered, release: Key, seenLocked: bool, written: set<Gvk>)
    requires Complete(r, release, written)
    ensures var released := Reconciled(r, release, Releases, null, {});
      LockIndex.Owned(AfterChange(released, release, seenLocked, written).idx, release) != {}
      <==> && seenLocked && release in r.states && r.states[release].objectSet != null
           && var objects := r.states[release].objectSet.groups;
              Members(objects) != {} && !LockIndex.Conflict(r.idx, release, objects)
  {
    var idx := LockIndex.Unlock(r.idx, release);
    LockIndex.UnlockIsExact(r.idx, release);
    LockIndex.UnlockIsExact(idx, release);
    if release in r.states && r.states[release].objectSet != null {
      var objects := r.states[release].objectSet.groups;
      LockIndex.UnlockKeepsConflict(r.idx, release, objects);
      LockIndex.UnlockKeepsConflict(idx, release, objects);
      LockIndex.LockIsExact(LockIndex.Unlock(idx, release), release, objects, written);
      assert written == objects.Keys ==> LockIndex.Restrict(objects, written) == objects;
    }
    hide LockIndex.Owned, LockIndex.Conflict, LockIndex.Lock, LockIndex.Unlock;
  }

  /** A removed HelmRelease ought to leave nothing behind that could lock objects again. When an event of
      its release is handled after the removal, the release owns something exactly when it was removed in
      one of the two states that are taken to mean that nothing is tracked, the event says locked, and the
      register still has an object set for it, with objects, none of which another release holds. */
  lemma RemovedReleaseOwnsIff(r: Registered, release: Key, state: ReleaseState, seenLocked: bool, written: set<Gvk>)
    requires Complete(r, release, written)
    ensures var removed := AfterRemove(r, release, state);
      LockIndex.Owned(AfterChange(removed, release, seenLocked, written).idx, release) != {}
      <==> && (state == SecretNotFoundState || state == UninstalledState)
           && seenLocked && release in r.states && r.states[release].objectSet != null
           && var objects := r.states[release].objectSet.groups;
              Members(objects) != {} && !LockIndex.Conflict(r.idx, release, objects)
  {
    var removed := AfterRemove(r, release, state);
    LockIndex.UnlockIsExact(removed.idx, release);
    if removed == r && release in r.states && r.states[release].objectSet != null {
      var objects := r.states[release].objectSet.groups;
      LockIndex.UnlockKeepsConflict(r.idx, release, objects);
      LockIndex.LockIsExact(LockIndex.Unlock(r.idx, release), release, objects, written);
      assert written == objects.Keys ==> LockIndex.Restrict(objects, written) == objects;
    }
    hide LockIndex.Owned, LockIndex.Conflict, LockIndex.Lock, LockIndex.Unlock;
  }

  /** An uninstalled release is taken to hold nothing, but its state is still in the register: when its
      HelmRelease is removed then, the next event of the state locks its objects once more. */
  lemma UninstalledReleaseIsNotForgotten(r: Registered, release: Key, os: ObjectSet, written: set<Gvk>)
    requires Complete(AfterOutcome(r, release, Tracks, os), release, written)
    requires !LockIndex.Conflict(r.idx, release, os.groups)
    ensures var tracked := Reconciled(r, release, Tracks, os, written);
      var uninstalled := Reconciled(tracked, release, Releases, null, {});
      var removed := AfterRemove(uninstalled, release, StateOfRelease(Some(Uninstalled)));
      && release in removed.states && removed.states[release] == Desired(os, true)
      && LockIndex.Owned(removed.idx, release) == {}
      && LockIndex.Owned(AfterChange(removed, release, true, written).idx, release) == Members(os.groups)
  {
    var tracked := Reconciled(r, release, Tracks, os, written);
    var idx := LockIndex.Unlock(tracked.idx, release);
    ReconcileIsExact(r, release, Tracks, os, written);
    LockIndex.UnlockIsExact(tracked.idx, release);
    LockIndex.ConflictDependsOnOthers(r.idx, tracked.idx, release, os.groups);
    LockIndex.UnlockKeepsConflict(tracked.idx, release, os.groups);
    LockIndex.UnlockKeepsConflict(idx, release, os.groups);
    LockIndex.LockIsExact(LockIndex.Unlock(idx, release), release, os.groups, written);
    assert LockIndex.Restrict(os.groups, written) == os.groups;
    hide LockIndex.Owned, LockIndex.Conflict, LockIndex.Lock, LockIndex.Unlock;
  }
}
