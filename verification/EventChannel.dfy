/** The bounded channel between the register and its informer. setState sends its event while it holds
    stateMapLock, and the informer must hold that lock in List before it begins to receive. */
module EventChannel {

  const CAPACITY: nat := 50

  /** Calls of setState that have yet to take the lock, whether one holds it, the events in the channel,
      and whether the informer has listed and now receives. */
  datatype State = State(waiting: nat, holding: bool, queued: nat, listed: bool)

  function Start(calls: nat): State {
    State(calls, false, 0, false)
  }

  datatype Step = Acquire | Send | List | Receive

  predicate Enabled(s: State, step: Step) {
    match step
    case Acquire => s.waiting > 0 && !s.holding
    case Send => s.holding && s.queued < CAPACITY
    case List => !s.listed && !s.holding
    case Receive => s.listed && s.queued > 0
  }

  function After(s: State, step: Step): State
    requires Enabled(s, step)
  {
    match step
    case Acquire => s.(waiting := s.waiting - 1, holding := true)
    case Send => s.(holding := false, queued := s.queued + 1)
    case List => s.(listed := true)
    case Receive => s.(queued := s.queued - 1)
  }

  predicate Reaches(s: State, steps: seq<Step>, after: State)
    decreases |steps|
  {
    if steps == [] then after == s
    else Enabled(s, steps[0]) && Reaches(After(s, steps[0]), steps[1..], after)
  }

  predicate Finished(s: State) {
    s.waiting == 0 && !s.holding && s.listed
  }

  /** Something is left to do and nothing can be done. */
  ghost predicate Deadlocked(s: State) {
    !Finished(s) && forall step :: !Enabled(s, step)
  }

  lemma DeadlockedIff(s: State)
    requires s.queued <= CAPACITY
    ensures Deadlocked(s) <==> !s.listed && s.holding && s.queued == CAPACITY
  {
    if Deadlocked(s) {
      assert !Enabled(s, Acquire) && !Enabled(s, Send) && !Enabled(s, List) && !Enabled(s, Receive);
    }
  }

  /** Until the informer has listed, nothing leaves the channel. */
  predicate Accounted(s: State, calls: nat) {
    s.queued <= CAPACITY && (!s.listed ==> s.waiting + (if s.holding then 1 else 0) + s.queued == calls)
  }

  lemma {:induction false} RunKeepsAccounted(s: State, steps: seq<Step>, after: State, calls: nat)
    requires Accounted(s, calls) && Reaches(s, steps, after)
    ensures Accounted(after, calls) && (s.listed ==> after.listed)
    decreases |steps|
  {
    if steps == [] {
    } else {
      RunKeepsAccounted(After(s, steps[0]), steps[1..], after, calls);
    }
  }

  /** Before the informer lists, n calls can fill the channel and one more take the lock. */
  lemma {:induction false} FillsUp(s: State, n: nat) returns (steps: seq<Step>)
    requires !s.holding && s.waiting > n && s.queued + n <= CAPACITY
    ensures Reaches(s, steps, State(s.waiting - n - 1, true, s.queued + n, s.listed))
    decreases n
  {
    if n == 0 {
      steps := [Acquire];
      assert Reaches(After(s, Acquire), steps[1..], After(s, Acquire));
    } else {
      var taken := After(s, Acquire);
      var rest := FillsUp(After(taken, Send), n - 1);
      steps := [Acquire, Send] + rest;
      assert steps[1..] == [Send] + rest && steps[1..][1..] == rest;
    }
  }

  ghost predicate CanDeadlock(calls: nat) {
    exists steps, after :: Reaches(Start(calls), steps, after) && Deadlocked(after)
  }

  /** The register and its informer can deadlock exactly when there are more calls than the channel has
      room for; all of them must then have come before the informer has listed. */
  lemma CanDeadlockIff(calls: nat)
    ensures CanDeadlock(calls) <==> calls > 50
  {
    if CanDeadlock(calls) {
      var steps, after :| Reaches(Start(calls), steps, after) && Deadlocked(after);
      RunKeepsAccounted(Start(calls), steps, after, calls);
      DeadlockedIff(after);
    }
    if calls > CAPACITY {
      var steps := FillsUp(Start(calls), CAPACITY);
      var full := State(calls - CAPACITY - 1, true, CAPACITY, false);
      DeadlockedIff(full);
      assert Reaches(Start(calls), steps, full) && Deadlocked(full);
    }
  }

  /** Once the informer has listed, there is no deadlock any more. */
  lemma ListedNeverDeadlocks(calls: nat, before: seq<Step>, s: State, steps: seq<Step>, after: State)
    requires Reaches(Start(calls), before, s) && s.listed && Reaches(s, steps, after)
    ensures !Deadlocked(after)
  {
    RunKeepsAccounted(Start(calls), before, s, calls);
    RunKeepsAccounted(s, steps, after, calls);
    DeadlockedIff(after);
  }
}
