/** Which process made which lock object of the keyed mutex, over whole runs. */
module KeyedMutexLocks {
  import opened Prelude
  import opened KeyedMutex

  /** Step `n` of the run makes the task's process look up its lock object. */
  ghost predicate LooksUp(timeout: nat, steps: seq<Step>, n: nat, t: Task) {
    n < |steps| && steps[n] == LookUp(t) && PhaseOf(Run(timeout, steps, n), t) == Out
  }

  /** The lock object that a look-up at step `n` has led to. */
  function LockFound(timeout: nat, steps: seq<Step>, n: nat, t: Task): Option<nat>
    requires n < |steps|
  {
    var p := PhaseOf(Run(timeout, steps, n + 1), t);
    if p.Trying? then Some(p.lock) else None
  }

  /** The lock objects a phase refers to. */
  function LocksOf(p: Phase): set<nat> {
    (match p
     case Out => {}
     case Trying(l) => {l}
     case Inside(h) => {h.lock}
     case Exiting(l, _) => {l}
     case Checked(l, _) => {l}
     case Owned(l, _) => {l}
     case Releasing(l, _, _) => {l}) + (if HoldOf(p).Some? then {HoldOf(p).value.lock} else {})
  }

  /** The lock object is in use anywhere. */
  ghost predicate Mentions(s: State, l: nat) {
    || (exists p :: p in s.cache && s.cache[p] == l)
    || (exists t :: t in s.tasks && l in LocksOf(s.tasks[t]))
    || l in s.tokens
    || l in s.issued
    || (s.lease.Some? && s.lease.value.via == l)
  }

  // ---------------------------------------------------------------- who made what

  /** The process that made each lock object, in the order of making. */
  ghost function Owners(timeout: nat, steps: seq<Step>, n: nat): seq<nat>
    requires n <= |steps|
  {
    if n == 0 then []
    else
      var s := Run(timeout, steps, n - 1);
      Owners(timeout, steps, n - 1) + Adds(s, steps[n - 1])
  }

  ghost function Adds(s: State, step: Step): seq<nat> {
    if step.LookUp? && PhaseOf(s, step.task) == Out && step.task.process !in s.cache then [step.task.process] else []
  }

  ghost predicate OwnedIn(owners: seq<nat>, l: nat, p: nat) {
    l < |owners| && owners[l] == p
  }

  /** Every lock object in use was made, those of a process and its tasks by that process. */
  ghost predicate OwnersFit(s: State, owners: seq<nat>) {
    && |owners| == s.nextLock
    && (forall p <- s.cache :: OwnedIn(owners, s.cache[p], p))
    && (forall t <- s.tasks, l <- LocksOf(s.tasks[t]) :: OwnedIn(owners, l, t.process))
    && (forall l <- s.tokens :: l < |owners|)
    && (forall l <- s.issued :: l < |owners|)
    && (s.lease.Some? ==> s.lease.value.via < |owners|)
  }

  lemma OwnedStays(owners: seq<nat>, more: seq<nat>)
    ensures forall l: nat, p: nat :: OwnedIn(owners, l, p) ==> OwnedIn(owners + more, l, p)
  {
  }

  lemma OwnersStayFit(s: State, step: Step, owners: seq<nat>)
    requires OwnersFit(s, owners)
    ensures OwnersFit(Next(s, step), owners + Adds(s, step))
  {
    OwnedStays(owners, Adds(s, step));
    match step
    case LookUp(t) => LookUpFits(s, t, owners);
    case TryAcquire(t) => AcquireFits(s, t, owners);
    case Tick =>
    case Evict(_) =>
    case _ => ExitFits(s, step, owners);
  }

  lemma LookUpFits(s: State, t: Task, owners: seq<nat>)
    requires OwnersFit(s, owners)
    ensures OwnersFit(LookUpStep(s, t), owners + Adds(s, LookUp(t)))
  {
    OwnedStays(owners, Adds(s, LookUp(t)));
    var more := owners + Adds(s, LookUp(t));
    var s' := LookUpStep(s, t);
    if PhaseOf(s, t) == Out {
      assert OwnedIn(more, s'.cache[t.process], t.process);
      assert s'.tasks[t] == Trying(s'.cache[t.process]);
    }
  }

  /** A task moves to a phase that uses its own lock objects or the cached one. */
  lemma MoveFits(s: State, s': State, t: Task, p: Phase, owners: seq<nat>)
    requires OwnersFit(s, owners)
    requires s'.tasks == s.tasks[t := p] && s'.cache == s.cache && s'.nextLock == s.nextLock
    requires forall l <- LocksOf(p) :: OwnedIn(owners, l, t.process)
    requires (forall l <- s'.tokens :: l in s.tokens || l in LocksOf(p))
    requires (forall l <- s'.issued :: l in s.issued || l in LocksOf(p))
    requires s'.lease.None? || s'.lease == s.lease || s'.lease.value.via in LocksOf(p)
    ensures OwnersFit(s', owners)
  {
    hide LocksOf;
    forall u, l | u in s'.tasks && l in LocksOf(s'.tasks[u])
      ensures OwnedIn(owners, l, u.process)
    {
      if u != t {
        assert u in s.tasks && s'.tasks[u] == s.tasks[u];
      }
    }
    forall l | l in LocksOf(p)
      ensures l < |owners|
    {
      assert OwnedIn(owners, l, t.process);
    }
  }

  lemma OwnLocks(s: State, t: Task, owners: seq<nat>)
    requires OwnersFit(s, owners)
    ensures forall l <- LocksOf(PhaseOf(s, t)) :: OwnedIn(owners, l, t.process)
    ensures t.process in s.cache ==> OwnedIn(owners, s.cache[t.process], t.process)
  {
    hide OwnedIn;
    if t in s.tasks {
      forall l | l in LocksOf(s.tasks[t])
        ensures OwnedIn(owners, l, t.process)
      {
      }
    }
  }

  lemma AcquireFits(s: State, t: Task, owners: seq<nat>)
    requires OwnersFit(s, owners)
    ensures OwnersFit(TryAcquireStep(s, t), owners)
  {
    hide OwnersFit, OwnedIn, Live;
    var p := PhaseOf(s, t);
    if p.Trying? && !Live(s) {
      OwnLocks(s, t, owners);
      var s' := TryAcquireStep(s, t);
      MoveFits(s, s', t, s'.tasks[t], owners);
    }
  }

  lemma ExitFits(s: State, step: Step, owners: seq<nat>)
    requires OwnersFit(s, owners)
    requires step.Leave? || step.ReleaseOwn? || step.ReleaseStray? || step.CheckLocked? || step.CheckOwned?
             || step.BeginRelease? || step.EndRelease?
    ensures OwnersFit(Next(s, step), owners)
  {
    hide OwnersFit, OwnedIn, Live, OwnedBy;
    OwnLocks(s, step.task, owners);
    var s' := Next(s, step);
    if s' != s {
      MoveFits(s, s', step.task, PhaseOf(s', step.task), owners);
    }
  }

  lemma {:induction false} RunOwners(timeout: nat, steps: seq<Step>, n: nat)
    requires n <= |steps|
    ensures OwnersFit(Run(timeout, steps, n), Owners(timeout, steps, n))
  {
    hide OwnersFit, Next, Adds;
    if n <= 0 {
      NothingOwned(timeout);
    } else {
      RunOwners(timeout, steps, n - 1);
      OwnersStayFit(Run(timeout, steps, n - 1), steps[n - 1], Owners(timeout, steps, n - 1));
    }
  }

  lemma NothingOwned(timeout: nat)
    ensures OwnersFit(Initial(timeout), [])
  {
  }

  lemma {:induction false} OwnersOnlyGrow(timeout: nat, steps: seq<Step>, m: nat, n: nat)
    requires m <= n <= |steps|
    ensures Owners(timeout, steps, m) <= Owners(timeout, steps, n)
    decreases n - m
  {
    hide Adds;
    if m < n {
      OwnersOnlyGrow(timeout, steps, m, n - 1);
    }
  }

  lemma MentionedIsOwned(s: State, l: nat, owners: seq<nat>)
    requires OwnersFit(s, owners) && Mentions(s, l)
    ensures l < s.nextLock
  {
    hide LocksOf;
  }

  // ---------------------------------------------------------------- main results

  /**
   * A look-up in a process whose cache has no entry makes a lock object that, at no earlier moment
   * of the run, any cache, task, token, issued token or lease has referred to.
   */
  lemma NewLockIsNew(timeout: nat, steps: seq<Step>, m: nat, n: nat, t: Task)
    requires m <= n && LooksUp(timeout, steps, n, t) && t.process !in Run(timeout, steps, n).cache
    ensures LockFound(timeout, steps, n, t).Some?
    ensures var l := LockFound(timeout, steps, n, t).value;
            && !Mentions(Run(timeout, steps, m), l)
            && t.process in Run(timeout, steps, n + 1).cache
            && Run(timeout, steps, n + 1).cache[t.process] == l
  {
    hide Mentions, OwnersFit, LocksOf;
    var s := Run(timeout, steps, n);
    assert PhaseOf(Run(timeout, steps, n + 1), t) == Trying(s.nextLock);
    RunOwners(timeout, steps, m);
    RunOwners(timeout, steps, n);
    OwnersOnlyGrow(timeout, steps, m, n);
    FitCounts(Run(timeout, steps, m), Owners(timeout, steps, m));
    FitCounts(s, Owners(timeout, steps, n));
    if Mentions(Run(timeout, steps, m), s.nextLock) {
      MentionedIsOwned(Run(timeout, steps, m), s.nextLock, Owners(timeout, steps, m));
    }
  }

  lemma FitCounts(s: State, owners: seq<nat>)
    requires OwnersFit(s, owners)
    ensures |owners| == s.nextLock
    ensures forall p <- s.cache :: OwnedIn(owners, s.cache[p], p)
  {
  }

  /** The caches of two processes never hold the same lock object. */
  lemma CachesDiffer(timeout: nat, steps: seq<Step>, n: nat, p: nat, q: nat)
    requires n <= |steps| && p != q && p in Run(timeout, steps, n).cache && q in Run(timeout, steps, n).cache
    ensures Run(timeout, steps, n).cache[p] != Run(timeout, steps, n).cache[q]
  {
    hide OwnersFit, Run;
    RunOwners(timeout, steps, n);
    FitCounts(Run(timeout, steps, n), Owners(timeout, steps, n));
  }

  /** Step `m` took the lease now in Redis: a task set it with a token never issued before. */
  ghost predicate Took(timeout: nat, steps: seq<Step>, m: nat, u: Task, lease: Lease) {
    && m < |steps|
    && steps[m] == TryAcquire(u)
    && Run(timeout, steps, m + 1).lease == Some(lease)
    && lease.token == |Run(timeout, steps, m).issued|
  }

  lemma {:induction false} LeaseWasTaken(timeout: nat, steps: seq<Step>, n: nat)
    requires n <= |steps| && Run(timeout, steps, n).lease.Some?
    ensures exists m: nat, u :: m < n && Took(timeout, steps, m, u, Run(timeout, steps, n).lease.value)
  {
    hide Took;
    if n <= 0 {
      assert false;
    } else {
      var s := Run(timeout, steps, n - 1);
      LeaseIsOldOrTaken(timeout, steps, n - 1);
      if Run(timeout, steps, n).lease == s.lease {
        LeaseWasTaken(timeout, steps, n - 1);
        var m: nat, u :| m < n - 1 && Took(timeout, steps, m, u, s.lease.value);
      }
    }
  }

  lemma LeaseIsOldOrTaken(timeout: nat, steps: seq<Step>, n: nat)
    requires n < |steps| && Run(timeout, steps, n + 1).lease.Some?
    ensures Run(timeout, steps, n + 1).lease == Run(timeout, steps, n).lease
         || (steps[n].TryAcquire? && Took(timeout, steps, n, steps[n].task, Run(timeout, steps, n + 1).lease.value))
  {
    assert Run(timeout, steps, n + 1) == Next(Run(timeout, steps, n), steps[n]);
    hide Run, Live, OwnedBy;
  }

  lemma TakenThroughOwn(timeout: nat, steps: seq<Step>, m: nat, u: Task, lease: Lease)
    requires Took(timeout, steps, m, u, lease) && OwnersFit(Run(timeout, steps, m), Owners(timeout, steps, m))
    requires TokensFit(Run(timeout, steps, m))
    ensures OwnedIn(Owners(timeout, steps, m), lease.via, u.process)
  {
    assert Run(timeout, steps, m + 1) == Next(Run(timeout, steps, m), steps[m]);
    hide Run, Owners, OwnersFit, OwnedIn, LocksOf;
    OwnLocks(Run(timeout, steps, m), u, Owners(timeout, steps, m));
  }

  /**
   * With no assumption on timing, on evictions or on who calls release: the step that ends a lease
   * other than by taking an expired one is made by a task of the process that took the lease.
   */
  lemma LeaseEndsInItsProcess(timeout: nat, steps: seq<Step>, n: nat, m: nat, u: Task)
    requires n < |steps| && m < n
    requires var s := Run(timeout, steps, n);
             && s.lease.Some? && Took(timeout, steps, m, u, s.lease.value)
             && Next(s, steps[n]).lease != s.lease
    ensures var s := Run(timeout, steps, n);
            || (!Live(s) && steps[n].TryAcquire?)
            || (steps[n].EndRelease? && steps[n].task.process == u.process)
  {
    var s := Run(timeout, steps, n);
    ReleaseRemovesOwnLease(timeout, steps, n);
    RunOwners(timeout, steps, m);
    RunOwners(timeout, steps, n);
    RunTokensFit(timeout, steps, m);
    OwnersOnlyGrow(timeout, steps, m, n);
    TakenThroughOwn(timeout, steps, m, u, s.lease.value);
    if steps[n].EndRelease? {
      var t := steps[n].task;
      hide *;
      ReleasingUses(s, t);
      OwnLocks(s, t, Owners(timeout, steps, n));
      OneOwner(Owners(timeout, steps, m), Owners(timeout, steps, n), s.lease.value.via, u.process, t.process);
    }
  }

  lemma ReleasingUses(s: State, t: Task)
    requires Next(s, EndRelease(t)).lease != s.lease
    ensures PhaseOf(s, t).Releasing? && PhaseOf(s, t).lock in LocksOf(PhaseOf(s, t))
  {
  }

  lemma OneOwner(a: seq<nat>, b: seq<nat>, l: nat, p: nat, q: nat)
    requires a <= b && OwnedIn(a, l, p) && OwnedIn(b, l, q)
    ensures p == q
  {
  }

  // ---------------------------------------------------------------- how long a lock object is shared

  ghost predicate EvictedBetween(steps: seq<Step>, m: nat, n: nat, p: nat)
    requires n <= |steps|
  {
    exists k :: m <= k < n && steps[k] == Evict(p)
  }

  /** What a look-up leaves behind is cached, whether it was found or made. */
  lemma FoundIsCached(timeout: nat, steps: seq<Step>, m: nat, t: Task)
    requires LooksUp(timeout, steps, m, t)
    ensures LockFound(timeout, steps, m, t).Some?
    ensures var s, s', l := Run(timeout, steps, m), Run(timeout, steps, m + 1), LockFound(timeout, steps, m, t).value;
            && t.process in s'.cache && s'.cache[t.process] == l
            && (t.process in s.cache ==> s.cache[t.process] == l)
            && (t.process !in s.cache ==> l == s.nextLock)
  {
    assert Run(timeout, steps, m + 1) == LookUpStep(Run(timeout, steps, m), t);
    hide Run;
  }

  lemma CacheStep(s: State, step: Step, p: nat)
    ensures Next(s, step).nextLock >= s.nextLock
    ensures p in s.cache && step != Evict(p) ==> p in Next(s, step).cache && Next(s, step).cache[p] == s.cache[p]
    ensures step == Evict(p) ==> p !in Next(s, step).cache
    ensures p !in s.cache && p in Next(s, step).cache ==> Next(s, step).cache[p] == s.nextLock
  {
    hide Live, OwnedBy;
  }

  lemma {:induction false} CacheStays(timeout: nat, steps: seq<Step>, m: nat, n: nat, p: nat)
    requires m <= n <= |steps| && !EvictedBetween(steps, m, n, p) && p in Run(timeout, steps, m).cache
    ensures p in Run(timeout, steps, n).cache
    ensures Run(timeout, steps, n).cache[p] == Run(timeout, steps, m).cache[p]
    decreases n - m
  {
    hide Next;
    if m < n {
      assert !EvictedBetween(steps, m, n - 1, p);
      CacheStays(timeout, steps, m, n - 1, p);
      CacheStep(Run(timeout, steps, n - 1), steps[n - 1], p);
    }
  }

  lemma {:induction false} CacheRenews(timeout: nat, steps: seq<Step>, m: nat, n: nat, p: nat, floor: nat)
    requires m <= n <= |steps| && Run(timeout, steps, m).nextLock >= floor
    requires p in Run(timeout, steps, m).cache ==> Run(timeout, steps, m).cache[p] >= floor
    ensures Run(timeout, steps, n).nextLock >= floor
    ensures p in Run(timeout, steps, n).cache ==> Run(timeout, steps, n).cache[p] >= floor
    decreases n - m
  {
    hide Next;
    if m < n {
      CacheRenews(timeout, steps, m, n - 1, p, floor);
      CacheStep(Run(timeout, steps, n - 1), steps[n - 1], p);
    }
  }

  lemma {:induction false} LockCountGrows(timeout: nat, steps: seq<Step>, m: nat, n: nat)
    requires m <= n <= |steps|
    ensures Run(timeout, steps, m).nextLock <= Run(timeout, steps, n).nextLock
    decreases n - m
  {
    hide Next;
    if m < n {
      LockCountGrows(timeout, steps, m, n - 1);
      CacheStep(Run(timeout, steps, n - 1), steps[n - 1], 0);
    }
  }

  /**
   * Two look-ups of a run lead to the same lock object if and only if they were made in one process
   * and its cache did not lose its entry in between.
   */
  lemma SameLockIff(timeout: nat, steps: seq<Step>, m: nat, n: nat, t: Task, u: Task)
    requires m < n && LooksUp(timeout, steps, m, t) && LooksUp(timeout, steps, n, u)
    ensures LockFound(timeout, steps, m, t) == LockFound(timeout, steps, n, u)
            <==> t.process == u.process && !EvictedBetween(steps, m, n, t.process)
  {
    hide Run, OwnersFit, Owners, LockFound;
    FoundIsCached(timeout, steps, m, t);
    FoundIsCached(timeout, steps, n, u);
    if t.process != u.process {
      RunOwners(timeout, steps, m + 1);
      RunOwners(timeout, steps, n + 1);
      OwnersOnlyGrow(timeout, steps, m + 1, n + 1);
      FitCounts(Run(timeout, steps, m + 1), Owners(timeout, steps, m + 1));
      FitCounts(Run(timeout, steps, n + 1), Owners(timeout, steps, n + 1));
    } else if !EvictedBetween(steps, m, n, t.process) {
      assert !EvictedBetween(steps, m + 1, n, t.process);
      CacheStays(timeout, steps, m + 1, n, t.process);
    } else {
      var k :| m <= k < n && steps[k] == Evict(t.process);
      EvictedIsRenewed(timeout, steps, m, k, n, t);
    }
  }

  lemma EvictedIsRenewed(timeout: nat, steps: seq<Step>, m: nat, k: nat, n: nat, t: Task)
    requires m <= k < n <= |steps| && LooksUp(timeout, steps, m, t) && steps[k] == Evict(t.process)
    requires LockFound(timeout, steps, m, t).Some?
    ensures LockFound(timeout, steps, m, t).value < Run(timeout, steps, n).nextLock
    ensures t.process in Run(timeout, steps, n).cache ==>
              Run(timeout, steps, n).cache[t.process] > LockFound(timeout, steps, m, t).value
  {
    hide Next, OwnersFit, Owners, LockFound, LooksUp;
    FoundIsCached(timeout, steps, m, t);
    RunOwners(timeout, steps, m + 1);
    FitCounts(Run(timeout, steps, m + 1), Owners(timeout, steps, m + 1));
    if m < k {
      LockCountGrows(timeout, steps, m + 1, k);
    }
    CacheStep(Run(timeout, steps, k), steps[k], t.process);
    assert Run(timeout, steps, k + 1) == Next(Run(timeout, steps, k), steps[k]);
    CacheRenews(timeout, steps, k + 1, n, t.process, LockFound(timeout, steps, m, t).value + 1);
  }

  // ---------------------------------------------------------------- how long a lease lasts

  function TicksIn(steps: seq<Step>, m: nat, n: nat): nat
    requires m <= n <= |steps|
    decreases n - m
  {
    if m == n then 0 else TicksIn(steps, m, n - 1) + (if steps[n - 1] == Tick then 1 else 0)
  }

  lemma ClockStep(s: State, step: Step)
    ensures Next(s, step).now == s.now + (if step == Tick then 1 else 0) && Next(s, step).timeout == s.timeout
  {
    hide Live, OwnedBy;
  }

  lemma {:induction false} ClockRuns(timeout: nat, steps: seq<Step>, m: nat, n: nat)
    requires m <= n <= |steps|
    ensures Run(timeout, steps, n).now == Run(timeout, steps, m).now + TicksIn(steps, m, n)
    ensures Run(timeout, steps, n).timeout == Run(timeout, steps, m).timeout
    decreases n - m
  {
    hide Next;
    if m < n {
      ClockRuns(timeout, steps, m, n - 1);
      ClockStep(Run(timeout, steps, n - 1), steps[n - 1]);
    }
  }

  lemma TakenExpires(timeout: nat, steps: seq<Step>, m: nat, u: Task, lease: Lease)
    requires Took(timeout, steps, m, u, lease) && TokensFit(Run(timeout, steps, m))
    ensures lease.expires == Run(timeout, steps, m).now + Run(timeout, steps, m).timeout
  {
    assert Run(timeout, steps, m + 1) == Next(Run(timeout, steps, m), steps[m]);
    hide Run, Live;
  }

  /**
   * In every run an attempt succeeds if and only if there is no lease, or the one there is was taken
   * at least `timeout` ticks before.
   */
  lemma AttemptSucceedsIff(timeout: nat, steps: seq<Step>, n: nat, t: Task)
    requires n < |steps| && steps[n] == TryAcquire(t) && PhaseOf(Run(timeout, steps, n), t).Trying?
    ensures PhaseOf(Run(timeout, steps, n + 1), t).Inside?
            <==> forall m: nat, u | m < n && Run(timeout, steps, n).lease.Some? &&
                                    Took(timeout, steps, m, u, Run(timeout, steps, n).lease.value) ::
                   TicksIn(steps, m, n) >= timeout
  {
    var s := Run(timeout, steps, n);
    assert PhaseOf(Run(timeout, steps, n + 1), t).Inside? <==> !Live(s);
    hide Next, Took, Run;
    if s.lease.Some? {
      LeaseWasTaken(timeout, steps, n);
      forall m: nat, u | m < n && Took(timeout, steps, m, u, s.lease.value)
        ensures Live(s) <==> TicksIn(steps, m, n) < timeout
      {
        RunTokensFit(timeout, steps, m);
        TakenExpires(timeout, steps, m, u, s.lease.value);
        ClockRuns(timeout, steps, m, n);
        TimeoutStays(timeout, steps, m);
      }
    }
  }

  lemma TimeoutStays(timeout: nat, steps: seq<Step>, m: nat)
    requires m <= |steps|
    ensures Run(timeout, steps, m).timeout == timeout
  {
    ClockRuns(timeout, steps, 0, m);
  }

  // ---------------------------------------------------------------- a token is given up once

  predicate SameToken(p: Phase, q: Phase) {
    p.Releasing? && q.Releasing? && p.expected == q.expected
  }

  /** A token on its way to Redis is in no lock object and on no other way. */
  ghost predicate GivenUp(s: State) {
    && (forall t <- s.tasks, l <- s.tokens :: s.tasks[t].Releasing? ==> s.tokens[l] != s.tasks[t].expected)
    && (forall t, u :: t in s.tasks && u in s.tasks && SameToken(s.tasks[t], s.tasks[u]) ==> t == u)
  }

  lemma GivenUpStays(s: State, step: Step)
    requires GivenUp(s) && TokensFit(s)
    ensures GivenUp(Next(s, step))
  {
    if step.TryAcquire? {
      AcquireGivesUpNone(s, step.task);
    } else if step.BeginRelease? {
      BeginGivesUpOne(s, step.task);
    } else {
      OtherStepsIssueNothing(s, step);
      hide Next;
    }
  }

  lemma AcquireGivesUpNone(s: State, t: Task)
    requires GivenUp(s) && TokensFit(s)
    ensures GivenUp(TryAcquireStep(s, t))
  {
    var s' := TryAcquireStep(s, t);
    if s' != s {
      forall u | u in s'.tasks && s'.tasks[u].Releasing?
        ensures u in s.tasks && s.tasks[u] == s'.tasks[u] && s.tasks[u].expected < |s.issued|
      {
        assert IssuedTo(s, s.tasks[u].expected, s.tasks[u].lock);
      }
      hide Live, IssuedTo;
    }
  }

  lemma BeginGivesUpOne(s: State, t: Task)
    requires GivenUp(s) && TokensFit(s)
    ensures GivenUp(Next(s, BeginRelease(t)))
  {
    var p := PhaseOf(s, t);
    var s' := Next(s, BeginRelease(t));
    if p.Owned? && p.lock in s.tokens {
      forall l | l in s.tokens && s.tokens[l] == s.tokens[p.lock]
        ensures l == p.lock
      {
        assert IssuedTo(s, s.tokens[l], l) && IssuedTo(s, s.tokens[p.lock], p.lock);
      }
      hide IssuedTo;
    }
  }

  /** In every run a token is on its way to Redis in at most one task, and then in no lock object. */
  lemma {:induction false} TokenIsReleasedOnce(timeout: nat, steps: seq<Step>, n: nat)
    requires n <= |steps|
    ensures GivenUp(Run(timeout, steps, n))
  {
    hide Next, TokensFit;
    if n <= 0 {
    } else {
      TokenIsReleasedOnce(timeout, steps, n - 1);
      RunTokensFit(timeout, steps, n - 1);
      hide GivenUp;
      GivenUpStays(Run(timeout, steps, n - 1), steps[n - 1]);
    }
  }
}
