/**
 * The keyed mutex over leased Redis locks, for one key: any number of processes, each with its
 * own expiring cache of lock objects, and any number of tasks in each. A step is what happens
 * between two awaits. Redis is assumed to do SET-if-absent with expiry, GET and
 * compare-and-delete atomically, and to hand out tokens never used before.
 */
module KeyedMutex {
  import opened Prelude

  datatype Task = Task(process: nat, number: nat)

  /** A lease taken: through which lock object, under which token, and when. */
  datatype Hold = Hold(lock: nat, token: nat, since: nat)

  /** The lock's entry in Redis; `via` is the lock object it was set through. */
  datatype Lease = Lease(token: nat, expires: nat, via: nat)

  /** Where a task is; `hold` is what it acquired and has not finished giving up. */
  datatype Phase =
    | Out
    | Trying(lock: nat)
    | Inside(held: Hold)
    | Exiting(lock: nat, hold: Option<Hold>)
    | Checked(lock: nat, hold: Option<Hold>)
    | Owned(lock: nat, hold: Option<Hold>)
    | Releasing(lock: nat, expected: nat, hold: Option<Hold>)

  /** `tokens` holds the token inside each lock object, `issued` the lock object of every token so far. */
  datatype State = State(
    timeout: nat,
    now: nat,
    lease: Option<Lease>,
    cache: map<nat, nat>,
    tokens: map<nat, nat>,
    issued: seq<nat>,
    nextLock: nat,
    tasks: map<Task, Phase>)

  function Initial(timeout: nat): State {
    State(timeout, 0, None, map[], map[], [], 0, map[])
  }

  function PhaseOf(s: State, t: Task): Phase {
    if t in s.tasks then s.tasks[t] else Out
  }

  function Move(s: State, t: Task, p: Phase): State {
    s.(tasks := s.tasks[t := p])
  }

  predicate Live(s: State) {
    s.lease.Some? && s.now < s.lease.value.expires
  }

  /** `lock.owned()`: the live lease carries the lock object's token. */
  predicate OwnedBy(s: State, lock: nat) {
    Live(s) && lock in s.tokens && s.tokens[lock] == s.lease.value.token
  }

  // ---------------------------------------------------------------- steps

  datatype Step =
    | Tick
    | Evict(process: nat)
    | LookUp(task: Task)
    | TryAcquire(task: Task)
    | Leave(task: Task)
    | ReleaseOwn(task: Task)
    | ReleaseStray(task: Task)
    | CheckLocked(task: Task)
    | CheckOwned(task: Task)
    | BeginRelease(task: Task)
    | EndRelease(task: Task)

  /** The cached lock object of the task's process, created if it is missing. */
  function LookUpStep(s: State, t: Task): State {
    if PhaseOf(s, t) != Out then s
    else if t.process in s.cache then Move(s, t, Trying(s.cache[t.process]))
    else Move(s.(cache := s.cache[t.process := s.nextLock], nextLock := s.nextLock + 1), t, Trying(s.nextLock))
  }

  /** SET if absent, with a fresh token. */
  function TryAcquireStep(s: State, t: Task): State {
    var p := PhaseOf(s, t);
    if !p.Trying? || Live(s) then s
    else
      var token := |s.issued|;
      Move(s.(lease := Some(Lease(token, s.now + s.timeout, p.lock)),
              tokens := s.tokens[p.lock := token],
              issued := s.issued + [p.lock]),
           t, Inside(Hold(p.lock, token, s.now)))
  }

  /** `release(key)`: the exit sequence on whatever lock object is cached now, if any. */
  function ReleaseStep(s: State, t: Task, hold: Option<Hold>): State {
    if t.process in s.cache then Move(s, t, Exiting(s.cache[t.process], hold)) else Move(s, t, Out)
  }

  function Next(s: State, step: Step): State {
    match step
    case Tick => s.(now := s.now + 1)
    case Evict(p) => s.(cache := s.cache - {p})
    case LookUp(t) => LookUpStep(s, t)
    case TryAcquire(t) => TryAcquireStep(s, t)
    case Leave(t) =>
      var p := PhaseOf(s, t);
      if p.Inside? then Move(s, t, Exiting(p.held.lock, Some(p.held))) else s
    case ReleaseOwn(t) =>
      var p := PhaseOf(s, t);
      if p.Inside? then ReleaseStep(s, t, Some(p.held)) else s
    case ReleaseStray(t) =>
      if PhaseOf(s, t) == Out then ReleaseStep(s, t, None) else s
    case CheckLocked(t) =>
      var p := PhaseOf(s, t);
      if !p.Exiting? then s else Move(s, t, if Live(s) then Checked(p.lock, p.hold) else Out)
    case CheckOwned(t) =>
      var p := PhaseOf(s, t);
      if !p.Checked? then s else Move(s, t, if OwnedBy(s, p.lock) then Owned(p.lock, p.hold) else Out)
    case BeginRelease(t) =>
      var p := PhaseOf(s, t);
      if !p.Owned? then s
      else if p.lock !in s.tokens then Move(s, t, Out)
      else Move(s.(tokens := s.tokens - {p.lock}), t, Releasing(p.lock, s.tokens[p.lock], p.hold))
    case EndRelease(t) =>
      var p := PhaseOf(s, t);
      if !p.Releasing? then s
      else Move(if Live(s) && s.lease.value.token == p.expected then s.(lease := None) else s, t, Out)
  }

  // ---------------------------------------------------------------- mutual exclusion

  /** The task has acquired and not finished giving up. */
  function HoldOf(p: Phase): Option<Hold> {
    match p
    case Inside(h) => Some(h)
    case Exiting(_, h) => h
    case Checked(_, h) => h
    case Owned(_, h) => h
    case Releasing(_, _, h) => h
    case _ => None
  }

  /** Every critical section, with its release, is within its lease. */
  ghost predicate Timely(s: State) {
    forall t <- s.tasks :: HoldOf(s.tasks[t]).Some? ==> s.now < HoldOf(s.tasks[t]).value.since + s.timeout
  }

  /** Only holders run the exit sequence. */
  ghost predicate NoStrays(s: State) {
    forall t <- s.tasks :: s.tasks[t].Out? || s.tasks[t].Trying? || HoldOf(s.tasks[t]).Some?
  }

  /** A holder's lease is the one in Redis. */
  ghost predicate HoldsLease(s: State, h: Hold) {
    s.lease == Some(Lease(h.token, h.since + s.timeout, h.lock))
  }

  /** What the phase says about the lock object the task is working on. */
  ghost predicate PhaseFits(s: State, p: Phase) {
    match p
    case Inside(h) => HoldsLease(s, h) && h.lock in s.tokens && s.tokens[h.lock] == h.token
    case Exiting(l, Some(h)) => HoldsLease(s, h) && (l == h.lock ==> l in s.tokens && s.tokens[l] == h.token)
    case Checked(l, Some(h)) => HoldsLease(s, h) && (l == h.lock ==> l in s.tokens && s.tokens[l] == h.token)
    case Owned(l, Some(h)) => HoldsLease(s, h) && l == h.lock && l in s.tokens && s.tokens[l] == h.token
    case Releasing(l, e, Some(h)) => HoldsLease(s, h) && l == h.lock && e == h.token
    case _ => true
  }

  ghost predicate IssuedTo(s: State, token: nat, lock: nat) {
    token < |s.issued| && s.issued[token] == lock
  }

  /** Tokens lead back to the lock object they were issued through. */
  ghost predicate TokensFit(s: State) {
    && (forall l <- s.tokens :: IssuedTo(s, s.tokens[l], l))
    && (s.lease.Some? ==> IssuedTo(s, s.lease.value.token, s.lease.value.via))
    && (forall t <- s.tasks :: s.tasks[t].Releasing? ==> IssuedTo(s, s.tasks[t].expected, s.tasks[t].lock))
  }

  ghost predicate Exclusive(s: State) {
    forall t, u :: t in s.tasks && u in s.tasks && HoldOf(s.tasks[t]).Some? && HoldOf(s.tasks[u]).Some? ==> t == u
  }

  ghost predicate Safe(s: State) {
    && TokensFit(s) && NoStrays(s) && Exclusive(s)
    && (forall t <- s.tasks :: PhaseFits(s, s.tasks[t]))
  }

  lemma IssuedStays(s: State, step: Step)
    ensures forall k: nat, l :: IssuedTo(s, k, l) ==> IssuedTo(Next(s, step), k, l)
  {
  }

  /** Tokens stay fitting on every step, whatever the timing. */
  lemma TokensStayFit(s: State, step: Step)
    requires TokensFit(s)
    ensures TokensFit(Next(s, step))
  {
    IssuedStays(s, step);
    if step.TryAcquire? {
      AcquireStaysFit(s, step.task);
    } else if step.BeginRelease? {
      BeginReleaseStaysFit(s, step.task);
    } else {
      OtherStepsIssueNothing(s, step);
      hide IssuedTo, Next;
    }
  }

  lemma OtherStepsIssueNothing(s: State, step: Step)
    requires !step.TryAcquire? && !step.BeginRelease?
    ensures var s' := Next(s, step);
            && s'.tokens == s.tokens && s'.issued == s.issued && (s'.lease == s.lease || s'.lease == None)
            && (forall t <- s'.tasks :: s'.tasks[t].Releasing? ==> t in s.tasks && s.tasks[t] == s'.tasks[t])
  {
    hide Live, OwnedBy;
  }

  lemma AcquireStaysFit(s: State, t: Task)
    requires TokensFit(s)
    ensures TokensFit(TryAcquireStep(s, t))
  {
    var s' := TryAcquireStep(s, t);
    assert forall k: nat, l :: IssuedTo(s, k, l) ==> IssuedTo(s', k, l);
    if s' != s {
      assert IssuedTo(s', |s.issued|, PhaseOf(s, t).lock);
      hide IssuedTo, Live;
    }
  }

  lemma BeginReleaseStaysFit(s: State, t: Task)
    requires TokensFit(s)
    ensures TokensFit(Next(s, BeginRelease(t)))
  {
    var s' := Next(s, BeginRelease(t));
    assert forall k: nat, l :: IssuedTo(s, k, l) <==> IssuedTo(s', k, l);
    var p := PhaseOf(s, t);
    if p.Owned? && p.lock in s.tokens {
      assert IssuedTo(s, s.tokens[p.lock], p.lock);
    }
    hide IssuedTo;
  }

  /** A task moves on while Redis and the lock objects stay as they are. */
  lemma MoveIsSafe(s: State, t: Task, p: Phase)
    requires Safe(s) && PhaseFits(s, p) && !p.Releasing?
    requires p.Out? || p.Trying? || (HoldOf(p).Some? && HoldOf(p) == HoldOf(PhaseOf(s, t)))
    ensures Safe(Move(s, t, p))
  {
    var s' := Move(s, t, p);
    forall u | u in s'.tasks
      ensures PhaseFits(s', s'.tasks[u])
    {
      assert PhaseFits(s, s'.tasks[u]);
    }
  }

  lemma FrameIsSafe(s: State, s': State)
    requires Safe(s)
    requires s'.tasks == s.tasks && s'.lease == s.lease && s'.tokens == s.tokens && s'.issued == s.issued
             && s'.timeout == s.timeout
    ensures Safe(s')
  {
    forall u | u in s'.tasks
      ensures PhaseFits(s', s'.tasks[u])
    {
      assert PhaseFits(s, s.tasks[u]);
    }
  }

  /** Under the timing assumption nobody holds while the lease is not live. */
  lemma NoHolderWhenFree(s: State)
    requires Safe(s) && Timely(s) && !Live(s)
    ensures forall t <- s.tasks :: HoldOf(s.tasks[t]).None?
  {
    forall t | t in s.tasks
      ensures HoldOf(s.tasks[t]).None?
    {
      assert PhaseFits(s, s.tasks[t]);
    }
  }

  lemma AcquireIsSafe(s: State, t: Task)
    requires Safe(s) && Timely(s)
    ensures Safe(TryAcquireStep(s, t))
  {
    var p := PhaseOf(s, t);
    var s' := TryAcquireStep(s, t);
    TokensStayFit(s, TryAcquire(t));
    if p.Trying? && !Live(s) {
      NoHolderWhenFree(s);
      forall u | u in s'.tasks
        ensures PhaseFits(s', s'.tasks[u])
      {
        if u != t {
          assert HoldOf(s.tasks[u]).None?;
        }
      }
    }
  }

  lemma BeginIsSafe(s: State, t: Task)
    requires Safe(s)
    ensures Safe(Next(s, BeginRelease(t)))
  {
    var p := PhaseOf(s, t);
    var s' := Next(s, BeginRelease(t));
    TokensStayFit(s, BeginRelease(t));
    if p.Owned? {
      assert PhaseFits(s, p) && p.hold.Some?;
      forall u | u in s'.tasks
        ensures PhaseFits(s', s'.tasks[u])
      {
        if u != t {
          assert HoldOf(s.tasks[u]).None?;
        }
      }
    }
  }

  lemma EndIsSafe(s: State, t: Task)
    requires Safe(s)
    ensures Safe(Next(s, EndRelease(t)))
  {
    var p := PhaseOf(s, t);
    var s' := Next(s, EndRelease(t));
    TokensStayFit(s, EndRelease(t));
    if p.Releasing? {
      assert PhaseFits(s, p) && p.hold.Some?;
      forall u | u in s'.tasks
        ensures PhaseFits(s', s'.tasks[u])
      {
        if u != t {
          assert HoldOf(s.tasks[u]).None?;
        }
      }
    }
  }

  /** Every step of a timely run without stray releases keeps the invariant. */
  lemma SafeStep(s: State, step: Step)
    requires Safe(s) && Timely(s) && !step.ReleaseStray?
    ensures Safe(Next(s, step))
  {
    match step
    case Tick => FrameIsSafe(s, Next(s, step));
    case Evict(_) => FrameIsSafe(s, Next(s, step));
    case LookUp(t) => LookUpIsSafe(s, t);
    case TryAcquire(t) => AcquireIsSafe(s, t);
    case BeginRelease(t) => BeginIsSafe(s, t);
    case EndRelease(t) => EndIsSafe(s, t);
    case Leave(t) => ExitStepIsSafe(s, step, t);
    case ReleaseOwn(t) => ExitStepIsSafe(s, step, t);
    case CheckLocked(t) => ExitStepIsSafe(s, step, t);
    case CheckOwned(t) => ExitStepIsSafe(s, step, t);
  }

  lemma LookUpIsSafe(s: State, t: Task)
    requires Safe(s)
    ensures Safe(LookUpStep(s, t))
  {
    if PhaseOf(s, t) == Out {
      if t.process in s.cache {
        MoveIsSafe(s, t, Trying(s.cache[t.process]));
      } else {
        var r := s.(cache := s.cache[t.process := s.nextLock], nextLock := s.nextLock + 1);
        FrameIsSafe(s, r);
        MoveIsSafe(r, t, Trying(s.nextLock));
      }
    }
  }

  lemma ExitStepIsSafe(s: State, step: Step, t: Task)
    requires Safe(s)
    requires step in {Leave(t), ReleaseOwn(t), CheckLocked(t), CheckOwned(t)}
    ensures Safe(Next(s, step))
  {
    var p := PhaseOf(s, t);
    var p' := PhaseOf(Next(s, step), t);
    if Next(s, step) != s {
      assert PhaseFits(s, p);
      assert PhaseFits(s, p');
      MoveIsSafe(s, t, p');
    }
  }

  // ---------------------------------------------------------------- runs

  /** The state after each of the first `n` steps. */
  function Run(timeout: nat, steps: seq<Step>, n: nat): State
    requires n <= |steps|
  {
    if n == 0 then Initial(timeout) else Next(Run(timeout, steps, n - 1), steps[n - 1])
  }

  ghost predicate TimelyRun(timeout: nat, steps: seq<Step>) {
    forall n :: 0 <= n <= |steps| ==> Timely(Run(timeout, steps, n))
  }

  lemma {:induction false} RunIsSafe(timeout: nat, steps: seq<Step>, n: nat)
    requires n <= |steps| && TimelyRun(timeout, steps)
    requires forall step <- steps :: !step.ReleaseStray?
    ensures Safe(Run(timeout, steps, n))
  {
    if n <= 0 {
    } else {
      RunIsSafe(timeout, steps, n - 1);
      SafeStep(Run(timeout, steps, n - 1), steps[n - 1]);
    }
  }

  lemma {:induction false} RunTokensFit(timeout: nat, steps: seq<Step>, n: nat)
    requires n <= |steps|
    ensures TokensFit(Run(timeout, steps, n))
  {
    if n <= 0 {
    } else {
      RunTokensFit(timeout, steps, n - 1);
      TokensStayFit(Run(timeout, steps, n - 1), steps[n - 1]);
    }
  }

  // ---------------------------------------------------------------- main results

  /**
   * Whatever the interleaving of tasks and processes, and however often a cache drops and
   * recreates its lock object: if each critical section and its release finish within the lease,
   * at most one task is inside at any time.
   */
  lemma AtMostOneInside(timeout: nat, steps: seq<Step>, n: nat, t: Task, u: Task)
    requires n <= |steps| && TimelyRun(timeout, steps)
    requires forall step <- steps :: !step.ReleaseStray?
    requires PhaseOf(Run(timeout, steps, n), t).Inside? && PhaseOf(Run(timeout, steps, n), u).Inside?
    ensures t == u
  {
    RunIsSafe(timeout, steps, n);
  }

  /** In such a run leaving `locked` never finds the lease gone: it ends with the lock free. */
  lemma TimelyExitFrees(timeout: nat, steps: seq<Step>, n: nat, t: Task)
    requires n <= |steps| && TimelyRun(timeout, steps)
    requires forall step <- steps :: !step.ReleaseStray?
    requires Leaving(PhaseOf(Run(timeout, steps, n), t))
    ensures var s := Run(timeout, steps, n);
            && (PhaseOf(s, t).Exiting? ==> PhaseOf(Next(s, CheckLocked(t)), t).Checked?)
            && (PhaseOf(s, t).Checked? ==> PhaseOf(Next(s, CheckOwned(t)), t).Owned?)
            && (PhaseOf(s, t).Owned? ==> PhaseOf(Next(s, BeginRelease(t)), t).Releasing?)
            && (PhaseOf(s, t).Releasing?
                ==> Next(s, EndRelease(t)).lease == None && PhaseOf(Next(s, EndRelease(t)), t).Out?)
  {
    RunIsSafe(timeout, steps, n);
    var s := Run(timeout, steps, n);
    hide *;
    TimelyNow(timeout, steps, n);
    GuardsPass(s, t);
    ReleaseGoesOn(s, t);
  }

  lemma TimelyNow(timeout: nat, steps: seq<Step>, n: nat)
    requires n <= |steps| && TimelyRun(timeout, steps)
    ensures Timely(Run(timeout, steps, n))
  {
    hide Run, Timely;
  }

  /** The task is on its way out of the section whose lease it holds. */
  predicate Leaving(p: Phase) {
    (p.Exiting? || p.Checked? || p.Owned? || p.Releasing?) && HoldOf(p).Some? && p.lock == HoldOf(p).value.lock
  }

  lemma HolderFits(s: State, t: Task)
    requires Safe(s) && Timely(s) && Leaving(PhaseOf(s, t))
    ensures var h := HoldOf(PhaseOf(s, t)).value;
            && PhaseFits(s, PhaseOf(s, t)) && HoldsLease(s, h) && Live(s)
  {
    assert PhaseFits(s, s.tasks[t]);
  }

  lemma GuardsPass(s: State, t: Task)
    requires Safe(s) && Timely(s) && Leaving(PhaseOf(s, t))
    ensures PhaseOf(s, t).Exiting? ==> PhaseOf(Next(s, CheckLocked(t)), t).Checked?
    ensures PhaseOf(s, t).Checked? ==> PhaseOf(Next(s, CheckOwned(t)), t).Owned?
  {
    HolderFits(s, t);
    hide Safe, Timely;
  }

  lemma ReleaseGoesOn(s: State, t: Task)
    requires Safe(s) && Timely(s) && Leaving(PhaseOf(s, t))
    ensures PhaseOf(s, t).Owned? ==> PhaseOf(Next(s, BeginRelease(t)), t).Releasing?
    ensures PhaseOf(s, t).Releasing?
            ==> Next(s, EndRelease(t)).lease == None && PhaseOf(Next(s, EndRelease(t)), t).Out?
  {
    HolderFits(s, t);
    hide Safe, Timely;
  }

  /**
   * With no assumption on timing or on who calls release: a release through one lock object never
   * removes a lease that was taken through another.
   */
  lemma ReleaseRemovesOwnLease(timeout: nat, steps: seq<Step>, n: nat)
    requires n < |steps|
    requires var s := Run(timeout, steps, n); s.lease.Some? && Next(s, steps[n]).lease != s.lease
    ensures var s := Run(timeout, steps, n);
            || (!Live(s) && steps[n].TryAcquire?)
            || (steps[n].EndRelease? && PhaseOf(s, steps[n].task).lock == s.lease.value.via)
  {
    RunTokensFit(timeout, steps, n);
  }

  // ---------------------------------------------------------------- where the assumptions are needed

  function After(s: State, steps: seq<Step>): State
    decreases |steps|
  {
    if steps == [] then s else After(Next(s, steps[0]), steps[1..])
  }

  /** The rest of an exit, one await after the other. */
  function ExitSteps(t: Task): seq<Step> {
    [CheckLocked(t), CheckOwned(t), BeginRelease(t), EndRelease(t)]
  }

  lemma ExitUnfolds(s: State, t: Task)
    ensures After(s, ExitSteps(t)) == Next(Next(Next(Next(s, CheckLocked(t)), CheckOwned(t)), BeginRelease(t)),
                                           EndRelease(t))
  {
    hide Next;
    var s1 := Next(s, CheckLocked(t));
    var s2 := Next(s1, CheckOwned(t));
    var s3 := Next(s2, BeginRelease(t));
    var two, one := [BeginRelease(t), EndRelease(t)], [EndRelease(t)];
    var three := [CheckOwned(t)] + two;
    assert ExitSteps(t)[1..] == three && three[1..] == two && two[1..] == one && one[1..] == [];
    assert After(s, ExitSteps(t)) == After(s1, three);
    assert After(s1, three) == After(s2, two);
    assert After(s2, two) == After(s3, one);
    assert After(s3, one) == Next(s3, EndRelease(t));
  }

  /** An exit frees a live lease exactly when the lock object it works on carries the lease's token. */
  lemma ExitFreesIffOwned(s: State, t: Task)
    requires PhaseOf(s, t).Exiting? && Live(s)
    ensures var s' := After(s, ExitSteps(t));
            && PhaseOf(s', t).Out?
            && (s'.lease == None <==> OwnedBy(s, PhaseOf(s, t).lock))
            && s'.now == s.now
            && (forall u :: u != t ==> PhaseOf(s', u) == PhaseOf(s, u))
  {
    ExitUnfolds(s, t);
  }

  /**
   * A caller that acquired a lock and gives it up by key frees the lease if and only if the cache
   * still holds the lock object it was acquired through.
   */
  lemma ReleaseByKeyFreesIffStillCached(timeout: nat, steps: seq<Step>, n: nat, t: Task)
    requires n <= |steps| && TimelyRun(timeout, steps)
    requires forall step <- steps :: !step.ReleaseStray?
    requires PhaseOf(Run(timeout, steps, n), t).Inside?
    ensures var s := Run(timeout, steps, n);
            After(Next(s, ReleaseOwn(t)), ExitSteps(t)).lease == None
            <==> t.process in s.cache && s.cache[t.process] == PhaseOf(s, t).held.lock
  {
    RunIsSafe(timeout, steps, n);
    OwnReleaseFreesIffCached(Run(timeout, steps, n), t);
  }

  /** Leaving `locked` frees it whatever the cache holds: the exit keeps the lock object it was given. */
  lemma LeavingFrees(timeout: nat, steps: seq<Step>, n: nat, t: Task)
    requires n <= |steps| && TimelyRun(timeout, steps)
    requires forall step <- steps :: !step.ReleaseStray?
    requires PhaseOf(Run(timeout, steps, n), t).Inside?
    ensures After(Next(Run(timeout, steps, n), Leave(t)), ExitSteps(t)).lease == None
  {
    var s := Run(timeout, steps, n);
    RunIsSafe(timeout, steps, n);
    CachedIsOwned(s, t, PhaseOf(s, t).held.lock);
    hide Safe, Timely, ExitSteps, Run;
    ExitFreesIffOwned(Next(s, Leave(t)), t);
  }

  lemma OwnReleaseFreesIffCached(s: State, t: Task)
    requires Safe(s) && Timely(s) && PhaseOf(s, t).Inside?
    ensures After(Next(s, ReleaseOwn(t)), ExitSteps(t)).lease == None
            <==> t.process in s.cache && s.cache[t.process] == PhaseOf(s, t).held.lock
  {
    var r := Next(s, ReleaseOwn(t));
    if t.process in s.cache {
      var l := s.cache[t.process];
      CachedIsOwned(s, t, l);
      hide Safe, Timely, ExitSteps;
      ExitFreesIffOwned(r, t);
    } else {
      CachedIsOwned(s, t, 0);
      ExitUnfolds(r, t);
      hide Safe, Timely, ExitSteps, After;
    }
  }

  lemma CachedIsOwned(s: State, t: Task, l: nat)
    requires Safe(s) && Timely(s) && PhaseOf(s, t).Inside?
    ensures Live(s) && (OwnedBy(s, l) <==> l == PhaseOf(s, t).held.lock)
  {
    var h := PhaseOf(s, t).held;
    assert PhaseFits(s, PhaseOf(s, t));
    assert IssuedTo(s, h.token, h.lock);
    assert l in s.tokens ==> IssuedTo(s, s.tokens[l], l);
  }

  /** A section that outlives its lease can end another task's: both used the same lock object. */
  lemma LateExitEndsAnother(s: State, late: Task, next: Task)
    requires late != next && s.timeout > 0 && !Live(s)
    requires PhaseOf(s, late).Inside? && PhaseOf(s, next) == Trying(PhaseOf(s, late).held.lock)
    ensures var s' := After(Next(Next(s, TryAcquire(next)), Leave(late)), ExitSteps(late));
            PhaseOf(s', next).Inside? && s'.lease == None
  {
    ExitFreesIffOwned(Next(Next(s, TryAcquire(next)), Leave(late)), late);
  }

  /** So can a release by key from a task that holds nothing, in the same process. */
  lemma StrayReleaseEndsAnother(s: State, holder: Task, stray: Task)
    requires holder != stray && PhaseOf(s, holder).Inside? && PhaseOf(s, stray).Out? && Live(s)
    requires OwnedBy(s, PhaseOf(s, holder).held.lock)
    requires stray.process in s.cache && s.cache[stray.process] == PhaseOf(s, holder).held.lock
    ensures var s' := After(Next(s, ReleaseStray(stray)), ExitSteps(stray));
            PhaseOf(s', holder).Inside? && s'.lease == None
  {
    ExitFreesIffOwned(Next(s, ReleaseStray(stray)), stray);
  }

  // ---------------------------------------------------------------- runs that get there

  lemma {:induction false} AfterSplits(s: State, a: seq<Step>, b: seq<Step>)
    ensures After(s, a + b) == After(After(s, a), b)
    decreases |a|
  {
    hide Next;
    if a == [] {
      assert a + b == b;
    } else {
      assert (a + b)[1..] == a[1..] + b;
      AfterSplits(Next(s, a[0]), a[1..], b);
    }
  }

  lemma {:induction false} RunIsAfter(timeout: nat, steps: seq<Step>, n: nat)
    requires n <= |steps|
    ensures Run(timeout, steps, n) == After(Initial(timeout), steps[..n])
  {
    hide Next, Initial;
    if n == 0 {
      assert steps[..0] == [];
    } else {
      RunIsAfter(timeout, steps, n - 1);
      assert steps[..n] == steps[..n - 1] + [steps[n - 1]];
      AfterSplits(Initial(timeout), steps[..n - 1], [steps[n - 1]]);
      OneStep(After(Initial(timeout), steps[..n - 1]), steps[n - 1]);
    }
  }

  lemma OneStep(s: State, step: Step)
    ensures After(s, [step]) == Next(s, step)
  {
    hide Next;
    assert [step][1..] == [];
  }

  function Ticks(n: nat): seq<Step> {
    if n == 0 then [] else [Tick] + Ticks(n - 1)
  }

  lemma {:induction false} TicksPass(s: State, n: nat)
    ensures After(s, Ticks(n)) == s.(now := s.now + n)
    decreases n
  {
    if n == 0 {
    } else {
      assert Ticks(n)[1..] == Ticks(n - 1);
      TicksPass(Next(s, Tick), n - 1);
    }
  }

  lemma ThreeSteps(s: State, a: Step, b: Step, c: Step)
    ensures After(s, [a, b, c]) == Next(Next(Next(s, a), b), c)
  {
    hide Next;
    assert [a, b, c][1..] == [b, c] && [b, c][1..] == [c] && [c][1..] == [];
    assert After(s, [a, b, c]) == After(Next(s, a), [b, c]) == After(Next(Next(s, a), b), [c]);
    OneStep(Next(Next(s, a), b), c);
  }

  function LateRun(timeout: nat, late: Task, next: Task): seq<Step> {
    [LookUp(late), LookUp(next), TryAcquire(late)] + Ticks(timeout) + [TryAcquire(next), Leave(late)] + ExitSteps(late)
  }

  /** For every timeout a run of two tasks of a process ends with the second one inside and its lease gone. */
  lemma LateExitInARun(timeout: nat, late: Task, next: Task)
    requires timeout > 0 && late != next && late.process == next.process
    ensures var steps := LateRun(timeout, late, next);
            var s := Run(timeout, steps, |steps|);
            PhaseOf(s, next).Inside? && s.lease == None
  {
    var steps := LateRun(timeout, late, next);
    var begin := [LookUp(late), LookUp(next), TryAcquire(late)];
    var s := After(Initial(timeout), begin);
    var t := s.(now := s.now + timeout);
    BothAreIn(timeout, late, next);
    RunIsAfter(timeout, steps, |steps|);
    assert steps[..|steps|] == steps;
    TicksPass(s, timeout);
    hide After, Ticks, Next, Initial, ExitSteps;
    AfterSplits(Initial(timeout), begin, Ticks(timeout));
    AfterSplits(Initial(timeout), begin + Ticks(timeout), [TryAcquire(next), Leave(late)]);
    AfterSplits(Initial(timeout), begin + Ticks(timeout) + [TryAcquire(next), Leave(late)], ExitSteps(late));
    TwoSteps(t, TryAcquire(next), Leave(late));
    LateExitEndsAnother(t, late, next);
  }

  lemma TwoSteps(s: State, a: Step, b: Step)
    ensures After(s, [a, b]) == Next(Next(s, a), b)
  {
    hide Next;
    assert [a, b][1..] == [b];
    OneStep(Next(s, a), b);
  }

  lemma BothAreIn(timeout: nat, late: Task, next: Task)
    requires timeout > 0 && late != next && late.process == next.process
    ensures var s := After(Initial(timeout), [LookUp(late), LookUp(next), TryAcquire(late)]);
            var t := s.(now := s.now + timeout);
            && PhaseOf(t, late).Inside? && PhaseOf(t, next) == Trying(PhaseOf(t, late).held.lock)
            && t.timeout == timeout && !Live(t)
  {
    ThreeSteps(Initial(timeout), LookUp(late), LookUp(next), TryAcquire(late));
  }

  /** And so does a run in which a task that never acquired the key releases it. */
  lemma StrayReleaseInARun(timeout: nat, holder: Task, stray: Task)
    requires timeout > 0 && holder != stray && holder.process == stray.process
    ensures var steps := [LookUp(holder), TryAcquire(holder), ReleaseStray(stray)] + ExitSteps(stray);
            var s := Run(timeout, steps, |steps|);
            PhaseOf(s, holder).Inside? && s.lease == None
  {
    var begin := [LookUp(holder), TryAcquire(holder), ReleaseStray(stray)];
    var steps := begin + ExitSteps(stray);
    RunIsAfter(timeout, steps, |steps|);
    assert steps[..|steps|] == steps;
    AfterSplits(Initial(timeout), begin, ExitSteps(stray));
    ThreeSteps(Initial(timeout), LookUp(holder), TryAcquire(holder), ReleaseStray(stray));
    hide After, ExitSteps;
    StrayReleaseEndsAnother(Next(Next(Initial(timeout), LookUp(holder)), TryAcquire(holder)), holder, stray);
  }

  // ---------------------------------------------------------------- the objects

  /** Redis, the caches and the lock objects; each method is one atomic section. */
  class World {
    const timeout: nat
    var now: nat
    var lease: Option<Lease>
    var cache: map<nat, nat>
    var tokens: map<nat, nat>
    var issued: seq<nat>
    var nextLock: nat
    var tasks: map<Task, Phase>

    constructor (timeout: nat)
      ensures Value() == Initial(timeout)
    {
      this.timeout := timeout;
      now, lease, cache, tokens, issued, nextLock, tasks := 0, None, map[], map[], [], 0, map[];
    }

    ghost function Value(): State
      reads this
    {
      State(timeout, now, lease, cache, tokens, issued, nextLock, tasks)
    }

    /** The part of `acquire` under the local lock. */
    method LookUpLock(t: Task)
      modifies this`cache, this`nextLock, this`tasks
      ensures Value() == LookUpStep(old(Value()), t)
    {
      if t in tasks && tasks[t] != Out {
        return;
      }
      if t.process !in cache {
        cache := cache[t.process := nextLock];
        nextLock := nextLock + 1;
      }
      tasks := tasks[t := Trying(cache[t.process])];
    }

    /** One attempt of `lock.acquire()`. */
    method SetIfAbsent(t: Task) returns (acquired: bool)
      requires t in tasks && tasks[t].Trying?
      modifies this`lease, this`tokens, this`issued, this`tasks
      ensures Value() == TryAcquireStep(old(Value()), t)
      ensures acquired <==> !Live(old(Value()))
    {
      var lock := tasks[t].lock;
      acquired := !(lease.Some? && now < lease.value.expires);
      if acquired {
        var token := |issued|;
        lease := Some(Lease(token, now + timeout, lock));
        tokens := tokens[lock := token];
        issued := issued + [lock];
        tasks := tasks[t := Inside(Hold(lock, token, now))];
      }
    }

    /** `lock.release()` up to its round trip: the lock object gives up its token. */
    method TakeToken(t: Task)
      requires t in tasks && tasks[t].Owned?
      modifies this`tokens, this`tasks
      ensures Value() == Next(old(Value()), BeginRelease(t))
    {
      var p := tasks[t];
      if p.lock !in tokens {
        tasks := tasks[t := Out];
      } else {
        tasks := tasks[t := Releasing(p.lock, tokens[p.lock], p.hold)];
        tokens := tokens - {p.lock};
      }
    }

    /** The compare-and-delete in Redis. */
    method CompareAndDelete(t: Task)
      requires t in tasks && tasks[t].Releasing?
      modifies this`lease, this`tasks
      ensures Value() == Next(old(Value()), EndRelease(t))
    {
      if lease.Some? && now < lease.value.expires && lease.value.token == tasks[t].expected {
        lease := None;
      }
      tasks := tasks[t := Out];
    }

    /** The two guards before a release. */
    method Guard(t: Task)
      requires t in tasks && (tasks[t].Exiting? || tasks[t].Checked?)
      modifies this`tasks
      ensures Value() == Next(old(Value()), if old(tasks[t]).Exiting? then CheckLocked(t) else CheckOwned(t))
    {
      var p := tasks[t];
      var live := lease.Some? && now < lease.value.expires;
      if p.Exiting? {
        tasks := tasks[t := if live then Checked(p.lock, p.hold) else Out];
      } else {
        var owned := live && p.lock in tokens && tokens[p.lock] == lease.value.token;
        tasks := tasks[t := if owned then Owned(p.lock, p.hold) else Out];
      }
    }

    /** The cache forgets the process's lock object. */
    method Expire(process: nat)
      modifies this`cache
      ensures Value() == Next(old(Value()), Evict(process))
    {
      cache := cache - {process};
    }
  }
}
