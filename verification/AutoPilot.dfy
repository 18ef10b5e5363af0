/** Nested AutoPilot executions: recursion depth and limit, and inherited permissions. */
module AutoPilot {
  import opened Permissions
  import opened Prelude

  /** The task's context variables. */
  datatype Context = Context(depth: nat, limit: Option<int>, inherited: Option<Permissions>)

  const TOP := Context(0, None, None)

  /** How an execution ends; only a cancellation goes on through its caller. */
  datatype Outcome = Completed | Failed | Cancelled

  /**
   * What one execution asks for and does: its own depth limit and permissions, how many nested
   * executions its copilot starts, whether merging permissions raises, and how it ends.
   */
  datatype Plan = Plan(
    maxDepth: int, permissions: Option<Permissions>, children: nat, mergeRaises: bool, ending: Outcome)

  /** A plan for every place in a possibly infinite tree of nested executions. */
  type Behaviour = seq<nat> -> Plan

  /** An execution that went past the recursion check, and the permissions it ran under. */
  datatype Visit = Visit(path: seq<nat>, permissions: Option<Permissions>)

  datatype Execution = Execution(outcome: Outcome, context: Context, visits: seq<Visit>)

  // ---------------------------------------------------------------- the helpers

  function Min(a: int, b: int): int {
    if a < b then a else b
  }

  /** The chain-wide limit when an execution with this limit of its own starts. */
  function NewLimit(c: Context, maxDepth: int): int {
    if c.limit.None? then maxDepth else Min(c.limit.value, maxDepth)
  }

  function Merged(permissions: Option<Permissions>, parent: Option<Permissions>,
                  all: set<string>): Option<Permissions> {
    if permissions.None? && parent.None? then None
    else
      var p := if permissions.None? then ALLOW_ALL else permissions.value;
      Some(if parent.None? then p else MergedWithParent(p, parent.value, all))
  }

  // ---------------------------------------------------------------- executions

  function Room(c: Context): nat {
    if c.limit.None? || c.limit.value <= c.depth then 0 else c.limit.value - c.depth
  }

  /**
   * One execution. Nesting ends because the room between depth and limit shrinks, and however it ends,
   * depth, limit and inherited permissions are afterwards what they were before.
   */
  function Execute(b: Behaviour, path: seq<nat>, all: set<string>, c: Context): (r: Execution)
    ensures r.context == c
    decreases if c.limit.None? then 1 else 0, Room(c), 1, 0
  {
    var plan := b(path);
    var limit := NewLimit(c, plan.maxDepth);
    if plan.maxDepth < 1 || c.depth >= limit then Execution(Failed, c, [])
    else if plan.mergeRaises then Execution(Failed, c, [Visit(path, None)])
    else
      var effective := Merged(plan.permissions, c.inherited, all);
      var inner := Context(c.depth + 1, Some(limit), effective);
      var r := Children(b, path, all, 0, inner);
      // The tokens restore depth and limit, and the permissions if they were set.
      Execution(r.outcome,
             Context(c.depth, c.limit, if effective.Some? then c.inherited else r.context.inherited),
             [Visit(path, effective)] + r.visits)
  }

  /** The nested executions from the `k`-th on; a cancelled one ends them all. */
  function Children(b: Behaviour, path: seq<nat>, all: set<string>, k: nat, c: Context): (r: Execution)
    requires c.limit.Some?
    ensures r.context == c
    decreases 0, Room(c), 2, if k < b(path).children then b(path).children - k else 0
  {
    if k >= b(path).children then Execution(b(path).ending, c, [])
    else
      var r := Execute(b, path + [k], all, c);
      if r.outcome.Cancelled? then Execution(Cancelled, r.context, r.visits)
      else
        var rest := Children(b, path, all, k + 1, r.context);
        Execution(rest.outcome, rest.context, r.visits + rest.visits)
  }

  // ---------------------------------------------------------------- the chain of live executions

  /** The depth limits of an execution and its callers, outermost first. */
  function Limits(b: Behaviour, path: seq<nat>): (m: seq<int>)
    ensures |m| == |path| + 1
  {
    seq(|path| + 1, i requires 0 <= i <= |path| => b(path[..i]).maxDepth)
  }

  predicate WithinLimits(b: Behaviour, path: seq<nat>) {
    forall i :: 0 <= i <= |path| ==> |path| + 1 <= b(path[..i]).maxDepth
  }

  /** The permissions of an execution and its callers, from the first that has any; no own permissions allow all. */
  function Chain(b: Behaviour, path: seq<nat>): seq<Permissions>
    decreases path
  {
    var before := if path == [] then [] else Chain(b, path[..|path| - 1]);
    match b(path).permissions
    case Some(p) => before + [p]
    case None => if before == [] then [] else before + [ALLOW_ALL]
  }

  /** What is in force for an execution: the ceiling of its chain. */
  function InForce(b: Behaviour, path: seq<nat>, all: set<string>): Option<Permissions> {
    if Chain(b, path) == [] then None else Some(Ceiling(Chain(b, path), all))
  }

  /** Merging along the way gives the ceiling of the chain. */
  lemma MergedAlongTheWay(b: Behaviour, path: seq<nat>, all: set<string>)
    ensures InForce(b, path, all)
         == Merged(b(path).permissions, if path == [] then None else InForce(b, path[..|path| - 1], all), all)
  {
    var chain := Chain(b, path);
    if chain != [] {
      var before := if path == [] then [] else Chain(b, path[..|path| - 1]);
      assert chain[..|chain| - 1] == before;
    }
  }

  /** The context in which the execution at `path` is started by its caller. */
  ghost predicate Fits(b: Behaviour, path: seq<nat>, all: set<string>, c: Context) {
    && c.depth == |path|
    && (path == [] ==> c == TOP)
    && (path != [] ==>
          && c.limit.Some? && (forall i :: 0 <= i < |path| ==> c.limit.value <= b(path[..i]).maxDepth)
          && (exists i :: 0 <= i < |path| && c.limit.value == b(path[..i]).maxDepth)
          && c.inherited == InForce(b, path[..|path| - 1], all))
  }

  /** Whether the recursion check passes: the chain, with this execution, is within everybody's limit. */
  lemma CheckPassesIff(b: Behaviour, path: seq<nat>, all: set<string>, c: Context)
    requires Fits(b, path, all, c)
    ensures !(b(path).maxDepth < 1 || c.depth >= NewLimit(c, b(path).maxDepth)) <==> WithinLimits(b, path)
  {
    assert path[..|path|] == path;
    if path != [] && WithinLimits(b, path) {
      var i :| 0 <= i < |path| && c.limit.value == b(path[..i]).maxDepth;
      assert |path| + 1 <= b(path[..i]).maxDepth;
    }
  }

  lemma FitsChild(b: Behaviour, path: seq<nat>, all: set<string>, c: Context, k: nat)
    requires Fits(b, path, all, c)
    ensures Fits(b, path + [k], all,
                 Context(c.depth + 1, Some(NewLimit(c, b(path).maxDepth)),
                         Merged(b(path).permissions, c.inherited, all)))
  {
    var child := path + [k];
    assert child[..|path|] == path && child[..|child| - 1] == path;
    MergedAlongTheWay(b, path, all);
    var limit := NewLimit(c, b(path).maxDepth);
    forall i | 0 <= i < |child|
      ensures limit <= b(child[..i]).maxDepth
    {
      if i < |path| {
        assert child[..i] == path[..i];
      }
    }
    if path != [] && limit != b(path).maxDepth {
      var i :| 0 <= i < |path| && c.limit.value == b(path[..i]).maxDepth;
      assert child[..i] == path[..i];
    } else {
      assert limit == b(child[..|path|]).maxDepth;
    }
  }

  /** What every visit of an execution shows. */
  ghost predicate Proper(b: Behaviour, path: seq<nat>, all: set<string>, v: Visit) {
    && path <= v.path && WithinLimits(b, v.path)
    && (!b(v.path).mergeRaises ==> v.permissions == InForce(b, v.path, all))
  }

  /** The visits of an execution: none, its own, or its own and those of its nested ones. */
  lemma VisitsOf(b: Behaviour, path: seq<nat>, all: set<string>, c: Context)
    ensures var plan, limit := b(path), NewLimit(c, b(path).maxDepth);
            var effective := Merged(plan.permissions, c.inherited, all);
            Execute(b, path, all, c).visits
            == if plan.maxDepth < 1 || c.depth >= limit then []
               else if plan.mergeRaises then [Visit(path, None)]
               else [Visit(path, effective)]
                    + Children(b, path, all, 0, Context(c.depth + 1, Some(limit), effective)).visits
  {
    hide Children, Merged, NewLimit;
  }

  lemma {:induction false} VisitsAreProper(b: Behaviour, path: seq<nat>, all: set<string>, c: Context)
    requires Fits(b, path, all, c)
    ensures forall v <- Execute(b, path, all, c).visits :: Proper(b, path, all, v)
    decreases if c.limit.None? then 1 else 0, Room(c), 1, 0
  {
    CheckPassesIff(b, path, all, c);
    VisitsOf(b, path, all, c);
    var plan := b(path);
    var limit := NewLimit(c, plan.maxDepth);
    var effective := Merged(plan.permissions, c.inherited, all);
    hide Execute, Children, Merged, InForce, Chain, WithinLimits;
    if plan.maxDepth >= 1 && c.depth < limit && !plan.mergeRaises {
      FitsChild(b, path, all, c, 0);
      assert (path + [0])[..|path|] == path;
      MergedAlongTheWay(b, path, all);
      ChildrenAreProper(b, path, all, 0, c, Context(c.depth + 1, Some(limit), effective));
    }
  }

  lemma {:induction false} ChildrenAreProper(b: Behaviour, path: seq<nat>, all: set<string>, k: nat, c: Context,
                                             inner: Context)
    requires Fits(b, path, all, c)
    requires inner == Context(c.depth + 1, Some(NewLimit(c, b(path).maxDepth)),
                              Merged(b(path).permissions, c.inherited, all))
    ensures forall v <- Children(b, path, all, k, inner).visits :: Proper(b, path, all, v)
    decreases 0, Room(inner), 2, if k < b(path).children then b(path).children - k else 0
  {
    if k >= b(path).children {
    } else {
      FitsChild(b, path, all, c, k);
      VisitsAreProper(b, path + [k], all, inner);
      forall v | v in Execute(b, path + [k], all, inner).visits
        ensures Proper(b, path, all, v)
      {
        assert Proper(b, path + [k], all, v);
      }
      ChildrenAreProper(b, path, all, k + 1, c, inner);
    }
  }

  // ---------------------------------------------------------------- main results

  /**
   * In every tree of nested executions, finite or not, the number of live executions never exceeds
   * the smallest limit on the chain, and each runs under its own permissions merged with its callers'.
   */
  lemma DepthStaysWithinEveryLimit(b: Behaviour, all: set<string>, v: Visit)
    requires v in Execute(b, [], all, TOP).visits
    ensures forall m <- Limits(b, v.path) :: |v.path| + 1 <= m
    ensures !b(v.path).mergeRaises ==> v.permissions == InForce(b, v.path, all)
  {
    VisitsAreProper(b, [], all, TOP);
    assert Proper(b, [], all, v);
  }

  /** An execution is let in exactly when the chain with it is within everybody's limit. */
  lemma LetInExactlyWithinLimits(b: Behaviour, path: seq<nat>, all: set<string>, c: Context)
    requires Fits(b, path, all, c)
    ensures Execute(b, path, all, c).visits != [] <==> WithinLimits(b, path)
    ensures Execute(b, path, all, c).visits == [] ==> Execute(b, path, all, c).outcome == Failed
  {
    CheckPassesIff(b, path, all, c);
  }

  /** The block filter of the execution at the `i`-th place of a path lets the block pass. */
  predicate LetsPass(b: Behaviour, path: seq<nat>, matches: Matcher) {
    b(path).permissions.Some? ==> BlockPassesLocally(b(path).permissions.value, matches)
  }

  /** A block may run in an execution exactly if the filters of it and of all its callers let it pass. */
  lemma BlockNeedsWholePath(b: Behaviour, path: seq<nat>, all: set<string>, matches: Matcher)
    requires forall q :: b(q).permissions.Some? ==> b(q).permissions.value.parent == None
    ensures (InForce(b, path, all).Some? ==> BlockAllowed(InForce(b, path, all).value, matches))
            <==> forall i :: 0 <= i <= |path| ==> LetsPass(b, path[..i], matches)
  {
    ChainPasses(b, path, matches);
    if Chain(b, path) != [] {
      BlockNeedsWholeChain(Chain(b, path), all, matches);
    }
  }

  lemma {:induction false} ChainPasses(b: Behaviour, path: seq<nat>, matches: Matcher)
    requires forall q :: b(q).permissions.Some? ==> b(q).permissions.value.parent == None
    ensures forall p <- Chain(b, path) :: p.parent == None
    ensures (forall p <- Chain(b, path) :: BlockPassesLocally(p, matches))
            <==> forall i :: 0 <= i <= |path| ==> LetsPass(b, path[..i], matches)
    decreases path
  {
    if path == [] {
      assert path[..0] == path;
      assert (forall i :: 0 <= i <= 0 ==> LetsPass(b, path[..i], matches)) <==> LetsPass(b, path, matches);
    } else {
      var before := path[..|path| - 1];
      ChainPasses(b, before, matches);
      AllUpTo(b, path, before, matches);
      assert BlockPassesLocally(ALLOW_ALL, matches);
      hide BlockPassesLocally;
    }
  }

  lemma AllUpTo(b: Behaviour, path: seq<nat>, before: seq<nat>, matches: Matcher)
    requires path != [] && before == path[..|path| - 1]
    ensures (forall i :: 0 <= i <= |path| ==> LetsPass(b, path[..i], matches))
            <==> LetsPass(b, path, matches) && forall i :: 0 <= i <= |before| ==> LetsPass(b, before[..i], matches)
  {
    hide LetsPass;
    assert path[..|path|] == path;
    assert forall i :: 0 <= i <= |before| ==> before[..i] == path[..i];
    if LetsPass(b, path, matches) && forall i :: 0 <= i <= |before| ==> LetsPass(b, before[..i], matches) {
      forall i | 0 <= i <= |path|
        ensures LetsPass(b, path[..i], matches)
      {
        if i < |path| {
          assert LetsPass(b, before[..i], matches);
        }
      }
    }
  }

  /**
   * The tools of an execution are those that it and all its callers allow, if and only if there is such a
   * tool or no merge took place.
   */
  lemma ToolsAreSharedIff(b: Behaviour, all: set<string>, v: Visit)
    requires v in Execute(b, [], all, TOP).visits && !b(v.path).mergeRaises
    ensures var chain := Chain(b, v.path);
            && (v.permissions.None? <==> chain == [])
            && (chain != [] ==>
                  (EffectiveTools(v.permissions.value, all) == Shared(chain, all)
                   <==> |chain| == 1 || Shared(chain, all) != {} || all == {}))
  {
    DepthStaysWithinEveryLimit(b, all, v);
    var chain := Chain(b, v.path);
    if |chain| > 1 {
      CeilingIsSharedIff(chain, all);
    }
  }

  /** What one more nested execution adds, and what there is when none is left. */
  lemma NextChild(b: Behaviour, path: seq<nat>, all: set<string>, k: nat, c: Context)
    requires c.limit.Some?
    ensures k >= b(path).children ==> Children(b, path, all, k, c) == Execution(b(path).ending, c, [])
    ensures var r, rest := Execute(b, path + [k], all, c), Children(b, path, all, k + 1, c);
            k < b(path).children
            ==> Children(b, path, all, k, c)
                == if r.outcome.Cancelled? then Execution(Cancelled, c, r.visits)
                   else Execution(rest.outcome, c, r.visits + rest.visits)
  {
    hide Execute;
  }

  // ---------------------------------------------------------------- which nested executions run

  /** The context that the nested executions of the execution at `path` get. */
  function Inner(b: Behaviour, path: seq<nat>, all: set<string>, c: Context): Context {
    Context(c.depth + 1, Some(NewLimit(c, b(path).maxDepth)), Merged(b(path).permissions, c.inherited, all))
  }

  /** The visits of the nested executions `k` to `n - 1`, one after the other. */
  ghost function VisitsBetween(b: Behaviour, path: seq<nat>, all: set<string>, k: nat, n: nat,
                               c: Context): seq<Visit>
    requires k <= n
    decreases n - k
  {
    if k == n then []
    else Execute(b, path + [k], all, c).visits + VisitsBetween(b, path, all, k + 1, n, c)
  }

  /** `n` nested executions run: all of them, or those up to the first that is cancelled. */
  ghost predicate RunsNested(b: Behaviour, path: seq<nat>, all: set<string>, k: nat, n: nat, c: Context,
                             cancelled: bool) {
    && k <= n <= b(path).children
    && (if cancelled then k < n else n == b(path).children)
    && (forall i :: k <= i < n ==>
          (Execute(b, path + [i], all, c).outcome.Cancelled? <==> cancelled && i == n - 1))
  }

  lemma {:induction false} ChildrenInOrder(b: Behaviour, path: seq<nat>, all: set<string>, k: nat, c: Context)
    returns (n: nat, cancelled: bool)
    requires c.limit.Some? && k <= b(path).children
    ensures RunsNested(b, path, all, k, n, c, cancelled)
    ensures Children(b, path, all, k, c)
         == Execution(if cancelled then Cancelled else b(path).ending, c, VisitsBetween(b, path, all, k, n, c))
    decreases b(path).children - k
  {
    hide Execute, Children;
    NextChild(b, path, all, k, c);
    if k == b(path).children {
      n, cancelled := k, false;
    } else if Execute(b, path + [k], all, c).outcome.Cancelled? {
      n, cancelled := k + 1, true;
      OneVisited(b, path, all, k, c);
    } else {
      n, cancelled := ChildrenInOrder(b, path, all, k + 1, c);
    }
  }

  lemma OneVisited(b: Behaviour, path: seq<nat>, all: set<string>, k: nat, c: Context)
    ensures VisitsBetween(b, path, all, k, k + 1, c) == Execute(b, path + [k], all, c).visits
  {
    hide Execute;
    assert VisitsBetween(b, path, all, k + 1, k + 1, c) == [];
  }

  /**
   * An execution that is let in and whose permissions merge runs all its nested executions in order, or
   * those up to the first cancelled one; in that case it ends cancelled, and else as its copilot does.
   */
  lemma NestedRunInOrder(b: Behaviour, path: seq<nat>, all: set<string>, c: Context)
    requires Fits(b, path, all, c) && WithinLimits(b, path) && !b(path).mergeRaises
    ensures var r, inner := Execute(b, path, all, c), Inner(b, path, all, c);
            exists n, cancelled ::
              && RunsNested(b, path, all, 0, n, inner, cancelled)
              && r.outcome == (if cancelled then Cancelled else b(path).ending)
              && r.visits == [Visit(path, inner.inherited)] + VisitsBetween(b, path, all, 0, n, inner)
  {
    CheckPassesIff(b, path, all, c);
    var inner := Inner(b, path, all, c);
    var n, cancelled := ChildrenInOrder(b, path, all, 0, inner);
    assert RunsNested(b, path, all, 0, n, inner, cancelled);
    hide RunsNested, Children, VisitsBetween, Merged, WithinLimits, Fits;
    ExecuteIs(b, path, all, c);
  }

  lemma ExecuteIs(b: Behaviour, path: seq<nat>, all: set<string>, c: Context)
    requires b(path).maxDepth >= 1 && c.depth < NewLimit(c, b(path).maxDepth) && !b(path).mergeRaises
    ensures var r := Children(b, path, all, 0, Inner(b, path, all, c));
            && Execute(b, path, all, c).outcome == r.outcome
            && Execute(b, path, all, c).visits == [Visit(path, Inner(b, path, all, c).inherited)] + r.visits
  {
    hide Children, Merged, NewLimit;
  }

  /** From `path` down every execution on the way to `q` starts the next one, and its permissions merge. */
  ghost predicate StartedFrom(b: Behaviour, path: seq<nat>, q: seq<nat>) {
    path <= q && forall i :: |path| <= i < |q| ==> q[i] < b(q[..i]).children && !b(q[..i]).mergeRaises
  }

  lemma StartedHigher(b: Behaviour, path: seq<nat>, k: nat, q: seq<nat>)
    requires StartedFrom(b, path + [k], q) && k < b(path).children && !b(path).mergeRaises
    ensures StartedFrom(b, path, q)
  {
    assert q[..|path|] == (path + [k])[..|path|] == path && q[|path|] == (path + [k])[|path|];
  }

  lemma {:induction false} VisitsAreStarted(b: Behaviour, path: seq<nat>, all: set<string>, c: Context)
    ensures forall v <- Execute(b, path, all, c).visits :: StartedFrom(b, path, v.path)
    decreases if c.limit.None? then 1 else 0, Room(c), 1, 0
  {
    VisitsOf(b, path, all, c);
    var plan := b(path);
    var limit := NewLimit(c, plan.maxDepth);
    var effective := Merged(plan.permissions, c.inherited, all);
    assert StartedFrom(b, path, path);
    hide Execute, Children, Merged, StartedFrom;
    if plan.maxDepth >= 1 && c.depth < limit && !plan.mergeRaises {
      ChildrenAreStarted(b, path, all, 0, Context(c.depth + 1, Some(limit), effective));
    }
  }

  lemma {:induction false} ChildrenAreStarted(b: Behaviour, path: seq<nat>, all: set<string>, k: nat, c: Context)
    requires c.limit.Some? && !b(path).mergeRaises
    ensures forall v <- Children(b, path, all, k, c).visits :: StartedFrom(b, path, v.path)
    decreases 0, Room(c), 2, if k < b(path).children then b(path).children - k else 0
  {
    hide Execute, Children, StartedFrom;
    NextChild(b, path, all, k, c);
    if k < b(path).children {
      VisitsAreStarted(b, path + [k], all, c);
      forall v | v in Execute(b, path + [k], all, c).visits
        ensures StartedFrom(b, path, v.path)
      {
        StartedHigher(b, path, k, v.path);
      }
      ChildrenAreStarted(b, path, all, k + 1, c);
    }
  }

  lemma {:induction false} NeverCancelled(b: Behaviour, path: seq<nat>, all: set<string>, c: Context)
    requires forall q :: b(q).ending != Cancelled
    ensures Execute(b, path, all, c).outcome != Cancelled
    decreases if c.limit.None? then 1 else 0, Room(c), 1, 0
  {
    var plan := b(path);
    var limit := NewLimit(c, plan.maxDepth);
    if plan.maxDepth >= 1 && c.depth < limit && !plan.mergeRaises {
      ExecuteIs(b, path, all, c);
      hide Execute, Children, Merged;
      NoneCancelled(b, path, all, 0, Inner(b, path, all, c));
    }
  }

  lemma {:induction false} NoneCancelled(b: Behaviour, path: seq<nat>, all: set<string>, k: nat, c: Context)
    requires c.limit.Some? && forall q :: b(q).ending != Cancelled
    ensures Children(b, path, all, k, c).outcome != Cancelled
    decreases 0, Room(c), 2, if k < b(path).children then b(path).children - k else 0
  {
    hide Execute, Children;
    NextChild(b, path, all, k, c);
    if k < b(path).children {
      NeverCancelled(b, path + [k], all, c);
      NoneCancelled(b, path, all, k + 1, c);
    }
  }

  lemma {:induction false} VisitedBetween(b: Behaviour, path: seq<nat>, all: set<string>, k: nat, m: nat, n: nat,
                                          c: Context)
    requires k <= m < n
    ensures forall v <- Execute(b, path + [m], all, c).visits :: v in VisitsBetween(b, path, all, k, n, c)
    decreases n - k
  {
    hide Execute;
    if k < m {
      VisitedBetween(b, path, all, k + 1, m, n, c);
    }
  }

  lemma {:induction false} StartedIsVisited(b: Behaviour, path: seq<nat>, q: seq<nat>, all: set<string>, c: Context)
    requires Fits(b, path, all, c) && StartedFrom(b, path, q) && WithinLimits(b, q)
    requires forall r :: b(r).ending != Cancelled
    ensures exists v <- Execute(b, path, all, c).visits :: v.path == q
    decreases |q| - |path|
  {
    LimitsAbove(b, path, q);
    if path == q {
      CheckPassesIff(b, path, all, c);
      VisitsOf(b, path, all, c);
      hide Execute, Children;
      assert Execute(b, path, all, c).visits[0].path == q;
    } else {
      var k, inner := q[|path|], Inner(b, path, all, c);
      StartedLower(b, path, q);
      FitsChild(b, path, all, c, k);
      hide Execute, Fits, StartedFrom, WithinLimits, Merged;
      StartedIsVisited(b, path + [k], q, all, inner);
      NestedRunInOrder(b, path, all, c);
      var n, cancelled :| RunsNested(b, path, all, 0, n, inner, cancelled)
                          && Execute(b, path, all, c).visits
                             == [Visit(path, inner.inherited)] + VisitsBetween(b, path, all, 0, n, inner);
      if cancelled {
        NeverCancelled(b, path + [n - 1], all, inner);
      }
      VisitedBetween(b, path, all, 0, k, n, inner);
    }
  }

  lemma LimitsAbove(b: Behaviour, path: seq<nat>, q: seq<nat>)
    requires path <= q && WithinLimits(b, q)
    ensures WithinLimits(b, path)
  {
    assert forall i :: 0 <= i <= |path| ==> path[..i] == q[..i];
  }

  lemma StartedLower(b: Behaviour, path: seq<nat>, q: seq<nat>)
    requires StartedFrom(b, path, q) && path != q
    ensures q[|path|] < b(path).children && !b(path).mergeRaises && StartedFrom(b, path + [q[|path|]], q)
  {
    assert q[..|path|] == path;
  }

  /**
   * If no copilot is cancelled, an execution of the tree is let in exactly if the chain down to it is
   * within everybody's limit, and each execution above it starts the next and merges its permissions.
   */
  lemma VisitedIff(b: Behaviour, q: seq<nat>, all: set<string>)
    requires forall r :: b(r).ending != Cancelled
    ensures (exists v <- Execute(b, [], all, TOP).visits :: v.path == q)
       <==> WithinLimits(b, q) && StartedFrom(b, [], q)
  {
    assert Fits(b, [], all, TOP);
    VisitsAreProper(b, [], all, TOP);
    VisitsAreStarted(b, [], all, TOP);
    hide Execute, WithinLimits, StartedFrom, Fits;
    if WithinLimits(b, q) && StartedFrom(b, [], q) {
      StartedIsVisited(b, [], q, all, TOP);
    }
  }

  // ---------------------------------------------------------------- the task

  class Task {
    var depth: nat
    var limit: Option<int>
    var inherited: Option<Permissions>

    ghost function Now(): Context
      reads this
    {
      Context(depth, limit, inherited)
    }

    constructor ()
      ensures Now() == TOP
    {
      depth, limit, inherited := 0, None, None;
    }

    /** Runs one execution; the context variables are set, and restored on every way out. */
    method ExecuteCopilot(b: Behaviour, path: seq<nat>, all: set<string>) returns (outcome: Outcome, visits: seq<Visit>)
      modifies this
      ensures Execution(outcome, Now(), visits) == Execute(b, path, all, old(Now())) && Now() == old(Now())
      decreases if limit.None? then 1 else 0, Room(Now()), 1, 0
    {
      var plan := b(path);
      if plan.maxDepth < 1 {
        return Failed, [];
      }
      var current, outerLimit := depth, limit;
      var newLimit := if outerLimit.None? then plan.maxDepth else Min(outerLimit.value, plan.maxDepth);
      if current >= newLimit {
        return Failed, [];
      }
      depth, limit := current + 1, Some(newLimit);
      if plan.mergeRaises {
        depth, limit := current, outerLimit;
        return Failed, [Visit(path, None)];
      }
      var parent := inherited;
      var effective := Merged(plan.permissions, parent, all);
      if effective.Some? {
        inherited := effective;
      }
      outcome, visits := RunChildren(b, path, all);
      visits := [Visit(path, effective)] + visits;
      depth, limit := current, outerLimit;
      if effective.Some? {
        inherited := parent;
      }
    }

    method RunChildren(b: Behaviour, path: seq<nat>, all: set<string>) returns (outcome: Outcome, visits: seq<Visit>)
      requires limit.Some?
      modifies this
      ensures Execution(outcome, Now(), visits) == Children(b, path, all, 0, old(Now())) && Now() == old(Now())
      decreases 0, Room(Now()), 2, 0
    {
      hide Execute, Children;
      var k := 0;
      visits := [];
      ghost var c := Now();
      assert [] + Children(b, path, all, 0, c).visits == Children(b, path, all, 0, c).visits;
      NextChild(b, path, all, 0, c);
      while k < b(path).children
        invariant 0 <= k <= b(path).children && Now() == c
        invariant var rest := Children(b, path, all, k, c);
                  Children(b, path, all, 0, c) == Execution(rest.outcome, c, visits + rest.visits)
      {
        NextChild(b, path, all, k, c);
        var more;
        outcome, more := ExecuteCopilot(b, path + [k], all);
        if outcome.Cancelled? {
          visits := visits + more;
          return;
        }
        ghost var rest := Children(b, path, all, k + 1, c).visits;
        assert visits + (more + rest) == visits + more + rest;
        visits := visits + more;
        k := k + 1;
      }
      NextChild(b, path, all, k, c);
      outcome := b(path).ending;
      assert visits + [] == visits;
    }
  }
}
