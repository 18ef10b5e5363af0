/** What every run of the command queue keeps. */
module CommandQueueRuns {
  import opened Prelude
  import opened CommandQueue

  datatype Op =
    | Push(kind: Kind, target: Option<Target>, update: bool, deferrable: bool)
    | Register(destinationId: string)
    | Flush

  /** `require` is only ever inserted by the queue itself, and a config always names a destination. */
  predicate Legal(op: Op) {
    op.Push? ==> op.kind != Require && (op.kind == Config ==> op.target.Some?)
  }

  function Step(s: State, op: Op): State {
    match op
    case Push(kind, target, update, deferrable) => PushStep(s, kind, target, update, deferrable)
    case Register(d) => RegisterStep(s, d)
    case Flush => RunFlush(s)
  }

  function Run(ops: seq<Op>): State {
    if ops == [] then INITIAL else Step(Run(ops[..|ops| - 1]), ops[|ops| - 1])
  }

  // ---------------------------------------------------------------- vocabulary

  predicate For(c: Command, d: string) {
    c.target.Some? && c.target.value.destinationId == d
  }

  predicate RegisteredBefore(log: seq<Entry>, i: nat, d: string)
    requires i <= |log|
  {
    exists j :: 0 <= j < i && log[j] == Registration(d)
  }

  predicate IsConfigOf(e: Entry, d: string) {
    e.Ran? && e.cmd.kind == Config && For(e.cmd, d)
  }

  predicate ConfiguredBefore(log: seq<Entry>, i: nat, d: string)
    requires i <= |log|
  {
    exists j :: 0 <= j < i && IsConfigOf(log[j], d)
  }

  function Cmds(q: seq<Item>): seq<Command> {
    if q == [] then [] else [q[0].cmd] + Cmds(q[1..])
  }

  function Executed(log: seq<Entry>): seq<Command> {
    if log == [] then []
    else Executed(log[..|log| - 1]) + (if log[|log| - 1].Ran? then [log[|log| - 1].cmd] else [])
  }

  /** The commands never marked deferrable, in order. */
  function Unmarked(cs: seq<Command>): seq<Command> {
    if cs == [] then []
    else Unmarked(cs[..|cs| - 1]) + (if cs[|cs| - 1].marked then [] else [cs[|cs| - 1]])
  }

  lemma {:induction false} CmdsAppend(a: seq<Item>, b: seq<Item>)
    ensures Cmds(a + b) == Cmds(a) + Cmds(b)
  {
    if a == [] {
      assert a + b == b;
    } else {
      assert (a + b)[1..] == a[1..] + b;
      CmdsAppend(a[1..], b);
    }
  }

  lemma {:induction false} UnmarkedAppend(a: seq<Command>, b: seq<Command>)
    ensures Unmarked(a + b) == Unmarked(a) + Unmarked(b)
  {
    if b == [] {
      assert a + b == a;
    } else {
      assert (a + b)[..|a + b| - 1] == a + b[..|b| - 1];
      UnmarkedAppend(a, b[..|b| - 1]);
    }
  }

  lemma ExecutedAppend(log: seq<Entry>, e: Entry)
    ensures Executed(log + [e]) == Executed(log) + (if e.Ran? then [e.cmd] else [])
  {
    assert (log + [e])[..|log|] == log;
  }

  // ---------------------------------------------------------------- the invariant

  ghost predicate Shape(s: State, deferred: seq<Item>) {
    && (forall x <- s.commands ::
          && (x.deferrable ==> x.cmd.marked)
          && (x.cmd.kind == Require ==> !x.cmd.marked && x.cmd.target.Some?)
          && (x.cmd.kind == Config ==> x.cmd.target.Some?)
          && (x.cmd.marked && !x.deferrable && x.cmd.target.Some?
              ==> IsConfigured(s, x.cmd.target.value.destinationId)))
    && (forall x <- deferred :: x.deferrable && x.cmd.marked && x.cmd.kind != Require && x.cmd.target.Some?)
  }

  ghost predicate RequireIn(q: seq<Item>, n: nat, d: string)
    requires n <= |q|
  {
    exists j :: 0 <= j < n && q[j].cmd.kind == Require && For(q[j].cmd, d)
  }

  /** A command for an unregistered destination has that destination's require in front of it. */
  ghost predicate Ahead(s: State, deferred: seq<Item>) {
    && (forall i, d :: 0 <= i < |s.commands| && For(s.commands[i].cmd, d) && !IsRegistered(s, d)
                       ==> Lookup(s, d).status == Waiting && RequireIn(s.commands, i + 1, d))
    && (forall x, d :: x in deferred && For(x.cmd, d) && !IsRegistered(s, d)
                       ==> Lookup(s, d).status == Waiting && RequireIn(s.commands, |s.commands|, d))
  }

  /** The flags of a destination say what has happened to it. */
  ghost predicate Faithful(s: State) {
    forall d: string ::
      && (IsRegistered(s, d) <==> RegisteredBefore(s.log, |s.log|, d))
      && (IsConfigured(s, d) <==> ConfiguredBefore(s.log, |s.log|, d))
  }

  /** A handler sees every config, event and get, except a config that updates a configured destination. */
  ghost predicate DueToHandler(log: seq<Entry>, i: nat, c: Command)
    requires i <= |log|
  {
    && c.target.Some?
    && (c.kind == Event || c.kind == Get
        || (c.kind == Config && !(c.update && ConfiguredBefore(log, i, c.target.value.destinationId))))
  }

  ghost predicate Justified(log: seq<Entry>, i: nat)
    requires i < |log|
  {
    log[i].Ran? ==>
      && (log[i].handled <==> DueToHandler(log, i, log[i].cmd))
      && (log[i].cmd.target.Some? ==>
            && RegisteredBefore(log, i, log[i].cmd.target.value.destinationId)
            && (log[i].cmd.marked ==> ConfiguredBefore(log, i, log[i].cmd.target.value.destinationId)))
  }

  ghost predicate Safe(s: State) {
    forall i :: 0 <= i < |s.log| ==> Justified(s.log, i)
  }

  ghost predicate Increasing(cs: seq<Command>) {
    forall i, j :: 0 <= i < j < |cs| ==> cs[i].serial < cs[j].serial
  }

  /** The commands never marked deferrable: those that ran, then those still queued. */
  ghost function InOrder(s: State): seq<Command> {
    Unmarked(Executed(s.log)) + Unmarked(Cmds(s.commands))
  }

  ghost predicate Ordered(s: State) {
    Increasing(InOrder(s)) && (forall c <- InOrder(s) :: c.serial < |s.history|)
  }

  /** Every place a command can be during a pass. */
  ghost function Everywhere(s: State, deferred: seq<Item>): multiset<Command> {
    multiset(Executed(s.log)) + multiset(Cmds(s.commands)) + multiset(Cmds(deferred))
  }

  /** Every command ever created is executed once or still queued once. */
  ghost predicate Conserved(s: State, deferred: seq<Item>) {
    && Everywhere(s, deferred) == multiset(s.history)
    && (forall i :: 0 <= i < |s.history| ==> s.history[i].serial == i)
  }

  ghost predicate Inv(s: State, deferred: seq<Item>) {
    Shape(s, deferred) && Ahead(s, deferred) && Faithful(s) && Safe(s) && Ordered(s) && Conserved(s, deferred)
  }

  // ---------------------------------------------------------------- the steps of a pass

  /** The front of the queue, seen by every history function. */
  lemma FrontOfQueue(q: seq<Item>)
    requires q != []
    ensures Cmds(q) == [q[0].cmd] + Cmds(q[1..])
    ensures Unmarked(Cmds(q)) == (if q[0].cmd.marked then [] else [q[0].cmd]) + Unmarked(Cmds(q[1..]))
    ensures multiset(Cmds(q)) == multiset{q[0].cmd} + multiset(Cmds(q[1..]))
  {
    var c := q[0].cmd;
    UnmarkedAppend([c], Cmds(q[1..]));
    assert [c][..0] == [];
    assert Unmarked([c]) == if c.marked then [] else [c];
  }

  lemma BackOfQueue(q: seq<Item>, x: Item)
    ensures Cmds(q + [x]) == Cmds(q) + [x.cmd]
    ensures Unmarked(Cmds(q + [x])) == Unmarked(Cmds(q)) + (if x.cmd.marked then [] else [x.cmd])
    ensures multiset(Cmds(q + [x])) == multiset(Cmds(q)) + multiset{x.cmd}
  {
    CmdsAppend(q, [x]);
    assert Cmds([x]) == [x.cmd] + Cmds([x][1..]) == [x.cmd];
    UnmarkedAppend(Cmds(q), [x.cmd]);
    assert [x.cmd][..0] == [];
    assert Unmarked([x.cmd]) == if x.cmd.marked then [] else [x.cmd];
  }

  lemma RestRequire(s: State, n: nat, d: string)
    requires s.commands != [] && n <= |s.commands| && RequireIn(s.commands, n, d)
    requires !(s.commands[0].cmd.kind == Require && For(s.commands[0].cmd, d))
    ensures n > 0 && RequireIn(s.commands[1..], n - 1, d)
  {
    var j :| 0 <= j < n && s.commands[j].cmd.kind == Require && For(s.commands[j].cmd, d);
    assert s.commands[1..][j - 1] == s.commands[j];
  }

  /** Dropping a front command that does not block keeps the requires ahead. */
  lemma RestAhead(s: State, deferred: seq<Item>)
    requires Ahead(s, deferred) && s.commands != []
    requires s.commands[0].cmd.kind == Require ==> !Blocks(s, s.commands[0].cmd)
    ensures Ahead(s.(commands := s.commands[1..]), deferred)
  {
    var q := s.commands[1..];
    var s' := s.(commands := q);
    forall i, d | 0 <= i < |q| && For(q[i].cmd, d) && !IsRegistered(s', d)
      ensures Lookup(s', d).status == Waiting && RequireIn(q, i + 1, d)
    {
      assert For(s.commands[i + 1].cmd, d) && !IsRegistered(s, d);
      RestRequire(s, i + 2, d);
    }
    forall x, d | x in deferred && For(x.cmd, d) && !IsRegistered(s', d)
      ensures Lookup(s', d).status == Waiting && RequireIn(q, |q|, d)
    {
      assert !IsRegistered(s, d);
      RestRequire(s, |s.commands|, d);
    }
  }

  lemma MoreRequire(q: seq<Item>, n: nat, more: seq<Item>, m: nat, d: string)
    requires n <= |q| && n <= m <= |q + more| && RequireIn(q, n, d)
    ensures RequireIn(q + more, m, d)
  {
    var j :| 0 <= j < n && q[j].cmd.kind == Require && For(q[j].cmd, d);
    assert (q + more)[j] == q[j];
  }

  lemma DeferAhead(s: State, deferred: seq<Item>)
    requires Ahead(s, deferred) && s.commands != [] && s.commands[0].cmd.kind != Require
    ensures Ahead(s.(commands := s.commands[1..]), deferred + [s.commands[0]])
  {
    var x := s.commands[0];
    var s' := s.(commands := s.commands[1..]);
    RestAhead(s, deferred);
    forall y, d | y in deferred + [x] && For(y.cmd, d) && !IsRegistered(s', d)
      ensures Lookup(s', d).status == Waiting && RequireIn(s'.commands, |s'.commands|, d)
    {
      if y !in deferred {
        assert y == x && !IsRegistered(s, d);
        RestRequire(s, 1, d);
      }
    }
  }


  lemma UndeferAhead(s: State, deferred: seq<Item>, x: Item)
    requires Ahead(s, deferred) && s.commands != [] && s.commands[0].cmd.kind != Require
    requires x.cmd == s.commands[0].cmd
    ensures Ahead(s.(commands := s.commands[1..] + [x]), deferred)
  {
    var q := s.commands[1..];
    var s' := s.(commands := q + [x]);
    RestAhead(s, deferred);
    var t := s.(commands := q);
    forall i, d | 0 <= i < |s'.commands| && For(s'.commands[i].cmd, d) && !IsRegistered(s', d)
      ensures Lookup(s', d).status == Waiting && RequireIn(s'.commands, i + 1, d)
    {
      assert !IsRegistered(s, d) && !IsRegistered(t, d);
      if i < |q| {
        assert For(t.commands[i].cmd, d);
        MoreRequire(q, i + 1, [x], i + 1, d);
      } else {
        assert For(s.commands[0].cmd, d);
        RestRequire(s, 1, d);
        assert false;
      }
    }
    forall y, d | y in deferred && For(y.cmd, d) && !IsRegistered(s', d)
      ensures Lookup(s', d).status == Waiting && RequireIn(s'.commands, |s'.commands|, d)
    {
      assert !IsRegistered(t, d);
      MoreRequire(q, |q|, [x], |q| + 1, d);
    }
  }


  lemma HistoryGrows(log: seq<Entry>, e: Entry, d: string)
    ensures RegisteredBefore(log + [e], |log| + 1, d) <==> RegisteredBefore(log, |log|, d) || e == Registration(d)
    ensures ConfiguredBefore(log + [e], |log| + 1, d) <==> ConfiguredBefore(log, |log|, d) || IsConfigOf(e, d)
  {
    var l := log + [e];
    assert l[|log|] == e;
    assert forall j :: 0 <= j < |log| ==> l[j] == log[j];
    if RegisteredBefore(log, |log|, d) {
      var j :| 0 <= j < |log| && log[j] == Registration(d);
      assert l[j] == Registration(d);
    }
    if ConfiguredBefore(log, |log|, d) {
      var j :| 0 <= j < |log| && IsConfigOf(log[j], d);
      assert IsConfigOf(l[j], d);
    }
  }

  lemma HistoryStays(log: seq<Entry>, e: Entry, i: nat, d: string)
    requires i <= |log|
    ensures RegisteredBefore(log + [e], i, d) <==> RegisteredBefore(log, i, d)
    ensures ConfiguredBefore(log + [e], i, d) <==> ConfiguredBefore(log, i, d)
  {
    var l := log + [e];
    assert forall j :: 0 <= j < i ==> l[j] == log[j];
    if ConfiguredBefore(l, i, d) {
      var j :| 0 <= j < i && IsConfigOf(l[j], d);
      assert IsConfigOf(log[j], d);
    }
    if ConfiguredBefore(log, i, d) {
      var j :| 0 <= j < i && IsConfigOf(log[j], d);
      assert IsConfigOf(l[j], d);
    }
  }

  lemma SafeGrows(s: State, e: Entry)
    requires Safe(s)
    requires Justified(s.log + [e], |s.log|)
    ensures Safe(s.(log := s.log + [e]))
  {
    var l := s.log + [e];
    forall i | 0 <= i < |l|
      ensures Justified(l, i)
    {
      if i < |s.log| {
        assert Justified(s.log, i) && l[i] == s.log[i];
        if l[i].Ran? && l[i].cmd.target.Some? {
          HistoryStays(s.log, e, i, l[i].cmd.target.value.destinationId);
        }
      }
    }
  }

  lemma ExecuteFaithful(s: State, c: Command)
    requires Faithful(s) && (c.kind == Config ==> c.target.Some?)
    ensures Faithful(Execute(s, c))
    ensures forall d :: IsRegistered(Execute(s, c), d) == IsRegistered(s, d)
    ensures forall d :: Lookup(Execute(s, c), d).status == Lookup(s, d).status
    ensures forall d :: IsConfigured(s, d) ==> IsConfigured(Execute(s, c), d)
  {
    var s' := Execute(s, c);
    forall d: string
      ensures IsRegistered(s', d) <==> RegisteredBefore(s'.log, |s'.log|, d)
      ensures IsConfigured(s', d) <==> ConfiguredBefore(s'.log, |s'.log|, d)
    {
      HistoryGrows(s.log, s'.log[|s.log|], d);
    }
  }

  lemma ExecuteSafe(s: State, c: Command)
    requires Faithful(s) && Safe(s)
    requires c.target.Some? ==> IsRegistered(s, c.target.value.destinationId)
    requires c.target.Some? && c.marked ==> IsConfigured(s, c.target.value.destinationId)
    ensures Safe(Execute(s, c))
  {
    var e := Ran(c, ReachesHandler(s, c));
    if c.target.Some? {
      HistoryStays(s.log, e, |s.log|, c.target.value.destinationId);
    }
    SafeGrows(s, e);
  }

  lemma RequireNotAtFront(s: State, deferred: seq<Item>, d: string)
    requires Ahead(s, deferred) && s.commands != [] && For(s.commands[0].cmd, d) && !IsRegistered(s, d)
    ensures Blocks(s, s.commands[0].cmd)
  {
    assert RequireIn(s.commands, 1, d);
  }

  lemma ExecuteAhead(s: State, deferred: seq<Item>)
    requires Ahead(s, deferred) && s.commands != [] && !Blocks(s, s.commands[0].cmd)
    requires s.commands[0].cmd.kind == Config ==> s.commands[0].cmd.target.Some?
    ensures Ahead(Execute(s, s.commands[0].cmd).(commands := s.commands[1..]), deferred)
    ensures s.commands[0].cmd.target.Some? ==> IsRegistered(s, s.commands[0].cmd.target.value.destinationId)
  {
    var c := s.commands[0].cmd;
    if c.target.Some? && !IsRegistered(s, c.target.value.destinationId) {
      var d := c.target.value.destinationId;
      RequireNotAtFront(s, deferred, d);
    }
    RestAhead(s, deferred);
    var t := s.(commands := s.commands[1..]);
    var s' := Execute(s, c).(commands := s.commands[1..]);
    assert forall d :: Lookup(s', d).status == Lookup(t, d).status;
    assert forall d :: IsRegistered(s', d) == IsRegistered(t, d);
  }

  lemma NewCommands(s: State, q: seq<Item>, h: seq<Command>)
    ensures Faithful(s) ==> Faithful(s.(commands := q, history := h))
    ensures Safe(s) ==> Safe(s.(commands := q, history := h))
  {
    assert forall d :: Lookup(s.(commands := q, history := h), d) == Lookup(s, d);
  }

  lemma DeferViews(s: State, deferred: seq<Item>)
    requires s.commands != [] && s.commands[0].cmd.marked
    ensures InOrder(s.(commands := s.commands[1..])) == InOrder(s)
    ensures Everywhere(s.(commands := s.commands[1..]), deferred + [s.commands[0]]) == Everywhere(s, deferred)
  {
    hide Cmds, Unmarked, Executed;
    FrontOfQueue(s.commands);
    BackOfQueue(deferred, s.commands[0]);
    MoveBack(multiset(Executed(s.log)), multiset{s.commands[0].cmd}, multiset(Cmds(s.commands[1..])),
             multiset(Cmds(deferred)));
  }

  lemma MoveBack(a: multiset<Command>, x: multiset<Command>, b: multiset<Command>, c: multiset<Command>)
    ensures a + (x + b) + c == a + b + (c + x)
  {
  }

  lemma DeferShape(s: State, deferred: seq<Item>)
    requires Shape(s, deferred) && s.commands != [] && s.commands[0].deferrable && !MayRun(s, s.commands[0].cmd)
    ensures Shape(s.(commands := s.commands[1..]), deferred + [s.commands[0]])
  {
    var x := s.commands[0];
    assert x in s.commands;
    assert forall y <- s.commands[1..] :: y in s.commands;
    assert forall y <- deferred + [x] :: y in deferred || y == x;
  }

  lemma DeferKeeps(s: State, deferred: seq<Item>)
    requires Inv(s, deferred) && s.commands != [] && s.commands[0].deferrable && !MayRun(s, s.commands[0].cmd)
    ensures Inv(s.(commands := s.commands[1..]), deferred + [s.commands[0]])
  {
    DeferShape(s, deferred);
    assert s.commands[0] in s.commands;
    DeferViews(s, deferred);
    DeferAhead(s, deferred);
    NewCommands(s, s.commands[1..], s.history);
  }

  lemma UndeferViews(s: State, deferred: seq<Item>, x: Item)
    requires s.commands != [] && x.cmd == s.commands[0].cmd && x.cmd.marked
    ensures InOrder(s.(commands := s.commands[1..] + [x])) == InOrder(s)
    ensures Everywhere(s.(commands := s.commands[1..] + [x]), deferred) == Everywhere(s, deferred)
  {
    hide Cmds, Unmarked, Executed;
    FrontOfQueue(s.commands);
    BackOfQueue(s.commands[1..], x);
    var q := s.commands[1..];
    SameUnmarked(Unmarked(Cmds(q)));
    Turn(multiset(Executed(s.log)), multiset(Cmds(q)), multiset(Cmds(deferred)), x.cmd);
  }

  lemma SameUnmarked<T>(a: seq<T>)
    ensures a + [] == [] + a
  {
  }

  lemma Turn<T>(a: multiset<T>, b: multiset<T>, c: multiset<T>, x: T)
    ensures a + (multiset{x} + b) + c == a + (b + multiset{x}) + c
  {
  }

  lemma UndeferShape(s: State, deferred: seq<Item>)
    requires Shape(s, deferred) && s.commands != [] && s.commands[0].deferrable && MayRun(s, s.commands[0].cmd)
    ensures Shape(s.(commands := s.commands[1..] + [s.commands[0].(deferrable := false)]), deferred)
  {
    var x := s.commands[0].(deferrable := false);
    assert s.commands[0] in s.commands;
    assert forall y <- s.commands[1..] :: y in s.commands;
    assert forall y <- s.commands[1..] + [x] :: y in s.commands[1..] || y == x;
  }

  lemma UndeferKeeps(s: State, deferred: seq<Item>)
    requires Inv(s, deferred) && s.commands != [] && s.commands[0].deferrable && MayRun(s, s.commands[0].cmd)
    ensures Inv(s.(commands := s.commands[1..] + [s.commands[0].(deferrable := false)]), deferred)
  {
    var x := s.commands[0].(deferrable := false);
    assert s.commands[0] in s.commands;
    UndeferShape(s, deferred);
    UndeferViews(s, deferred, x);
    UndeferAhead(s, deferred, x);
    NewCommands(s, s.commands[1..] + [x], s.history);
  }

  lemma LogGrows(log: seq<Entry>, c: Command, handled: bool)
    ensures Unmarked(Executed(log + [Ran(c, handled)])) == Unmarked(Executed(log)) + (if c.marked then [] else [c])
    ensures multiset(Executed(log + [Ran(c, handled)])) == multiset(Executed(log)) + multiset{c}
  {
    ExecutedAppend(log, Ran(c, handled));
    UnmarkedAppend(Executed(log), [c]);
    assert [c][..0] == [];
    assert Unmarked([c]) == if c.marked then [] else [c];
  }

  lemma Move<T>(a: multiset<T>, b: multiset<T>, c: multiset<T>, x: T)
    ensures (a + multiset{x}) + b + c == a + (multiset{x} + b) + c
  {
  }

  lemma ExecuteViews(s: State, deferred: seq<Item>)
    requires s.commands != []
    ensures InOrder(Execute(s, s.commands[0].cmd).(commands := s.commands[1..])) == InOrder(s)
    ensures Everywhere(Execute(s, s.commands[0].cmd).(commands := s.commands[1..]), deferred) == Everywhere(s, deferred)
  {
    hide Cmds, Unmarked, Executed;
    var c := s.commands[0].cmd;
    FrontOfQueue(s.commands);
    LogGrows(s.log, c, ReachesHandler(s, c));
    Move(multiset(Executed(s.log)), multiset(Cmds(s.commands[1..])), multiset(Cmds(deferred)), c);
  }

  lemma ExecuteShape(s: State, deferred: seq<Item>)
    requires Shape(s, deferred) && s.commands != []
    ensures Shape(Execute(s, s.commands[0].cmd).(commands := s.commands[1..]), deferred)
  {
    assert forall y <- s.commands[1..] :: y in s.commands;
  }

  lemma ExecuteKeeps(s: State, deferred: seq<Item>)
    requires Inv(s, deferred) && s.commands != [] && !s.commands[0].deferrable && !Blocks(s, s.commands[0].cmd)
    ensures Inv(Execute(s, s.commands[0].cmd).(commands := s.commands[1..]), deferred)
  {
    hide Shape, Ahead, Faithful, Safe, Ordered, Conserved, Execute, Blocks;
    ExecuteShape(s, deferred);
    ExecuteRest(s, deferred);
    ExecuteOrders(s, deferred);
  }

  lemma ExecuteOrders(s: State, deferred: seq<Item>)
    requires Ordered(s) && Conserved(s, deferred) && s.commands != []
    ensures var t := Execute(s, s.commands[0].cmd).(commands := s.commands[1..]);
            Ordered(t) && Conserved(t, deferred)
  {
    hide Execute, InOrder, Everywhere, Increasing;
    ExecuteViews(s, deferred);
    ExecuteHistory(s, s.commands[0].cmd);
  }

  lemma ExecuteHistory(s: State, c: Command)
    ensures Execute(s, c).history == s.history
  {
  }

  lemma ExecuteRest(s: State, deferred: seq<Item>)
    requires Shape(s, deferred) && Ahead(s, deferred) && Faithful(s) && Safe(s)
    requires s.commands != [] && !s.commands[0].deferrable && !Blocks(s, s.commands[0].cmd)
    ensures var t := Execute(s, s.commands[0].cmd).(commands := s.commands[1..]);
            Ahead(t, deferred) && Faithful(t) && Safe(t)
  {
    var c := s.commands[0].cmd;
    assert s.commands[0] in s.commands;
    ExecuteAhead(s, deferred);
    hide Ahead, Faithful, Safe, Execute, Blocks, RegisteredBefore, ConfiguredBefore;
    ExecuteFaithful(s, c);
    ExecuteSafe(s, c);
    NewCommands(Execute(s, c), s.commands[1..], s.history);
    ExecuteHistory(s, c);
  }

  // ---------------------------------------------------------------- passes and flushes

  lemma AppendAhead(s: State, deferred: seq<Item>)
    requires Ahead(s, deferred)
    ensures Ahead(s.(commands := s.commands + deferred), [])
  {
    var q := s.commands + deferred;
    var s' := s.(commands := q);
    forall i, d | 0 <= i < |q| && For(q[i].cmd, d) && !IsRegistered(s', d)
      ensures Lookup(s', d).status == Waiting && RequireIn(q, i + 1, d)
    {
      assert !IsRegistered(s, d);
      if i < |s.commands| {
        assert For(s.commands[i].cmd, d);
        MoreRequire(s.commands, i + 1, deferred, i + 1, d);
      } else {
        assert q[i] == deferred[i - |s.commands|];
        assert q[i] in deferred;
        MoreRequire(s.commands, |s.commands|, deferred, i + 1, d);
      }
    }
  }

  /** Putting the deferred commands back at the end keeps everything. */
  lemma PutBackKeeps(s: State, deferred: seq<Item>)
    requires Inv(s, deferred)
    ensures Inv(s.(commands := s.commands + deferred), [])
  {
    var s' := s.(commands := s.commands + deferred);
    AppendAhead(s, deferred);
    NewCommands(s, s.commands + deferred, s.history);
    CmdsAppend(s.commands, deferred);
    AllMarked(deferred);
    UnmarkedAppend(Cmds(s.commands), Cmds(deferred));
    assert InOrder(s') == InOrder(s);
    assert Everywhere(s', []) == Everywhere(s, deferred);
    assert forall x <- s'.commands :: x in s.commands || x in deferred;
  }

  lemma {:induction false} AllMarked(q: seq<Item>)
    requires forall x <- q :: x.cmd.marked
    ensures Unmarked(Cmds(q)) == []
  {
    if q == [] {
    } else {
      AllMarked(q[1..]);
      FrontOfQueue(q);
    }
  }

  lemma {:induction false} PassKeeps(s: State, deferred: seq<Item>, reconfigured: bool)
    requires Inv(s, deferred)
    ensures Inv(RunPass(s, deferred, reconfigured).state, [])
    ensures RunPass(s, deferred, reconfigured).state.history == s.history
    decreases Weight(s.commands)
  {
    hide Inv;
    if s.commands == [] {
      PutBackKeeps(s, deferred);
      assert [] + deferred == deferred;
    } else {
      var x, rest := s.commands[0], s.commands[1..];
      if x.deferrable && MayRun(s, x.cmd) {
        UndeferKeeps(s, deferred);
        WeightAppend(rest, x.(deferrable := false));
        PassKeeps(s.(commands := rest + [x.(deferrable := false)]), deferred, reconfigured);
      } else if x.deferrable {
        DeferKeeps(s, deferred);
        PassKeeps(s.(commands := rest), deferred + [x], reconfigured);
      } else if Blocks(s, x.cmd) {
        PutBackKeeps(s, deferred);
      } else {
        ExecuteKeeps(s, deferred);
        PassKeeps(Execute(s, x.cmd).(commands := rest), deferred, reconfigured || x.cmd.kind == Config);
      }
    }
  }

  lemma {:induction false} FlushKeeps(s: State)
    requires Inv(s, [])
    ensures Inv(RunFlush(s), []) && RunFlush(s).history == s.history
    decreases |s.commands|
  {
    PassKeeps(s, [], false);
    var p := RunPass(s, [], false);
    if p.reconfigured && !p.blocked {
      FlushKeeps(p.state);
    }
  }

  // ---------------------------------------------------------------- operations

  /** A destination seen for the first time starts to wait. */
  lemma FirstSight(s: State, d: string)
    requires Inv(s, []) && Lookup(s, d).status == Unseen
    ensures Inv(SetStatus(s, d, Waiting), [])
    ensures forall x <- s.commands :: !For(x.cmd, d)
  {
    var s' := SetStatus(s, d, Waiting);
    assert !IsRegistered(s, d);
    forall x | x in s.commands
      ensures !For(x.cmd, d)
    {
      var i :| 0 <= i < |s.commands| && s.commands[i] == x;
    }
    assert forall e :: e != d ==> Lookup(s', e) == Lookup(s, e);
    assert IsConfigured(s', d) == IsConfigured(s, d) && !IsRegistered(s', d) && !IsRegistered(s, d);
    assert forall e :: IsRegistered(s', e) == IsRegistered(s, e) && IsConfigured(s', e) == IsConfigured(s, e);
    assert Everywhere(s', []) == Everywhere(s, []) && InOrder(s') == InOrder(s);
  }

  lemma AppendedAhead(s: State, c: Command)
    requires Ahead(s, [])
    requires forall d :: For(c, d) && !IsRegistered(s, d) ==>
                           && Lookup(s, d).status == Waiting
                           && (c.kind == Require || RequireIn(s.commands, |s.commands|, d))
    ensures Ahead(s.(commands := s.commands + [Item(c, c.marked)], history := s.history + [c]), [])
  {
    var x := Item(c, c.marked);
    var q := s.commands + [x];
    var s' := s.(commands := q, history := s.history + [c]);
    forall i, d | 0 <= i < |q| && For(q[i].cmd, d) && !IsRegistered(s', d)
      ensures Lookup(s', d).status == Waiting && RequireIn(q, i + 1, d)
    {
      assert !IsRegistered(s, d);
      if i < |s.commands| {
        assert For(s.commands[i].cmd, d);
        MoreRequire(s.commands, i + 1, [x], i + 1, d);
      } else if c.kind != Require {
        MoreRequire(s.commands, |s.commands|, [x], i + 1, d);
      } else {
        assert q[i] == x;
      }
    }
  }

  lemma AppendedShape(s: State, c: Command)
    requires Shape(s, [])
    requires c.kind == Require ==> !c.marked && c.target.Some?
    requires c.kind == Config ==> c.target.Some?
    ensures Shape(s.(commands := s.commands + [Item(c, c.marked)], history := s.history + [c]), [])
  {
    assert forall y <- s.commands + [Item(c, c.marked)] :: y in s.commands || y == Item(c, c.marked);
  }

  /** A command is appended to the queue, not yet looked at. */
  lemma AppendedKeeps(s: State, c: Command)
    requires Inv(s, [])
    requires c.serial == |s.history|
    requires c.kind == Require ==> !c.marked && c.target.Some?
    requires c.kind == Config ==> c.target.Some?
    requires forall d :: For(c, d) && !IsRegistered(s, d) ==>
                           && Lookup(s, d).status == Waiting
                           && (c.kind == Require || RequireIn(s.commands, |s.commands|, d))
    ensures Inv(s.(commands := s.commands + [Item(c, c.marked)], history := s.history + [c]), [])
  {
    hide Ahead, Shape, Faithful, Safe, Ordered, Conserved;
    AppendedShape(s, c);
    AppendedCounts(s, c);
    AppendedAhead(s, c);
    NewCommands(s, s.commands + [Item(c, c.marked)], s.history + [c]);
  }

  lemma AppendedViews(s: State, c: Command)
    ensures InOrder(s.(commands := s.commands + [Item(c, c.marked)], history := s.history + [c]))
         == InOrder(s) + (if c.marked then [] else [c])
    ensures Everywhere(s.(commands := s.commands + [Item(c, c.marked)], history := s.history + [c]), [])
         == Everywhere(s, []) + multiset{c}
  {
    hide Unmarked, Executed;
    BackOfQueue(s.commands, Item(c, c.marked));
  }

  lemma AppendedCounts(s: State, c: Command)
    requires Ordered(s) && Conserved(s, []) && c.serial == |s.history|
    ensures Ordered(s.(commands := s.commands + [Item(c, c.marked)], history := s.history + [c]))
    ensures Conserved(s.(commands := s.commands + [Item(c, c.marked)], history := s.history + [c]), [])
  {
    AppendedViews(s, c);
    hide InOrder, Everywhere;
  }

  lemma EnqueueKeeps(s: State, kind: Kind, target: Option<Target>, update: bool, deferrable: bool)
    requires Inv(s, [])
    requires kind == Require ==> !deferrable
    requires kind == Require || kind == Config ==> target.Some?
    requires target.Some? && !IsRegistered(s, target.value.destinationId) ==>
               && Lookup(s, target.value.destinationId).status == Waiting
               && (kind == Require || RequireIn(s.commands, |s.commands|, target.value.destinationId))
    ensures Inv(Enqueue(s, kind, target, update, deferrable), [])
    ensures |Enqueue(s, kind, target, update, deferrable).history| == |s.history| + 1
  {
    hide Inv;
    var marked := deferrable && !(target.Some? && IsConfigured(s, target.value.destinationId));
    var c := Command(|s.history|, kind, target, update, marked);
    AppendedKeeps(s, c);
    if !marked {
      FlushKeeps(s.(commands := s.commands + [Item(c, marked)], history := s.history + [c]));
    }
  }

  // ---------------------------------------------------------------- runs

  lemma {:induction false} PassStatus(s: State, deferred: seq<Item>, reconfigured: bool, d: string)
    ensures Lookup(RunPass(s, deferred, reconfigured).state, d).status == Lookup(s, d).status
    decreases Weight(s.commands)
  {
    if s.commands == [] {
    } else {
      var x, rest := s.commands[0], s.commands[1..];
      if x.deferrable && MayRun(s, x.cmd) {
        WeightAppend(rest, x.(deferrable := false));
        PassStatus(s.(commands := rest + [x.(deferrable := false)]), deferred, reconfigured, d);
      } else if x.deferrable {
        PassStatus(s.(commands := rest), deferred + [x], reconfigured, d);
      } else if !Blocks(s, x.cmd) {
        PassStatus(Execute(s, x.cmd).(commands := rest), deferred, reconfigured || x.cmd.kind == Config, d);
      }
    }
  }

  lemma {:induction false} FlushStatus(s: State, d: string)
    ensures Lookup(RunFlush(s), d).status == Lookup(s, d).status
    decreases |s.commands|
  {
    PassStatus(s, [], false, d);
    var p := RunPass(s, [], false);
    if p.reconfigured && !p.blocked {
      FlushStatus(p.state, d);
    }
  }

  /** Every waiting destination has had its require created. */
  ghost predicate Asked(s: State) {
    forall d :: Lookup(s, d).status == Waiting ==> exists c <- s.history :: c.kind == Require && For(c, d)
  }

  lemma {:induction false} ExecutedInLog(log: seq<Entry>, c: Command)
    requires c in Executed(log)
    ensures exists i :: 0 <= i < |log| && log[i].Ran? && log[i].cmd == c
  {
    if log == [] {
    } else {
      var n := |log| - 1;
      if c in Executed(log[..n]) {
        ExecutedInLog(log[..n], c);
        var i :| 0 <= i < n && log[..n][i].Ran? && log[..n][i].cmd == c;
        assert log[i] == log[..n][i];
      } else {
        assert log[n].Ran? && log[n].cmd == c;
      }
    }
  }

  lemma {:induction false} CmdsInQueue(q: seq<Item>, c: Command)
    requires c in Cmds(q)
    ensures exists i :: 0 <= i < |q| && q[i].cmd == c
  {
    if q == [] || c == q[0].cmd {
    } else {
      CmdsInQueue(q[1..], c);
      var i :| 0 <= i < |q[1..]| && q[1..][i].cmd == c;
      assert q[i + 1] == q[1..][i];
    }
  }

  lemma ExecutedMeansRegistered(s: State, c: Command, d: string)
    requires Safe(s) && c in Executed(s.log) && For(c, d)
    ensures RegisteredBefore(s.log, |s.log|, d)
  {
    ExecutedInLog(s.log, c);
    var i :| 0 <= i < |s.log| && s.log[i].Ran? && s.log[i].cmd == c;
    assert Justified(s.log, i);
    var j :| 0 <= j < i && s.log[j] == Registration(d);
  }

  /** The require of an unregistered destination can only be in the queue. */
  lemma WaitingIsQueued(s: State, d: string)
    requires Inv(s, []) && Asked(s) && Lookup(s, d).status == Waiting
    ensures RequireIn(s.commands, |s.commands|, d)
  {
    var c :| c in s.history && c.kind == Require && For(c, d);
    assert multiset(s.history)[c] > 0;
    if c in Executed(s.log) {
      ExecutedMeansRegistered(s, c, d);
    } else {
      assert c in Cmds(s.commands);
      CmdsInQueue(s.commands, c);
    }
  }

  lemma EnqueueAsked(s: State, kind: Kind, target: Option<Target>, update: bool, deferrable: bool)
    requires forall d :: Lookup(s, d).status == Waiting ==>
                           || (exists c <- s.history :: c.kind == Require && For(c, d))
                           || (kind == Require && target.Some? && target.value.destinationId == d)
    requires Inv(s, [])
    requires Inv(Enqueue(s, kind, target, update, deferrable), [])
    ensures Asked(Enqueue(s, kind, target, update, deferrable))
    ensures forall d :: Lookup(Enqueue(s, kind, target, update, deferrable), d).status == Lookup(s, d).status
  {
    hide Inv;
    var s2 := Enqueue(s, kind, target, update, deferrable);
    var marked := deferrable && !(target.Some? && IsConfigured(s, target.value.destinationId));
    var c := Command(|s.history|, kind, target, update, marked);
    var s' := s.(commands := s.commands + [Item(c, marked)], history := s.history + [c]);
    FlushHistory(s');
    assert s2.history == s.history + [c];
    forall d
      ensures Lookup(s2, d).status == Lookup(s, d).status
    {
      FlushStatus(s', d);
      assert Lookup(s', d) == Lookup(s, d);
    }
    forall d | Lookup(s2, d).status == Waiting
      ensures exists c <- s2.history :: c.kind == Require && For(c, d)
    {
      if kind == Require && target.Some? && target.value.destinationId == d {
        assert c in s2.history && For(c, d);
      } else {
        var c0 :| c0 in s.history && c0.kind == Require && For(c0, d);
        assert c0 in s2.history;
      }
    }
  }

  lemma {:induction false} FlushHistory(s: State)
    ensures RunFlush(s).history == s.history
    decreases |s.commands|
  {
    PassHistory(s, [], false);
    var p := RunPass(s, [], false);
    if p.reconfigured && !p.blocked {
      FlushHistory(p.state);
    }
  }

  lemma {:induction false} PassHistory(s: State, deferred: seq<Item>, reconfigured: bool)
    ensures RunPass(s, deferred, reconfigured).state.history == s.history
    decreases Weight(s.commands)
  {
    if s.commands == [] {
    } else {
      var x, rest := s.commands[0], s.commands[1..];
      if x.deferrable && MayRun(s, x.cmd) {
        WeightAppend(rest, x.(deferrable := false));
        PassHistory(s.(commands := rest + [x.(deferrable := false)]), deferred, reconfigured);
      } else if x.deferrable {
        PassHistory(s.(commands := rest), deferred + [x], reconfigured);
      } else if !Blocks(s, x.cmd) {
        PassHistory(Execute(s, x.cmd).(commands := rest), deferred, reconfigured || x.cmd.kind == Config);
      }
    }
  }

  lemma PushKeeps(s: State, kind: Kind, target: Option<Target>, update: bool, deferrable: bool)
    requires Inv(s, []) && Asked(s) && Legal(Push(kind, target, update, deferrable))
    ensures Inv(PushStep(s, kind, target, update, deferrable), [])
    ensures Asked(PushStep(s, kind, target, update, deferrable))
  {
    hide Inv, Asked, Enqueue, RequireIn;
    if target.Some? && Lookup(s, target.value.destinationId).status == Unseen {
      var d := target.value.destinationId;
      var s1 := SetStatus(s, d, Waiting);
      FirstSight(s, d);
      EnqueueKeeps(s1, Require, target, false, false);
      var s2 := Enqueue(s1, Require, target, false, false);
      assert Asked(s2) by {
        AskedButOne(s, d);
        EnqueueAsked(s1, Require, target, false, false);
      }
      assert Lookup(s2, d).status == Waiting by {
        AskedButOne(s, d);
        EnqueueAsked(s1, Require, target, false, false);
      }
      WaitingIsQueued(s2, d);
      EnqueueKeeps(s2, kind, target, update, deferrable);
      AskedIsAsked(s2);
      EnqueueAsked(s2, kind, target, update, deferrable);
    } else {
      if target.Some? && Lookup(s, target.value.destinationId).status == Waiting {
        WaitingIsQueued(s, target.value.destinationId);
      }
      EnqueueKeeps(s, kind, target, update, deferrable);
      AskedIsAsked(s);
      EnqueueAsked(s, kind, target, update, deferrable);
    }
  }

  lemma AskedIsAsked(s: State)
    requires Asked(s)
    ensures forall d :: Lookup(s, d).status == Waiting ==> exists c <- s.history :: c.kind == Require && For(c, d)
  {
  }

  lemma AskedButOne(s: State, d: string)
    requires Asked(s)
    ensures forall e :: Lookup(SetStatus(s, d, Waiting), e).status == Waiting ==>
                          (exists c <- s.history :: c.kind == Require && For(c, e)) || e == d
  {
    assert forall e :: e != d ==> Lookup(SetStatus(s, d, Waiting), e) == Lookup(s, e);
  }

  function Registering(s: State, d: string): State {
    SetStatus(s, d, Registered).(log := s.log + [Registration(d)])
  }

  lemma RegisterKeeps(s: State, d: string)
    requires Inv(s, []) && Asked(s)
    ensures Inv(RegisterStep(s, d), []) && Asked(RegisterStep(s, d))
  {
    if !IsRegistered(s, d) {
      var s' := Registering(s, d);
      RegisteredInv(s, d);
      RegisteredAsked(s, d);
      hide Inv, Asked;
      FlushKeeps(s');
      FlushAsked(s');
    }
  }

  lemma RegisteredAsked(s: State, d: string)
    requires Asked(s)
    ensures Asked(Registering(s, d))
  {
    assert forall e :: e != d ==> Lookup(Registering(s, d), e) == Lookup(s, e);
  }

  lemma FlushAsked(s: State)
    requires Asked(s)
    ensures Asked(RunFlush(s))
  {
    FlushHistory(s);
    forall e
      ensures Lookup(RunFlush(s), e).status == Lookup(s, e).status
    {
      FlushStatus(s, e);
    }
  }

  lemma RegisteredFacts(s: State, d: string)
    requires !IsRegistered(s, d)
    ensures forall x :: IsRegistered(Registering(s, d), x) <==> IsRegistered(s, x) || x == d
    ensures forall x :: IsConfigured(Registering(s, d), x) == IsConfigured(s, x)
    ensures forall x :: x != d ==> Lookup(Registering(s, d), x) == Lookup(s, x)
  {
  }

  lemma RegisteredFaithful(s: State, d: string)
    requires Faithful(s) && !IsRegistered(s, d)
    ensures Faithful(Registering(s, d))
  {
    var s' := Registering(s, d);
    RegisteredFacts(s, d);
    forall x: string
      ensures IsRegistered(s', x) <==> RegisteredBefore(s'.log, |s'.log|, x)
      ensures IsConfigured(s', x) <==> ConfiguredBefore(s'.log, |s'.log|, x)
    {
      HistoryGrows(s.log, Registration(d), x);
    }
  }

  lemma RegisteredAhead(s: State, d: string)
    requires Ahead(s, []) && !IsRegistered(s, d)
    ensures Ahead(Registering(s, d), [])
  {
    RegisteredFacts(s, d);
  }

  lemma RegisteredShape(s: State, d: string)
    requires Shape(s, []) && !IsRegistered(s, d)
    ensures Shape(Registering(s, d), [])
  {
    RegisteredFacts(s, d);
  }

  lemma RegisteredCounts(s: State, d: string)
    requires Ordered(s) && Conserved(s, [])
    ensures Ordered(Registering(s, d)) && Conserved(Registering(s, d), [])
  {
    ExecutedAppend(s.log, Registration(d));
    assert Executed(Registering(s, d).log) == Executed(s.log);
    assert InOrder(Registering(s, d)) == InOrder(s);
    assert Everywhere(Registering(s, d), []) == Everywhere(s, []);
  }

  lemma RegisteredInv(s: State, d: string)
    requires Inv(s, []) && !IsRegistered(s, d)
    ensures Inv(Registering(s, d), [])
  {
    hide Ahead, Shape, Faithful, Ordered, Conserved;
    RegisteredShape(s, d);
    RegisteredAhead(s, d);
    RegisteredFaithful(s, d);
    RegisteredCounts(s, d);
    SafeGrows(s, Registration(d));
    assert Safe(Registering(s, d));
  }

  lemma InitialKeeps()
    ensures Inv(INITIAL, []) && Asked(INITIAL)
  {
  }

  /** The invariant holds after every run. */
  lemma {:induction false} RunKeeps(ops: seq<Op>)
    requires forall op <- ops :: Legal(op)
    ensures Inv(Run(ops), []) && Asked(Run(ops))
  {
    hide Inv, Asked;
    if ops == [] {
      InitialKeeps();
    } else {
      var n := |ops| - 1;
      RunKeeps(ops[..n]);
      var s := Run(ops[..n]);
      assert Legal(ops[n]);
      match ops[n]
      case Push(kind, target, update, deferrable) =>
        PushKeeps(s, kind, target, update, deferrable);
      case Register(d) =>
        RegisterKeeps(s, d);
      case Flush =>
        FlushKeeps(s);
        FlushAsked(s);
    }
  }

  // ---------------------------------------------------------------- main results

  /**
   * In every run: a command for a destination ran only after that destination was registered; one
   * that was still deferrable when queued ran only after a config for it; and the handler saw
   * exactly the commands due to it.
   */
  lemma NothingRunsEarly(ops: seq<Op>, i: nat)
    requires forall op <- ops :: Legal(op)
    requires i < |Run(ops).log| && Run(ops).log[i].Ran?
    ensures var log, e := Run(ops).log, Run(ops).log[i];
            && (e.handled <==> DueToHandler(log, i, e.cmd))
            && (e.cmd.target.Some? ==>
                  && RegisteredBefore(log, i, e.cmd.target.value.destinationId)
                  && (e.cmd.marked ==> ConfiguredBefore(log, i, e.cmd.target.value.destinationId)))
  {
    RunKeeps(ops);
    assert Justified(Run(ops).log, i);
  }

  /** In every run a require stays ahead of all commands queued for its unregistered destination. */
  lemma RequireStaysAhead(ops: seq<Op>, i: nat, d: string)
    requires forall op <- ops :: Legal(op)
    requires i < |Run(ops).commands| && For(Run(ops).commands[i].cmd, d)
    requires !RegisteredBefore(Run(ops).log, |Run(ops).log|, d)
    ensures RequireIn(Run(ops).commands, i + 1, d)
  {
    RunKeeps(ops);
    assert !IsRegistered(Run(ops), d);
  }

  /** In every run the commands never marked deferrable run in push order, before those still queued. */
  lemma UnmarkedRunInPushOrder(ops: seq<Op>)
    requires forall op <- ops :: Legal(op)
    ensures Increasing(Unmarked(Executed(Run(ops).log)) + Unmarked(Cmds(Run(ops).commands)))
  {
    RunKeeps(ops);
  }

  /** In every run each command created has run exactly once or is queued exactly once. */
  lemma NothingIsLostOrRepeated(ops: seq<Op>)
    requires forall op <- ops :: Legal(op)
    ensures multiset(Executed(Run(ops).log)) + multiset(Cmds(Run(ops).commands)) == multiset(Run(ops).history)
    ensures forall i :: 0 <= i < |Run(ops).history| ==> Run(ops).history[i].serial == i
  {
    RunKeeps(ops);
    assert Cmds([]) == [];
  }

  /** What a flush leaves: it stops at a require, or only unready deferrable commands remain. */
  ghost predicate Stopped(s: State) {
    s.commands != [] && !s.commands[0].deferrable && Blocks(s, s.commands[0].cmd)
  }

  ghost predicate OnlyUnready(s: State) {
    forall x <- s.commands :: x.deferrable && !MayRun(s, x.cmd)
  }

  lemma {:induction false} PassLeaves(s: State, deferred: seq<Item>, reconfigured: bool)
    requires !reconfigured ==> forall x <- deferred :: x.deferrable && !MayRun(s, x.cmd)
    ensures var p := RunPass(s, deferred, reconfigured);
            && (p.blocked ==> Stopped(p.state))
            && (!p.blocked && !p.reconfigured ==> OnlyUnready(p.state))
    decreases Weight(s.commands)
  {
    if s.commands == [] {
    } else {
      var x, rest := s.commands[0], s.commands[1..];
      if x.deferrable && MayRun(s, x.cmd) {
        WeightAppend(rest, x.(deferrable := false));
        PassLeaves(s.(commands := rest + [x.(deferrable := false)]), deferred, reconfigured);
      } else if x.deferrable {
        PassLeaves(s.(commands := rest), deferred + [x], reconfigured);
      } else if !Blocks(s, x.cmd) {
        PassLeaves(Execute(s, x.cmd).(commands := rest), deferred, reconfigured || x.cmd.kind == Config);
      }
    }
  }

  /** A flush, from any state, stops at the require of an unregistered destination or runs all it can. */
  lemma {:induction false} FlushLeaves(s: State)
    ensures Stopped(RunFlush(s)) || OnlyUnready(RunFlush(s))
    decreases |s.commands|
  {
    PassLeaves(s, [], false);
    var p := RunPass(s, [], false);
    if p.reconfigured && !p.blocked {
      FlushLeaves(p.state);
    }
  }

  /**
   * Once every destination with a queued command is registered, a flush leaves only deferrable
   * commands whose destination has not been configured in the whole run.
   */
  lemma FlushDrains(ops: seq<Op>)
    requires forall op <- ops :: Legal(op)
    requires forall x, d :: x in Run(ops + [Flush]).commands && For(x.cmd, d) ==>
                              RegisteredBefore(Run(ops + [Flush]).log, |Run(ops + [Flush]).log|, d)
    ensures forall x <- Run(ops + [Flush]).commands ::
              && x.deferrable
              && x.cmd.target.Some?
              && !ConfiguredBefore(Run(ops + [Flush]).log, |Run(ops + [Flush]).log|, x.cmd.target.value.destinationId)
  {
    var s := Run(ops + [Flush]);
    RunKeeps(ops + [Flush]);
    assert (ops + [Flush])[..|ops|] == ops;
    FlushLeaves(Run(ops));
    if Stopped(s) {
      var d := s.commands[0].cmd.target.value.destinationId;
      assert For(s.commands[0].cmd, d);
    }
  }
}
