/** That nothing waits in the command queue without a reason, and what one pass over it does. */
module CommandQueueProgress {
  import opened Prelude
  import opened CommandQueue
  import opened CommandQueueRuns

  // ---------------------------------------------------------------- what every run leaves waiting

  /** The queue begins with the require of a destination that was never registered. */
  ghost predicate AwaitsHandler(commands: seq<Item>, log: seq<Entry>) {
    && commands != []
    && !commands[0].deferrable
    && commands[0].cmd.kind == Require
    && commands[0].cmd.target.Some?
    && !RegisteredBefore(log, |log|, commands[0].cmd.target.value.destinationId)
  }

  /** A deferrable command whose destination has had no config; `loose` admits one without a destination. */
  ghost predicate AwaitsConfig(x: Item, log: seq<Entry>, loose: bool) {
    && x.deferrable
    && x.cmd.marked
    && (x.cmd.target.None? ==> loose)
    && (x.cmd.target.Some? ==> !ConfiguredBefore(log, |log|, x.cmd.target.value.destinationId))
  }

  /** The operations that make the queue run: all but a repeated registration and a deferrable push. */
  ghost predicate Triggers(op: Op, log: seq<Entry>) {
    match op
    case Push(_, target, _, deferrable) =>
      !deferrable || (target.Some? && ConfiguredBefore(log, |log|, target.value.destinationId))
    case Register(d) => !RegisteredBefore(log, |log|, d)
    case Flush => true
  }

  ghost predicate Idle(s: State, loose: bool) {
    Stopped(s) || forall x <- s.commands :: x.deferrable && (x.cmd.target.None? ==> loose) &&
                                            (x.cmd.target.Some? ==> !MayRun(s, x.cmd))
  }

  lemma FlushIdles(s: State, loose: bool)
    ensures Idle(RunFlush(s), loose)
  {
    hide RunFlush;
    FlushLeaves(s);
  }

  lemma EnqueueIdles(s: State, kind: Kind, target: Option<Target>, update: bool, deferrable: bool)
    requires Idle(s, true)
    ensures Idle(Enqueue(s, kind, target, update, deferrable), true)
    ensures !deferrable || (target.Some? && IsConfigured(s, target.value.destinationId)) ==>
              Idle(Enqueue(s, kind, target, update, deferrable), false)
  {
    hide RunFlush;
    var marked := deferrable && !(target.Some? && IsConfigured(s, target.value.destinationId));
    var c := Command(|s.history|, kind, target, update, marked);
    var s' := s.(commands := s.commands + [Item(c, marked)], history := s.history + [c]);
    if !marked {
      FlushIdles(s', true);
      FlushIdles(s', false);
    } else if Stopped(s) {
      assert s'.commands[0] == s.commands[0];
    }
  }

  lemma SightIdles(s: State, d: string)
    requires Idle(s, true) && Lookup(s, d).status == Unseen
    ensures Idle(SetStatus(s, d, Waiting), true)
  {
    var s' := SetStatus(s, d, Waiting);
    assert forall e :: IsRegistered(s', e) == IsRegistered(s, e) && IsConfigured(s', e) == IsConfigured(s, e);
  }

  /** Running the queue is what an operation is for, whatever the state it finds. */
  lemma StepIdles(s: State, op: Op)
    requires Inv(s, []) && Idle(s, true)
    ensures Idle(Step(s, op), true)
    ensures Triggers(op, s.log) ==> Idle(Step(s, op), false)
  {
    hide Idle, Enqueue, RunFlush, Inv, ConfiguredBefore, RegisteredBefore;
    match op
    case Push(kind, target, update, deferrable) =>
      if target.Some? {
        FaithfulFacts(s, target.value.destinationId);
      }
      if target.Some? && Lookup(s, target.value.destinationId).status == Unseen {
        var d := target.value.destinationId;
        UnseenFacts(s, d);
        SightIdles(s, d);
        var s1 := SetStatus(s, d, Waiting);
        EnqueueIdles(s1, Require, target, false, false);
        EnqueueIdles(Enqueue(s1, Require, target, false, false), kind, target, update, deferrable);
      } else {
        EnqueueIdles(s, kind, target, update, deferrable);
      }
    case Register(d) =>
      FaithfulFacts(s, d);
      FlushIdles(Registering(s, d), true);
      FlushIdles(Registering(s, d), false);
    case Flush =>
      FlushIdles(s, true);
      FlushIdles(s, false);
  }

  lemma FaithfulFacts(s: State, d: string)
    requires Inv(s, [])
    ensures IsRegistered(s, d) <==> RegisteredBefore(s.log, |s.log|, d)
    ensures IsConfigured(s, d) <==> ConfiguredBefore(s.log, |s.log|, d)
  {
  }

  lemma ConfigFollowsRegistration(log: seq<Entry>, d: string)
    requires forall i :: 0 <= i < |log| ==> Justified(log, i)
    requires ConfiguredBefore(log, |log|, d)
    ensures RegisteredBefore(log, |log|, d)
  {
    var j :| 0 <= j < |log| && IsConfigOf(log[j], d);
    assert Justified(log, j);
    var i :| 0 <= i < j && log[i] == Registration(d);
  }

  lemma InvIsSafe(s: State)
    requires Inv(s, [])
    ensures forall i :: 0 <= i < |s.log| ==> Justified(s.log, i)
  {
  }

  /** Only a registered destination can be configured. */
  lemma UnseenFacts(s: State, d: string)
    requires Inv(s, [])
    ensures IsConfigured(s, d) ==> IsRegistered(s, d)
  {
    hide *;
    FaithfulFacts(s, d);
    InvIsSafe(s);
    if IsConfigured(s, d) {
      ConfigFollowsRegistration(s.log, d);
    }
  }

  lemma StartIdles()
    ensures Idle(INITIAL, true)
  {
  }

  lemma {:induction false} RunIdles(ops: seq<Op>)
    requires forall op <- ops :: Legal(op)
    ensures Idle(Run(ops), true)
  {
    hide Idle, Inv;
    if ops == [] {
      StartIdles();
    } else {
      RunIdles(ops[..|ops| - 1]);
      RunKeeps(ops[..|ops| - 1]);
      StepIdles(Run(ops[..|ops| - 1]), ops[|ops| - 1]);
    }
  }

  lemma IdleReads(s: State, loose: bool)
    requires Inv(s, []) && Idle(s, loose)
    ensures AwaitsHandler(s.commands, s.log) || forall x <- s.commands :: AwaitsConfig(x, s.log, loose)
  {
    hide Inv, ConfiguredBefore, RegisteredBefore;
    if Stopped(s) {
      FaithfulFacts(s, s.commands[0].cmd.target.value.destinationId);
    } else {
      forall x | x in s.commands
        ensures AwaitsConfig(x, s.log, loose)
      {
        DeferredIsMarked(s, x);
        if x.cmd.target.Some? {
          FaithfulFacts(s, x.cmd.target.value.destinationId);
        }
      }
    }
  }

  lemma DeferredIsMarked(s: State, x: Item)
    requires Inv(s, []) && x in s.commands && x.deferrable
    ensures x.cmd.marked
  {
  }

  /**
   * At every point of every run the queue begins with the require of a destination that was never
   * registered, or it holds only deferrable commands that have no destination or one without a config.
   */
  lemma NothingWaitsInVain(ops: seq<Op>)
    requires forall op <- ops :: Legal(op)
    ensures var s := Run(ops);
            AwaitsHandler(s.commands, s.log) || forall x <- s.commands :: AwaitsConfig(x, s.log, true)
  {
    RunKeeps(ops);
    RunIdles(ops);
    hide *;
    IdleReads(Run(ops), true);
  }

  /** A first registration, a push that is not left to wait, and a flush also run what has no destination. */
  lemma TriggerRunsTheQueue(ops: seq<Op>, op: Op)
    requires forall o <- ops + [op] :: Legal(o)
    requires Triggers(op, Run(ops).log)
    ensures var s := Run(ops + [op]);
            AwaitsHandler(s.commands, s.log) || forall x <- s.commands :: AwaitsConfig(x, s.log, false)
  {
    assert forall o <- ops :: o in ops + [op];
    RunKeeps(ops);
    RunKeeps(ops + [op]);
    RunIdles(ops);
    RunGrows(ops, op);
    hide *;
    StepIdles(Run(ops), op);
    IdleReads(Run(ops + [op]), false);
  }

  lemma RunGrows(ops: seq<Op>, op: Op)
    ensures Run(ops + [op]) == Step(Run(ops), op)
  {
    assert (ops + [op])[..|ops|] == ops;
  }

  /**
   * Once every destination with a queued command is registered, each command ever pushed has run,
   * except deferrable ones without a destination or whose destination has had no config.
   */
  lemma RegisteredHasRun(ops: seq<Op>, c: Command)
    requires forall op <- ops :: Legal(op)
    requires forall x <- Run(ops).commands ::
               x.cmd.target.Some? ==>
                 RegisteredBefore(Run(ops).log, |Run(ops).log|, x.cmd.target.value.destinationId)
    requires c in Run(ops).history
    requires c.marked ==>
               && c.target.Some?
               && ConfiguredBefore(Run(ops).log, |Run(ops).log|, c.target.value.destinationId)
    ensures c in Executed(Run(ops).log)
  {
    hide *;
    var s := Run(ops);
    NothingWaitsInVain(ops);
    NothingIsLostOrRepeated(ops);
    if c !in Executed(s.log) {
      StillQueued(s, c);
      CmdsInQueue(s.commands, c);
      var i :| 0 <= i < |s.commands| && s.commands[i].cmd == c;
      AwaitsOneOf(s.commands, s.log, i);
    }
  }

  lemma StillQueued(s: State, c: Command)
    requires multiset(Executed(s.log)) + multiset(Cmds(s.commands)) == multiset(s.history)
    requires c in s.history && c !in Executed(s.log)
    ensures c in Cmds(s.commands)
  {
    hide Executed, Cmds;
    assert multiset(s.history)[c] > 0;
  }

  lemma AwaitsOneOf(commands: seq<Item>, log: seq<Entry>, i: nat)
    requires i < |commands|
    requires AwaitsHandler(commands, log) || forall x <- commands :: AwaitsConfig(x, log, true)
    requires forall x <- commands ::
               x.cmd.target.Some? ==> RegisteredBefore(log, |log|, x.cmd.target.value.destinationId)
    ensures commands[i].deferrable && AwaitsConfig(commands[i], log, true)
  {
    assert commands[0] in commands;
    assert !AwaitsHandler(commands, log);
  }

  // ---------------------------------------------------------------- what is pushed

  datatype Made = Made(kind: Kind, target: Option<Target>, update: bool)

  predicate Names(op: Op, d: string) {
    match op
    case Push(_, target, _, _) => target.Some? && target.value.destinationId == d
    case Register(e) => e == d
    case Flush => false
  }

  /** The commands a run creates: each push, with a require before the first mention of a destination. */
  ghost function Creates(ops: seq<Op>): seq<Made> {
    if ops == [] then []
    else
      var earlier, op := ops[..|ops| - 1], ops[|ops| - 1];
      Creates(earlier) +
      (if !op.Push? then []
       else
         (if op.target.Some? && !(exists o <- earlier :: Names(o, op.target.value.destinationId))
          then [Made(Require, op.target, false)] else []) + [Made(op.kind, op.target, op.update)])
  }

  function Views(cs: seq<Command>): seq<Made> {
    seq(|cs|, i requires 0 <= i < |cs| => Made(cs[i].kind, cs[i].target, cs[i].update))
  }

  lemma ViewsGrow(cs: seq<Command>, c: Command)
    ensures Views(cs + [c]) == Views(cs) + [Made(c.kind, c.target, c.update)]
  {
  }

  lemma EnqueueHistory(s: State, kind: Kind, target: Option<Target>, update: bool, deferrable: bool)
    ensures var t := Enqueue(s, kind, target, update, deferrable);
            && |t.history| == |s.history| + 1
            && t.history[..|s.history|] == s.history
            && Views(t.history) == Views(s.history) + [Made(kind, target, update)]
            && t.history[|s.history|].marked ==
                 (deferrable && !(target.Some? && IsConfigured(s, target.value.destinationId)))
            && (forall d :: Lookup(t, d).status == Lookup(s, d).status)
  {
    hide RunFlush, Views;
    var marked := deferrable && !(target.Some? && IsConfigured(s, target.value.destinationId));
    var c := Command(|s.history|, kind, target, update, marked);
    var s' := s.(commands := s.commands + [Item(c, marked)], history := s.history + [c]);
    FlushHistory(s');
    ViewsGrow(s.history, c);
    forall d
      ensures Lookup(RunFlush(s'), d).status == Lookup(s, d).status
    {
      FlushStatus(s', d);
      assert Lookup(s', d) == Lookup(s, d);
    }
  }

  ghost predicate SeenSoFar(s: State, ops: seq<Op>) {
    forall d :: Lookup(s, d).status == Unseen <==> !exists o <- ops :: Names(o, d)
  }

  lemma NamesGrow(ops: seq<Op>, op: Op, d: string)
    ensures (exists o <- ops + [op] :: Names(o, d)) <==> (exists o <- ops :: Names(o, d)) || Names(op, d)
  {
    if exists o <- ops :: Names(o, d) {
      var o :| o in ops && Names(o, d);
      assert o in ops + [op];
    }
    if Names(op, d) {
      assert op in ops + [op];
    }
  }

  /** A destination seen for the first time is still without a config once its require has been looked at. */
  lemma SightHistory(s: State, target: Target)
    requires Inv(s, []) && Lookup(s, target.destinationId).status == Unseen
    ensures var t := Enqueue(SetStatus(s, target.destinationId, Waiting), Require, Some(target), false, false);
            && |t.history| == |s.history| + 1
            && Views(t.history) == Views(s.history) + [Made(Require, Some(target), false)]
            && !IsConfigured(t, target.destinationId)
            && (forall d :: Lookup(t, d).status == Unseen <==>
                              Lookup(s, d).status == Unseen && d != target.destinationId)
  {
    hide Inv, Enqueue, Views;
    var s1 := SetStatus(s, target.destinationId, Waiting);
    FirstSight(s, target.destinationId);
    EnqueueKeeps(s1, Require, Some(target), false, false);
    var t := Enqueue(s1, Require, Some(target), false, false);
    EnqueueHistory(s1, Require, Some(target), false, false);
    UnseenFacts(t, target.destinationId);
    UnseenFacts(s, target.destinationId);
  }

  lemma CreatesMore(ops: seq<Op>, op: Op)
    ensures !op.Push? ==> Creates(ops + [op]) == Creates(ops)
    ensures op.Push? && op.target.Some? && (forall o <- ops :: !Names(o, op.target.value.destinationId)) ==>
              Creates(ops + [op])
              == Creates(ops) + [Made(Require, op.target, false)] + [Made(op.kind, op.target, op.update)]
    ensures op.Push? && (op.target.Some? ==> exists o <- ops :: Names(o, op.target.value.destinationId)) ==>
              Creates(ops + [op]) == Creates(ops) + [Made(op.kind, op.target, op.update)]
  {
    assert (ops + [op])[..|ops|] == ops;
  }

  lemma SeenMore(s: State, t: State, ops: seq<Op>, op: Op)
    requires SeenSoFar(s, ops)
    requires forall d :: Lookup(t, d).status == Unseen <==> Lookup(s, d).status == Unseen && !Names(op, d)
    ensures SeenSoFar(t, ops + [op])
  {
    forall d
      ensures (exists o <- ops + [op] :: Names(o, d)) <==> (exists o <- ops :: Names(o, d)) || Names(op, d)
    {
      NamesGrow(ops, op, d);
    }
  }

  lemma PushHistory(s: State, ops: seq<Op>, op: Op)
    requires Inv(s, []) && op.Push?
    requires SeenSoFar(s, ops) && Views(s.history) == Creates(ops)
    ensures SeenSoFar(Step(s, op), ops + [op]) && Views(Step(s, op).history) == Creates(ops + [op])
    ensures Step(s, op).history != []
    ensures Step(s, op).history[|Step(s, op).history| - 1].marked ==
              (op.deferrable && !(op.target.Some? && IsConfigured(s, op.target.value.destinationId)))
  {
    hide Enqueue, Views, Inv, Creates;
    CreatesMore(ops, op);
    if op.target.Some? && Lookup(s, op.target.value.destinationId).status == Unseen {
      var s1 := SetStatus(s, op.target.value.destinationId, Waiting);
      var s2 := Enqueue(s1, Require, op.target, false, false);
      SightHistory(s, op.target.value);
      UnseenFacts(s, op.target.value.destinationId);
      EnqueueHistory(s2, op.kind, op.target, op.update, op.deferrable);
    } else {
      EnqueueHistory(s, op.kind, op.target, op.update, op.deferrable);
    }
    SeenMore(s, Step(s, op), ops, op);
  }

  lemma OtherHistory(s: State, ops: seq<Op>, op: Op)
    requires !op.Push?
    requires SeenSoFar(s, ops) && Views(s.history) == Creates(ops)
    ensures SeenSoFar(Step(s, op), ops + [op]) && Views(Step(s, op).history) == Creates(ops + [op])
  {
    hide RunFlush, Views, Creates;
    CreatesMore(ops, op);
    var s' := if op.Register? && !IsRegistered(s, op.destinationId) then Registering(s, op.destinationId) else s;
    FlushHistory(s');
    forall d
      ensures Lookup(RunFlush(s'), d).status == Lookup(s', d).status
    {
      FlushStatus(s', d);
    }
    SeenMore(s, Step(s, op), ops, op);
  }

  lemma {:induction false} RunHistory(ops: seq<Op>)
    requires forall op <- ops :: Legal(op)
    ensures SeenSoFar(Run(ops), ops) && Views(Run(ops).history) == Creates(ops)
  {
    hide Inv, SeenSoFar, Step;
    if ops == [] {
      NothingSeen();
    } else {
      var earlier, op := ops[..|ops| - 1], ops[|ops| - 1];
      assert earlier + [op] == ops;
      RunHistory(earlier);
      RunKeeps(earlier);
      if op.Push? {
        PushHistory(Run(earlier), earlier, op);
      } else {
        OtherHistory(Run(earlier), earlier, op);
      }
    }
  }

  lemma NothingSeen()
    ensures SeenSoFar(INITIAL, [])
  {
  }

  /**
   * In every run the commands created are those pushed, in order, with one require before the
   * first mention of each destination; and a command pushed is marked exactly if it was pushed as
   * deferrable and its destination, if it has one, had had no config.
   */
  lemma CreatedIsPushed(ops: seq<Op>)
    requires forall op <- ops :: Legal(op)
    ensures Views(Run(ops).history) == Creates(ops)
    ensures ops != [] && ops[|ops| - 1].Push? ==>
              var h, op, log := Run(ops).history, ops[|ops| - 1], Run(ops[..|ops| - 1]).log;
              && h != []
              && (h[|h| - 1].marked <==>
                    op.deferrable &&
                    !(op.target.Some? && ConfiguredBefore(log, |log|, op.target.value.destinationId)))
  {
    hide *;
    RunHistory(ops);
    if ops != [] && ops[|ops| - 1].Push? {
      LastIsMarked(ops[..|ops| - 1], ops[|ops| - 1]);
      assert ops[..|ops| - 1] + [ops[|ops| - 1]] == ops;
    }
  }

  lemma LastIsMarked(ops: seq<Op>, op: Op)
    requires (forall o <- ops :: Legal(o)) && op.Push?
    ensures var h, log := Run(ops + [op]).history, Run(ops).log;
            && h != []
            && (h[|h| - 1].marked <==>
                  op.deferrable &&
                  !(op.target.Some? && ConfiguredBefore(log, |log|, op.target.value.destinationId)))
  {
    hide *;
    RunGrows(ops, op);
    RunHistory(ops);
    RunKeeps(ops);
    PushHistory(Run(ops), ops, op);
    if op.target.Some? {
      FaithfulFacts(Run(ops), op.target.value.destinationId);
    }
  }

  /** Everything else runs nothing: a repeated registration has no effect, and a deferrable push only waits. */
  lemma OtherwiseNothingRuns(ops: seq<Op>, op: Op)
    requires forall o <- ops + [op] :: Legal(o)
    requires !Triggers(op, Run(ops).log)
    requires op.Push? && op.target.Some? ==> exists o <- ops :: Names(o, op.target.value.destinationId)
    ensures var s, t := Run(ops), Run(ops + [op]);
            && t.log == s.log
            && (op.Register? ==> t.commands == s.commands && t.history == s.history)
            && (op.Push? ==>
                  && t.history != []
                  && t.history[..|t.history| - 1] == s.history
                  && t.commands == s.commands + [Item(t.history[|t.history| - 1], true)])
  {
    assert forall o <- ops :: o in ops + [op];
    RunKeeps(ops);
    RunHistory(ops);
    RunGrows(ops, op);
    hide *;
    UntriggeredStep(Run(ops), ops, op);
  }

  lemma UntriggeredStep(s: State, ops: seq<Op>, op: Op)
    requires Inv(s, []) && SeenSoFar(s, ops) && !Triggers(op, s.log)
    requires op.Push? && op.target.Some? ==> exists o <- ops :: Names(o, op.target.value.destinationId)
    ensures var t := Step(s, op);
            && t.log == s.log
            && (op.Register? ==> t.commands == s.commands && t.history == s.history)
            && (op.Push? ==>
                  && t.history != []
                  && t.history[..|t.history| - 1] == s.history
                  && t.commands == s.commands + [Item(t.history[|t.history| - 1], true)])
  {
    hide Inv, RunFlush, ConfiguredBefore, RegisteredBefore;
    if op.Register? {
      FaithfulFacts(s, op.destinationId);
    } else if op.Push? && op.target.Some? {
      FaithfulFacts(s, op.target.value.destinationId);
    }
  }

  // ---------------------------------------------------------------- one pass, seen from outside

  ghost predicate ConfigAt(q: seq<Item>, j: nat, d: string)
    requires j < |q|
  {
    !q[j].deferrable && q[j].cmd.kind == Config && For(q[j].cmd, d)
  }

  /** The destination was configured before the pass, or by one of the first `i` queued commands. */
  ghost predicate ConfiguredBy(s: State, i: nat, d: string)
    requires i <= |s.commands|
  {
    IsConfigured(s, d) || exists j :: 0 <= j < i && ConfigAt(s.commands, j, d)
  }

  /** Whether the command at position `i`, if it is deferrable, is ready when a pass reaches it. */
  ghost predicate ReadyAt(s: State, i: nat)
    requires i < |s.commands|
  {
    var target := s.commands[i].cmd.target;
    target.None? || ConfiguredBy(s, i, target.value.destinationId)
  }

  /** Of the first `n` queued commands: those that are not deferrable, in order. */
  ghost function Plain(s: State, n: nat): seq<Command>
    requires n <= |s.commands|
  {
    if n == 0 then [] else Plain(s, n - 1) + (if s.commands[n - 1].deferrable then [] else [s.commands[n - 1].cmd])
  }

  /** The deferrable ones that are ready, and the deferrable ones that are not, in order. */
  ghost function Freed(s: State, n: nat): seq<Item>
    requires n <= |s.commands|
  {
    if n == 0 then []
    else
      var x := s.commands[n - 1];
      Freed(s, n - 1) + (if x.deferrable && ReadyAt(s, n - 1) then [x.(deferrable := false)] else [])
  }

  ghost function Held(s: State, n: nat): seq<Item>
    requires n <= |s.commands|
  {
    if n == 0 then []
    else
      var x := s.commands[n - 1];
      Held(s, n - 1) + (if x.deferrable && !ReadyAt(s, n - 1) then [x] else [])
  }

  ghost predicate BlocksAt(s: State, i: nat)
    requires i < |s.commands|
  {
    !s.commands[i].deferrable && Blocks(s, s.commands[i].cmd)
  }

  /** A pass that began in `s` and has reached position `i` is in state `t`. */
  ghost predicate Reached(s: State, t: State, i: nat)
    requires i <= |s.commands|
  {
    && t.commands == s.commands[i..] + Freed(s, i)
    && Executed(t.log) == Executed(s.log) + Plain(s, i)
    && (forall d :: Lookup(t, d).status == Lookup(s, d).status)
    && (forall d :: IsConfigured(t, d) <==> ConfiguredBy(s, i, d))
  }

  lemma ConfiguredNext(s: State, i: nat, d: string)
    requires i < |s.commands|
    ensures ConfiguredBy(s, i + 1, d) <==> ConfiguredBy(s, i, d) || ConfigAt(s.commands, i, d)
  {
    if j :| 0 <= j < i && ConfigAt(s.commands, j, d) {
      assert 0 <= j < i + 1 && ConfigAt(s.commands, j, d);
    }
    if ConfigAt(s.commands, i, d) {
      assert 0 <= i < i + 1 && ConfigAt(s.commands, i, d);
    }
  }

  /** The front of the queue of a pass that has reached position `i`. */
  lemma ReachedFront(s: State, t: State, i: nat)
    requires i < |s.commands| && Reached(s, t, i)
    ensures t.commands != [] && t.commands[0] == s.commands[i]
    ensures t.commands[1..] == s.commands[i + 1..] + Freed(s, i)
    ensures MayRun(t, s.commands[i].cmd) <==> ReadyAt(s, i)
    ensures Blocks(t, s.commands[i].cmd) <==> Blocks(s, s.commands[i].cmd)
  {
    hide Freed, Executed, ConfiguredBy;
  }

  lemma ReachedFreed(s: State, t: State, i: nat)
    requires i < |s.commands| && Reached(s, t, i) && s.commands[i].deferrable && ReadyAt(s, i)
    ensures Reached(s, t.(commands := t.commands[1..] + [s.commands[i].(deferrable := false)]), i + 1)
  {
    ReachedFront(s, t, i);
    hide Executed, ConfiguredBy, ReadyAt;
    var u := t.(commands := t.commands[1..] + [s.commands[i].(deferrable := false)]);
    forall d
      ensures IsConfigured(u, d) <==> ConfiguredBy(s, i + 1, d)
    {
      ConfiguredNext(s, i, d);
      assert IsConfigured(u, d) == IsConfigured(t, d);
    }
    assert forall d :: Lookup(u, d).status == Lookup(t, d).status;
  }

  lemma ReachedHeld(s: State, t: State, i: nat)
    requires i < |s.commands| && Reached(s, t, i) && s.commands[i].deferrable && !ReadyAt(s, i)
    ensures Reached(s, t.(commands := t.commands[1..]), i + 1)
  {
    ReachedFront(s, t, i);
    hide Executed, ConfiguredBy, ReadyAt;
    var u := t.(commands := t.commands[1..]);
    forall d
      ensures IsConfigured(u, d) <==> ConfiguredBy(s, i + 1, d)
    {
      ConfiguredNext(s, i, d);
      assert IsConfigured(u, d) == IsConfigured(t, d);
    }
    assert forall d :: Lookup(u, d).status == Lookup(t, d).status;
  }

  lemma ReachedRan(s: State, t: State, i: nat)
    requires i < |s.commands| && Reached(s, t, i) && !s.commands[i].deferrable
    ensures Reached(s, Execute(t, s.commands[i].cmd).(commands := t.commands[1..]), i + 1)
  {
    ReachedFront(s, t, i);
    var c := s.commands[i].cmd;
    ExecutedAppend(t.log, Ran(c, ReachesHandler(t, c)));
    hide Executed, ConfiguredBy, ReachesHandler;
    var u := Execute(t, c).(commands := t.commands[1..]);
    forall d
      ensures IsConfigured(u, d) <==> ConfiguredBy(s, i + 1, d)
      ensures Lookup(u, d).status == Lookup(t, d).status
    {
      ConfiguredNext(s, i, d);
      assert Lookup(u, d) == Lookup(Configure(t, c), d);
    }
  }

  lemma {:induction false} FreeRun(t: State, deferred: seq<Item>, reconfigured: bool)
    requires forall x <- t.commands :: !x.deferrable && x.cmd.kind != Require
    ensures var p := RunPass(t, deferred, reconfigured);
            && !p.blocked
            && p.state.commands == deferred
            && Executed(p.state.log) == Executed(t.log) + Cmds(t.commands)
    decreases |t.commands|
  {
    if t.commands == [] {
      assert Executed(t.log) + Cmds([]) == Executed(t.log);
    } else {
      var c := t.commands[0].cmd;
      ExecutedAppend(t.log, Ran(c, ReachesHandler(t, c)));
      FreeRun(Execute(t, c).(commands := t.commands[1..]), deferred, reconfigured || c.kind == Config);
    }
  }

  lemma {:induction false} FreedIsFree(s: State, n: nat)
    requires n <= |s.commands|
    requires forall x <- s.commands :: x.deferrable ==> x.cmd.kind != Require
    ensures forall x <- Freed(s, n) :: !x.deferrable && x.cmd.kind != Require
  {
    if n != 0 {
      FreedIsFree(s, n - 1);
      assert s.commands[n - 1] in s.commands;
    }
  }

  /** `k` is where a pass over the queue ends: the first require it must wait for, or the end. */
  ghost predicate EndsAt(s: State, k: nat) {
    && k <= |s.commands|
    && (forall i :: 0 <= i < k ==> !BlocksAt(s, i))
    && (k < |s.commands| ==> BlocksAt(s, k))
  }

  /** What a pass from `s` that ends at `k` has done. */
  ghost predicate Passed(s: State, k: nat, p: Pass)
    requires k <= |s.commands|
  {
    && (p.blocked <==> k < |s.commands|)
    && p.state.commands == (if k < |s.commands| then s.commands[k..] + Freed(s, k) else []) + Held(s, k)
    && Executed(p.state.log)
       == Executed(s.log) + Plain(s, k) + (if k < |s.commands| then [] else Cmds(Freed(s, k)))
  }

  lemma PassEnds(s: State, t: State, k: nat, reconfigured: bool)
    requires EndsAt(s, k) && Reached(s, t, k)
    requires forall x <- s.commands :: x.deferrable ==> x.cmd.kind != Require
    ensures Passed(s, k, RunPass(t, Held(s, k), reconfigured))
  {
    hide Executed, ConfiguredBy, Held, Freed;
    if k == |s.commands| {
      FreedIsFree(s, k);
      assert t.commands == Freed(s, k);
      hide RunPass;
      FreeRun(t, Held(s, k), reconfigured);
    } else {
      ReachedFront(s, t, k);
      assert t.commands + Held(s, k) == s.commands[k..] + Freed(s, k) + Held(s, k);
    }
  }

  /** One turn of the loop at a command that does not end the pass. */
  lemma OneTurn(s: State, t: State, i: nat, reconfigured: bool) returns (u: State, r: bool)
    requires i < |s.commands| && Reached(s, t, i) && !BlocksAt(s, i)
    ensures Reached(s, u, i + 1)
    ensures RunPass(t, Held(s, i), reconfigured) == RunPass(u, Held(s, i + 1), r)
  {
    hide Executed, ConfiguredBy, Reached, ReadyAt;
    ReachedFront(s, t, i);
    var x, rest := s.commands[i], t.commands[1..];
    r := reconfigured;
    if x.deferrable && MayRun(t, x.cmd) {
      ReachedFreed(s, t, i);
      WeightAppend(rest, x.(deferrable := false));
      assert Held(s, i + 1) == Held(s, i);
      u := t.(commands := rest + [x.(deferrable := false)]);
    } else if x.deferrable {
      ReachedHeld(s, t, i);
      u := t.(commands := rest);
    } else {
      ReachedRan(s, t, i);
      assert Held(s, i + 1) == Held(s, i) && !Blocks(t, x.cmd);
      u, r := Execute(t, x.cmd).(commands := rest), reconfigured || x.cmd.kind == Config;
    }
  }

  lemma {:induction false} PassFrom(s: State, t: State, i: nat, k: nat, reconfigured: bool)
    requires EndsAt(s, k) && i <= k && Reached(s, t, i)
    requires forall x <- s.commands :: x.deferrable ==> x.cmd.kind != Require
    ensures Passed(s, k, RunPass(t, Held(s, i), reconfigured))
    decreases k - i
  {
    hide Executed, Reached, Passed, RunPass, Held, BlocksAt;
    if i == k {
      PassEnds(s, t, k, reconfigured);
    } else {
      var u, r := OneTurn(s, t, i, reconfigured);
      PassFrom(s, u, i + 1, k, r);
    }
  }

  /**
   * One pass, in any state. It ends at the first require of an unregistered destination. The
   * commands before it that are not deferrable run in order. The deferrable ones that are ready
   * when reached run after those, in order, or wait behind the rest of the queue if a require
   * stopped the pass; those that are not ready come last, in order.
   */
  lemma PassDoes(s: State, k: nat)
    requires EndsAt(s, k)
    requires forall x <- s.commands :: x.deferrable ==> x.cmd.kind != Require
    ensures Passed(s, k, RunPass(s, [], false))
  {
    hide Executed, Passed;
    assert s.commands[0..] + Freed(s, 0) == s.commands;
    assert Executed(s.log) + Plain(s, 0) == Executed(s.log);
    PassFrom(s, s, 0, k, false);
  }
}
