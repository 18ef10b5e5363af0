/**
 * The command queue of the tag loader: commands for a destination wait behind an automatically
 * inserted `require` until the destination is registered, and deferrable commands also wait
 * until it is configured.
 */
module CommandQueue {
  import opened Prelude

  datatype Target = Target(destinationId: string, id: string)

  datatype Kind = Require | Set | Config | Event | Get

  /**
   * A command as it was pushed. `serial` is its position among all commands ever created,
   * `update` the flag of a config that only updates, and `marked` whether it was still
   * deferrable when it entered the queue.
   */
  datatype Command = Command(serial: nat, kind: Kind, target: Option<Target>, update: bool, marked: bool)

  /** A queued command with its current deferrable flag. */
  datatype Item = Item(cmd: Command, deferrable: bool)

  datatype Status = Unseen | Waiting | Registered

  /** What the queue knows of a destination; `configured` is set by its first config. */
  datatype Destination = Destination(status: Status, configured: bool)

  /** What happened: a handler was registered, or a command ran and did or did not reach the handler. */
  datatype Entry = Registration(destinationId: string) | Ran(cmd: Command, handled: bool)

  datatype State = State(
    destinations: map<string, Destination>,
    commands: seq<Item>,
    log: seq<Entry>,
    history: seq<Command>)

  const INITIAL := State(map[], [], [], [])

  function Lookup(s: State, d: string): Destination {
    if d in s.destinations then s.destinations[d] else Destination(Unseen, false)
  }

  predicate IsRegistered(s: State, d: string) {
    Lookup(s, d).status == Registered
  }

  predicate IsConfigured(s: State, d: string) {
    Lookup(s, d).configured
  }

  function SetStatus(s: State, d: string, status: Status): State {
    s.(destinations := s.destinations[d := Lookup(s, d).(status := status)])
  }

  // ---------------------------------------------------------------- one command

  /** Whether running `c` calls the destination's handler. */
  predicate ReachesHandler(s: State, c: Command) {
    && c.target.Some?
    && IsRegistered(s, c.target.value.destinationId)
    && (c.kind == Event || c.kind == Get
        || (c.kind == Config && !(c.update && IsConfigured(s, c.target.value.destinationId))))
  }

  function Configure(s: State, c: Command): State {
    if c.kind == Config && c.target.Some? then
      var d := c.target.value.destinationId;
      s.(destinations := s.destinations[d := Lookup(s, d).(configured := true)])
    else s
  }

  function Execute(s: State, c: Command): State {
    Configure(s, c).(log := s.log + [Ran(c, ReachesHandler(s, c))])
  }

  /** A deferrable command may run as soon as it has no destination or a configured one. */
  predicate MayRun(s: State, c: Command) {
    c.target.None? || IsConfigured(s, c.target.value.destinationId)
  }

  predicate Blocks(s: State, c: Command) {
    c.kind == Require && c.target.Some? && !IsRegistered(s, c.target.value.destinationId)
  }

  // ---------------------------------------------------------------- one pass over the queue

  /** The termination measure of a pass: a deferrable command may be looked at twice. */
  function Weight(q: seq<Item>): nat {
    if q == [] then 0 else (if q[0].deferrable then 2 else 1) + Weight(q[1..])
  }

  lemma {:induction false} WeightAppend(q: seq<Item>, x: Item)
    ensures Weight(q + [x]) == Weight(q) + (if x.deferrable then 2 else 1)
  {
    if q == [] {
      assert [] + [x] == [x];
    } else {
      assert (q + [x])[1..] == q[1..] + [x];
      WeightAppend(q[1..], x);
    }
  }

  datatype Pass = Pass(state: State, reconfigured: bool, blocked: bool)

  function RunPass(s: State, deferred: seq<Item>, reconfigured: bool): (p: Pass)
    ensures |p.state.commands| + |p.state.log| == |s.commands| + |deferred| + |s.log|
    ensures p.reconfigured && !reconfigured ==> |p.state.log| > |s.log|
    ensures reconfigured ==> p.reconfigured
    ensures |p.state.log| >= |s.log|
    decreases Weight(s.commands)
  {
    if s.commands == [] then
      Pass(s.(commands := deferred), reconfigured, false)
    else
      var x, rest := s.commands[0], s.commands[1..];
      if x.deferrable then
        if MayRun(s, x.cmd) then
          WeightAppend(rest, x.(deferrable := false));
          RunPass(s.(commands := rest + [x.(deferrable := false)]), deferred, reconfigured)
        else
          RunPass(s.(commands := rest), deferred + [x], reconfigured)
      else if Blocks(s, x.cmd) then
        Pass(s.(commands := s.commands + deferred), reconfigured, true)
      else
        RunPass(Execute(s, x.cmd).(commands := rest), deferred, reconfigured || x.cmd.kind == Config)
  }

  /** A flush repeats its pass after every unblocked pass that ran a config. */
  function RunFlush(s: State): State
    decreases |s.commands|
  {
    var p := RunPass(s, [], false);
    if p.reconfigured && !p.blocked then RunFlush(p.state) else p.state
  }

  // ---------------------------------------------------------------- operations

  function Enqueue(s: State, kind: Kind, target: Option<Target>, update: bool, deferrable: bool): State {
    var marked := deferrable && !(target.Some? && IsConfigured(s, target.value.destinationId));
    var c := Command(|s.history|, kind, target, update, marked);
    var s' := s.(commands := s.commands + [Item(c, marked)], history := s.history + [c]);
    if marked then s' else RunFlush(s')
  }

  function PushStep(s: State, kind: Kind, target: Option<Target>, update: bool, deferrable: bool): State {
    if target.Some? && Lookup(s, target.value.destinationId).status == Unseen then
      var s' := SetStatus(s, target.value.destinationId, Waiting);
      Enqueue(Enqueue(s', Require, target, false, false), kind, target, update, deferrable)
    else
      Enqueue(s, kind, target, update, deferrable)
  }

  function RegisterStep(s: State, d: string): State {
    if IsRegistered(s, d) then s
    else
      var s' := SetStatus(s, d, Registered);
      RunFlush(s'.(log := s'.log + [Registration(d)]))
  }

  /** The queue as the program keeps it, with the log of what reached the outside. */
  class Queue {
    var destinations: map<string, Destination>
    var commands: seq<Item>
    var log: seq<Entry>
    ghost var history: seq<Command>
    var created: nat

    ghost predicate Valid()
      reads this
    {
      created == |history|
    }

    ghost function Value(): State
      reads this
    {
      State(destinations, commands, log, history)
    }

    constructor ()
      ensures Valid() && Value() == INITIAL
    {
      destinations, commands, log, history, created := map[], [], [], [], 0;
    }

    method Find(target: Target) returns (d: Destination)
      ensures d == Lookup(Value(), target.destinationId)
    {
      d := if target.destinationId in destinations then destinations[target.destinationId]
           else Destination(Unseen, false);
    }

    method Perform(c: Command)
      modifies this`destinations, this`log
      ensures Value() == Execute(old(Value()), c)
    {
      var handled := false;
      if c.target.Some? {
        var d := Find(c.target.value);
        handled := d.status == Registered
                   && (c.kind == Event || c.kind == Get || (c.kind == Config && !(c.update && d.configured)));
        if c.kind == Config {
          destinations := destinations[c.target.value.destinationId := d.(configured := true)];
        }
      }
      log := log + [Ran(c, handled)];
    }

    /** Shifts commands off the front; commands that must wait are put back at the end. */
    method Flush()
      requires Valid()
      modifies this`destinations, this`commands, this`log
      ensures Valid() && Value() == RunFlush(old(Value()))
      decreases |commands|
    {
      var deferred: seq<Item> := [];
      var reconfigured := false;
      while commands != []
        invariant Valid() && history == old(history)
        invariant RunPass(Value(), deferred, reconfigured) == RunPass(old(Value()), [], false)
        decreases Weight(commands)
      {
        var x := commands[0];
        if x.deferrable {
          var free := true;
          if x.cmd.target.Some? {
            var d := Find(x.cmd.target.value);
            free := d.configured;
          }
          if free {
            WeightAppend(commands[1..], x.(deferrable := false));
            commands := commands[1..] + [x.(deferrable := false)];
          } else {
            deferred := deferred + [x];
            commands := commands[1..];
          }
        } else {
          if x.cmd.kind == Require && x.cmd.target.Some? {
            var d := Find(x.cmd.target.value);
            if d.status != Registered {
              commands := commands + deferred;
              return;
            }
          }
          Perform(x.cmd);
          commands := commands[1..];
          reconfigured := reconfigured || x.cmd.kind == Config;
        }
      }
      commands := deferred;
      if reconfigured {
        Flush();
      }
    }

    method Append(kind: Kind, target: Option<Target>, update: bool, deferrable: bool)
      requires Valid()
      modifies this
      ensures Valid() && Value() == Enqueue(old(Value()), kind, target, update, deferrable)
    {
      var marked := deferrable;
      if target.Some? {
        var d := Find(target.value);
        if d.configured {
          marked := false;
        }
      }
      var c := Command(created, kind, target, update, marked);
      created := created + 1;
      history := history + [c];
      commands := commands + [Item(c, marked)];
      if !marked {
        Flush();
      }
    }

    method Push(kind: Kind, target: Option<Target>, update: bool, deferrable: bool)
      requires Valid()
      modifies this
      ensures Valid() && Value() == PushStep(old(Value()), kind, target, update, deferrable)
    {
      if target.Some? {
        var d := Find(target.value);
        if d.status == Unseen {
          destinations := destinations[target.value.destinationId := d.(status := Waiting)];
          Append(Require, target, false, false);
        }
      }
      Append(kind, target, update, deferrable);
    }

    method Register(target: Target)
      requires Valid()
      modifies this
      ensures Valid() && Value() == RegisterStep(old(Value()), target.destinationId)
    {
      var d := Find(target);
      if d.status != Registered {
        destinations := destinations[target.destinationId := d.(status := Registered)];
        log := log + [Registration(target.destinationId)];
        Flush();
      }
    }
  }
}
