/**
 * The heartbeat and request client: requests wait in a pending map until they are answered, time
 * out or the client dies; heartbeats decide whether it is ready, retrying or dead.
 */
module Heartbeat {
  import opened Prelude

  const ALLOWED_FAILURES: nat := 20
  const TIMED_OUT := 7
  const GAVE_UP := 10
  const COUNT_MISMATCH := 13
  const UNKNOWN_REQUEST := 14

  datatype Phase = Idle | Starting | Ready | Retrying | Dead

  datatype Kind = Beat | Command

  /** A request whose answer is still owed; `unsent` while it waits for the client to be ready. */
  datatype Pending = Pending(kind: Kind, unsent: bool)

  /** What a callback receives: an answer from the worker, or the request marked as failed. */
  datatype Message = Message(
    kind: Option<Kind>,
    failure: Option<int>,
    isDead: bool,
    stats: Option<nat>,
    hasResult: bool)

  datatype Notice = FirstReady | Recovered | Died(code: int) | Anomaly(code: int)

  datatype Event =
    | Sent(id: nat)
    | Called(id: nat, message: Message)
    | Settled(id: nat, succeeded: bool)
    | Outcome(failed: bool, dead: bool)
    | Notified(notice: Notice)

  datatype State = State(
    phase: Phase,
    everReady: bool,
    pending: map<nat, Pending>,
    nextId: nat,
    heartbeatCount: nat,
    failures: nat,
    deathCode: int,
    timers: nat,
    log: seq<Event>)

  const INITIAL := State(Idle, false, map[], 0, 0, 0, GAVE_UP, 0, [])

  function LocalFailure(kind: Kind, code: int): Message {
    Message(Some(kind), Some(code), false, None, false)
  }

  function Note(s: State, e: Event): State {
    s.(log := s.log + [e])
  }

  predicate NoBeatPending(s: State) {
    forall id <- s.pending :: s.pending[id].kind == Command
  }

  /** If the request is a heartbeat, it is the only one pending. */
  predicate BeatIsAlone(s: State, id: nat) {
    id in s.pending && s.pending[id].kind == Beat ==> NoBeatPending(s.(pending := s.pending - {id}))
  }

  // ---------------------------------------------------------------- callbacks

  function Send(s: State, id: nat): State
    requires id in s.pending
  {
    Note(s.(pending := s.pending[id := s.pending[id].(unsent := false)]), Sent(id))
  }

  /** Send every waiting request with an id from `i` on, in order. */
  function SendFrom(s: State, i: nat): State
    decreases s.nextId - i
  {
    if i >= s.nextId then s
    else SendFrom(if i in s.pending && s.pending[i].unsent then Send(s, i) else s, i + 1)
  }

  /** The callback of a command: a message that is not about a command is ignored. */
  function CommandCallback(s: State, id: nat, m: Message): State {
    var s' := Note(s, Called(id, m));
    if m.kind != Some(Command) then s'
    else if m.hasResult then Note(s', Settled(id, true))
    else Note(Note(s', Notified(Anomaly(if m.failure.Some? then m.failure.value else 12))), Settled(id, false))
  }

  /** Fail every pending command with an id from `i` on, in order. */
  function FailFrom(s: State, i: nat, code: int): State
    requires NoBeatPending(s)
    decreases s.nextId - i
  {
    if i >= s.nextId then s
    else
      FailFrom(if i in s.pending
               then CommandCallback(s.(pending := s.pending - {i}), i, LocalFailure(Command, code))
               else s,
               i + 1, code)
  }

  /** The callback of a heartbeat. A success without statistics makes it throw halfway. */
  function BeatCallback(s: State, id: nat, m: Message): State
    requires NoBeatPending(s)
  {
    var s := Note(s, Called(id, m));
    if m.kind != Some(Beat) then s
    else if m.failure.Some? then
      var s := Note(s.(failures := s.failures + 1), Outcome(true, m.isDead));
      if m.isDead || s.failures > ALLOWED_FAILURES then
        var code := if m.isDead && m.failure.value != 0 then m.failure.value else GAVE_UP;
        Note(FailFrom(s.(deathCode := code, phase := Dead), 0, code), Notified(Died(code)))
      else
        s.(phase := Retrying, timers := s.timers + 1)
    else if m.stats.None? then s
    else AfterSuccess(s, m.stats.value)
  }

  /** A heartbeat that went well: the client is ready, sends what waits, and sets the next timer. */
  function AfterSuccess(s: State, count: nat): State {
    var s := Note(s, Outcome(false, false));
    var s := if s.heartbeatCount > count + ALLOWED_FAILURES
             then Note(s.(heartbeatCount := count), Notified(Anomaly(COUNT_MISMATCH)))
             else s;
    var s := if s.phase == Ready then s
             else Note(s.(everReady := true), Notified(if s.everReady then Recovered else FirstReady));
    var s := SendFrom(s.(phase := Ready, failures := 0), 0);
    s.(timers := s.timers + 1)
  }

  /** A pending request leaves the map and its callback runs. */
  function Finish(s: State, id: nat, m: Message): State
    requires id in s.pending && BeatIsAlone(s, id)
  {
    var s' := s.(pending := s.pending - {id});
    if s.pending[id].kind == Beat then BeatCallback(s', id, m) else CommandCallback(s', id, m)
  }

  // ---------------------------------------------------------------- steps

  function Request(s: State, kind: Kind): State
    requires kind == Beat ==> NoBeatPending(s)
  {
    var id := s.nextId;
    var s := s.(nextId := id + 1);
    if s.phase == Dead then
      if kind == Beat then BeatCallback(s, id, LocalFailure(Beat, s.deathCode))
      else CommandCallback(s, id, LocalFailure(Command, s.deathCode))
    else
      var unsent := s.phase != Ready && kind != Beat;
      var s := s.(pending := s.pending[id := Pending(kind, unsent)]);
      if unsent then s else Send(s, id)
  }

  function BeatStep(s: State): State
    requires NoBeatPending(s)
  {
    Request(s.(heartbeatCount := s.heartbeatCount + 1), Beat)
  }

  function InitStep(s: State): State
    requires NoBeatPending(s)
  {
    BeatStep(s.(phase := Starting))
  }

  function TimerStep(s: State): State
    requires s.timers > 0 && NoBeatPending(s)
  {
    BeatStep(s.(timers := s.timers - 1))
  }

  function ReplyStep(s: State, id: nat, m: Message): State
    requires BeatIsAlone(s, id)
  {
    if id in s.pending then Finish(s, id, m) else Note(s, Notified(Anomaly(UNKNOWN_REQUEST)))
  }

  function TimeoutStep(s: State, id: nat): State
    requires BeatIsAlone(s, id)
  {
    if id in s.pending then Finish(s, id, LocalFailure(s.pending[id].kind, TIMED_OUT)) else s
  }

  // ---------------------------------------------------------------- the client object

  class Client {
    var phase: Phase
    var everReady: bool
    var pending: map<nat, Pending>
    var nextId: nat
    var heartbeatCount: nat
    var failures: nat
    var deathCode: int
    var timers: nat
    var log: seq<Event>

    constructor ()
      ensures Value() == INITIAL
    {
      phase, everReady, pending, nextId, heartbeatCount := Idle, false, map[], 0, 0;
      failures, deathCode, timers, log := 0, GAVE_UP, 0, [];
    }

    ghost function Value(): State
      reads this
    {
      State(phase, everReady, pending, nextId, heartbeatCount, failures, deathCode, timers, log)
    }

    method SendRequest(id: nat)
      requires id in pending
      modifies this
      ensures Value() == Send(old(Value()), id)
    {
      pending := pending[id := pending[id].(unsent := false)];
      log := log + [Sent(id)];
    }

    method SendWaiting()
      modifies this
      ensures Value() == SendFrom(old(Value()), 0)
    {
      ghost var goal := SendFrom(Value(), 0);
      for id := 0 to nextId
        invariant nextId == old(nextId)
        invariant SendFrom(Value(), id) == goal
      {
        if id in pending && pending[id].unsent {
          SendRequest(id);
        }
      }
    }

    method RunCommandCallback(id: nat, m: Message)
      modifies this`log
      ensures Value() == CommandCallback(old(Value()), id, m)
    {
      log := log + [Called(id, m)];
      if m.kind == Some(Command) {
        if m.hasResult {
          log := log + [Settled(id, true)];
        } else {
          log := log + [Notified(Anomaly(if m.failure.Some? then m.failure.value else 12))];
          log := log + [Settled(id, false)];
        }
      }
    }

    method FailPending()
      requires NoBeatPending(Value())
      modifies this`pending, this`log
      ensures Value() == FailFrom(old(Value()), 0, deathCode)
    {
      ghost var goal := FailFrom(Value(), 0, deathCode);
      for id := 0 to nextId
        invariant nextId == old(nextId) && deathCode == old(deathCode)
        invariant NoBeatPending(Value())
        invariant FailFrom(Value(), id, deathCode) == goal
      {
        if id in pending {
          pending := pending - {id};
          RunCommandCallback(id, LocalFailure(Command, deathCode));
        }
      }
    }

    method RunBeatCallback(id: nat, m: Message)
      requires NoBeatPending(Value())
      modifies this
      ensures Value() == BeatCallback(old(Value()), id, m)
    {
      log := log + [Called(id, m)];
      if m.kind != Some(Beat) {
        return;
      }
      if m.failure.Some? {
        failures := failures + 1;
        log := log + [Outcome(true, m.isDead)];
        if m.isDead || failures > ALLOWED_FAILURES {
          deathCode := if m.isDead && m.failure.value != 0 then m.failure.value else GAVE_UP;
          phase := Dead;
          FailPending();
          log := log + [Notified(Died(deathCode))];
        } else {
          phase := Retrying;
          timers := timers + 1;
        }
      } else if m.stats.Some? {
        Succeed(m.stats.value);
      }
    }

    method Succeed(count: nat)
      modifies this
      ensures Value() == AfterSuccess(old(Value()), count)
    {
      hide SendFrom;
      log := log + [Outcome(false, false)];
      if heartbeatCount > count + ALLOWED_FAILURES {
        heartbeatCount := count;
        log := log + [Notified(Anomaly(COUNT_MISMATCH))];
      }
      var before := phase;
      phase := Ready;
      if before != Ready {
        log := log + [Notified(if everReady then Recovered else FirstReady)];
        everReady := true;
      }
      failures := 0;
      SendWaiting();
      timers := timers + 1;
    }

    method MakeRequest(kind: Kind)
      requires kind == Beat ==> NoBeatPending(Value())
      modifies this
      ensures Value() == Request(old(Value()), kind)
    {
      var id := nextId;
      nextId := nextId + 1;
      if phase == Dead {
        if kind == Beat {
          RunBeatCallback(id, LocalFailure(Beat, deathCode));
        } else {
          RunCommandCallback(id, LocalFailure(Command, deathCode));
        }
      } else {
        var unsent := phase != Ready && kind != Beat;
        pending := pending[id := Pending(kind, unsent)];
        if !unsent {
          SendRequest(id);
        }
      }
    }

    method SendHeartbeat()
      requires NoBeatPending(Value())
      modifies this
      ensures Value() == BeatStep(old(Value()))
    {
      heartbeatCount := heartbeatCount + 1;
      MakeRequest(Beat);
    }

    method Init()
      requires NoBeatPending(Value())
      modifies this
      ensures Value() == InitStep(old(Value()))
    {
      phase := Starting;
      SendHeartbeat();
    }

    method OnTimer()
      requires timers > 0 && NoBeatPending(Value())
      modifies this
      ensures Value() == TimerStep(old(Value()))
    {
      timers := timers - 1;
      SendHeartbeat();
    }

    method FinishRequest(id: nat, m: Message)
      requires id in pending && BeatIsAlone(Value(), id)
      modifies this
      ensures Value() == Finish(old(Value()), id, m)
    {
      var kind := pending[id].kind;
      pending := pending - {id};
      if kind == Beat {
        RunBeatCallback(id, m);
      } else {
        RunCommandCallback(id, m);
      }
    }

    method OnReply(id: nat, m: Message)
      requires BeatIsAlone(Value(), id)
      modifies this
      ensures Value() == ReplyStep(old(Value()), id, m)
    {
      if id in pending {
        FinishRequest(id, m);
      } else {
        log := log + [Notified(Anomaly(UNKNOWN_REQUEST))];
      }
    }

    method OnRequestTimeout(id: nat)
      requires BeatIsAlone(Value(), id)
      modifies this
      ensures Value() == TimeoutStep(old(Value()), id)
    {
      if id in pending {
        FinishRequest(id, LocalFailure(pending[id].kind, TIMED_OUT));
      }
    }
  }
}
