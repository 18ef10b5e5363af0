/** What every run of the heartbeat client keeps. */
module HeartbeatRuns {
  import opened Prelude
  import opened Heartbeat

  datatype Op = Init | Ask | TimerFires | Reply(id: nat, message: Message) | RequestTimesOut(id: nat)

  /** `init` comes once, and a heartbeat timer fires only if one is set. */
  predicate Enabled(s: State, op: Op) {
    match op
    case Init => s.phase == Idle
    case TimerFires => s.timers > 0
    case _ => true
  }

  // ---------------------------------------------------------------- reading the log

  function Calls(log: seq<Event>): seq<nat> {
    if log == [] then []
    else Calls(log[..|log| - 1]) + (if log[|log| - 1].Called? then [log[|log| - 1].id] else [])
  }

  function Sends(log: seq<Event>): seq<nat> {
    if log == [] then []
    else Sends(log[..|log| - 1]) + (if log[|log| - 1].Sent? then [log[|log| - 1].id] else [])
  }

  /** How many heartbeats have failed since the last one that succeeded. */
  function Trailing(log: seq<Event>): nat {
    if log == [] then 0
    else
      var e := log[|log| - 1];
      if e.Outcome? then (if e.failed then 1 + Trailing(log[..|log| - 1]) else 0) else Trailing(log[..|log| - 1])
  }

  /** The latest heartbeat outcome reported the worker dead. */
  predicate SaidDead(log: seq<Event>) {
    log != [] && (var e := log[|log| - 1]; if e.Outcome? then e.failed && e.dead else SaidDead(log[..|log| - 1]))
  }

  lemma Append(log: seq<Event>, e: Event)
    ensures Calls(log + [e]) == if e.Called? then Calls(log) + [e.id] else Calls(log)
    ensures Sends(log + [e]) == if e.Sent? then Sends(log) + [e.id] else Sends(log)
    ensures Trailing(log + [e]) == if e.Outcome? then (if e.failed then 1 + Trailing(log) else 0) else Trailing(log)
    ensures SaidDead(log + [e]) == if e.Outcome? then e.failed && e.dead else SaidDead(log)
  {
    assert (log + [e])[..|log|] == log;
  }

  // ---------------------------------------------------------------- the invariant

  ghost predicate Distinct(ids: seq<nat>) {
    forall i, j :: 0 <= i < j < |ids| ==> ids[i] != ids[j]
  }

  /** Every id handed out is pending or its callback has run, once; unsent means never sent. */
  ghost predicate Balanced(calls: seq<nat>, sends: seq<nat>, pending: map<nat, Pending>, nextId: nat) {
    && Distinct(calls) && Distinct(sends)
    && (forall id <- pending :: id < nextId)
    && (forall id: nat :: id in calls <==> id < nextId && id !in pending)
    && (forall id <- sends :: id < nextId)
    && (forall id <- pending :: pending[id].unsent <==> id !in sends)
  }

  ghost predicate Accounts(s: State) {
    Balanced(Calls(s.log), Sends(s.log), s.pending, s.nextId)
  }

  predicate OneBeat(s: State) {
    forall i, j :: i in s.pending && j in s.pending && s.pending[i].kind == Beat && s.pending[j].kind == Beat ==> i == j
  }

  /** How many things keep the client going or have ended it: a heartbeat, a timer, or death. */
  function Pulse(s: State): nat {
    (if NoBeatPending(s) then 0 else 1) + s.timers + (if s.phase == Dead then 1 else 0)
  }

  ghost predicate AllSent(s: State) {
    forall id <- s.pending :: !s.pending[id].unsent
  }

  ghost predicate BeatsSent(s: State) {
    forall id <- s.pending :: s.pending[id].kind == Beat ==> !s.pending[id].unsent
  }

  /** Death and the failure count are what the outcomes say. */
  ghost predicate Counts(s: State) {
    && s.failures == Trailing(s.log)
    && (s.phase == Dead <==> SaidDead(s.log) || Trailing(s.log) > ALLOWED_FAILURES)
    && Trailing(s.log) <= ALLOWED_FAILURES + 1
  }

  ghost predicate Valid(s: State) {
    && Accounts(s)
    && OneBeat(s)
    && Pulse(s) <= 1
    && (s.phase == Idle ==> Pulse(s) == 0)
    && (s.phase == Ready ==> AllSent(s))
    && BeatsSent(s)
    && (s.phase == Dead ==> s.pending == map[])
    && Counts(s)
  }

  // ---------------------------------------------------------------- pieces of a step

  /** An event that is neither a call nor a send leaves the accounts alone. */
  lemma NoteKeeps(s: State, e: Event)
    ensures !e.Called? && !e.Sent? ==> Accounts(Note(s, e)) == Accounts(s)
    ensures !e.Outcome? ==> Trailing(Note(s, e).log) == Trailing(s.log) && SaidDead(Note(s, e).log) == SaidDead(s.log)
  {
    hide Balanced, Calls, Sends, Trailing, SaidDead;
    Append(s.log, e);
  }

  /** A pending request leaves the map as its callback is called. */
  function Answer(s: State, id: nat, m: Message): State {
    Note(s.(pending := s.pending - {id}), Called(id, m))
  }

  lemma Closes(calls: seq<nat>, sends: seq<nat>, pending: map<nat, Pending>, nextId: nat, id: nat)
    requires Balanced(calls, sends, pending, nextId) && id in pending
    ensures Balanced(calls + [id], sends, pending - {id}, nextId)
  {
  }

  lemma Sends1(calls: seq<nat>, sends: seq<nat>, pending: map<nat, Pending>, nextId: nat, id: nat)
    requires Balanced(calls, sends, pending, nextId) && id in pending && pending[id].unsent
    ensures Balanced(calls, sends + [id], pending[id := pending[id].(unsent := false)], nextId)
  {
  }

  lemma Opens(calls: seq<nat>, sends: seq<nat>, pending: map<nat, Pending>, nextId: nat, kind: Kind)
    requires Balanced(calls, sends, pending, nextId)
    ensures Balanced(calls, sends, pending[nextId := Pending(kind, true)], nextId + 1)
    ensures Balanced(calls + [nextId], sends, pending, nextId + 1)
  {
    assert nextId !in calls && nextId !in sends && nextId !in pending;
    assert forall id: nat :: id in calls + [nextId] <==> id in calls || id == nextId;
  }

  lemma AnswerKeeps(s: State, id: nat, m: Message)
    requires Accounts(s) && id in s.pending
    ensures Accounts(Answer(s, id, m))
  {
    hide Balanced, Calls, Sends;
    Append(s.log, Called(id, m));
    Closes(Calls(s.log), Sends(s.log), s.pending, s.nextId, id);
  }

  lemma SendKeeps(s: State, id: nat)
    requires Accounts(s) && id in s.pending && s.pending[id].unsent
    ensures Accounts(Send(s, id))
    ensures Trailing(Send(s, id).log) == Trailing(s.log) && SaidDead(Send(s, id).log) == SaidDead(s.log)
  {
    hide Balanced, Calls, Sends, Trailing, SaidDead;
    Append(s.log, Sent(id));
    Sends1(Calls(s.log), Sends(s.log), s.pending, s.nextId, id);
  }

  lemma NewKeeps(s: State, kind: Kind)
    requires Accounts(s)
    ensures Accounts(s.(nextId := s.nextId + 1, pending := s.pending[s.nextId := Pending(kind, true)]))
  {
    hide Balanced, Calls, Sends;
    Opens(Calls(s.log), Sends(s.log), s.pending, s.nextId, kind);
  }

  lemma TurnedAwayKeeps(s: State, m: Message)
    requires Accounts(s)
    ensures Accounts(Note(s.(nextId := s.nextId + 1), Called(s.nextId, m)))
  {
    hide Balanced, Calls, Sends;
    Opens(Calls(s.log), Sends(s.log), s.pending, s.nextId, Command);
    Append(s.log, Called(s.nextId, m));
  }

  /** Sending from `i` on touches only the unsent flags and the log. */
  lemma {:induction false} SendFromShape(s: State, i: nat)
    ensures var t := SendFrom(s, i);
            && t == s.(pending := t.pending, log := t.log)
            && t.pending.Keys == s.pending.Keys
            && (forall id <- s.pending :: t.pending[id].kind == s.pending[id].kind)
            && (forall id <- s.pending :: t.pending[id].unsent ==> s.pending[id].unsent && (id < i || id >= s.nextId))
    decreases s.nextId - i
  {
    if i >= s.nextId {
    } else {
      SendFromShape(if i in s.pending && s.pending[i].unsent then Send(s, i) else s, i + 1);
    }
  }

  lemma {:induction false} SendFromKeeps(s: State, i: nat)
    requires Accounts(s)
    ensures var t := SendFrom(s, i);
            Accounts(t) && Trailing(t.log) == Trailing(s.log) && SaidDead(t.log) == SaidDead(s.log)
    decreases s.nextId - i
  {
    hide Accounts, Trailing, SaidDead;
    if i >= s.nextId {
    } else {
      if i in s.pending && s.pending[i].unsent {
        SendKeeps(s, i);
        SendFromKeeps(Send(s, i), i + 1);
      } else {
        SendFromKeeps(s, i + 1);
      }
    }
  }

  lemma CommandCallbackKeeps(s: State, id: nat, m: Message)
    requires Accounts(s) && id in s.pending
    ensures var t := CommandCallback(s.(pending := s.pending - {id}), id, m);
            && Accounts(t)
            && Trailing(t.log) == Trailing(s.log) && SaidDead(t.log) == SaidDead(s.log)
            && t == s.(pending := s.pending - {id}, log := t.log)
  {
    AnswerKeeps(s, id, m);
    CallbackNotes(s.(pending := s.pending - {id}), id, m);
  }

  lemma CallbackNotes(s: State, id: nat, m: Message)
    ensures var t := CommandCallback(s, id, m);
            && Accounts(t) == Accounts(Note(s, Called(id, m)))
            && Trailing(t.log) == Trailing(s.log) && SaidDead(t.log) == SaidDead(s.log)
            && t == s.(log := t.log)
  {
    hide Accounts;
    var a := Note(s, Called(id, m));
    var code := if m.failure.Some? then m.failure.value else 12;
    NoteKeeps(s, Called(id, m));
    NoteKeeps(a, Settled(id, true));
    NoteKeeps(a, Notified(Anomaly(code)));
    NoteKeeps(Note(a, Notified(Anomaly(code))), Settled(id, false));
  }

  /** Failing from `i` on removes those requests and touches nothing else but the log. */
  lemma {:induction false} FailFromShape(s: State, i: nat, code: int)
    requires NoBeatPending(s)
    ensures var t := FailFrom(s, i, code);
            && t == s.(pending := t.pending, log := t.log)
            && (forall id <- t.pending :: id in s.pending && (id < i || id >= s.nextId))
    decreases s.nextId - i
  {
    if i >= s.nextId {
    } else {
      FailFromShape(if i in s.pending
                    then CommandCallback(s.(pending := s.pending - {i}), i, LocalFailure(Command, code))
                    else s,
                    i + 1, code);
    }
  }

  lemma {:induction false} FailFromKeeps(s: State, i: nat, code: int)
    requires Accounts(s) && NoBeatPending(s)
    ensures var t := FailFrom(s, i, code);
            Accounts(t) && Trailing(t.log) == Trailing(s.log) && SaidDead(t.log) == SaidDead(s.log)
    decreases s.nextId - i
  {
    hide Accounts, Trailing, SaidDead, CommandCallback;
    if i >= s.nextId {
    } else {
      if i in s.pending {
        CommandCallbackKeeps(s, i, LocalFailure(Command, code));
        FailFromKeeps(CommandCallback(s.(pending := s.pending - {i}), i, LocalFailure(Command, code)), i + 1, code);
      } else {
        FailFromKeeps(s, i + 1, code);
      }
    }
  }

  /** A heartbeat answer that the client acts on: about a heartbeat, and a success has statistics. */
  predicate Proper(m: Message) {
    m.kind == Some(Beat) && (m.failure.Some? || m.stats.Some?)
  }

  /** The state in which a failed heartbeat has just been counted. */
  function Failed(s: State, id: nat, m: Message): State {
    Note(Note(s.(failures := s.failures + 1), Called(id, m)), Outcome(true, m.isDead))
  }

  lemma FailedKeeps(s: State, id: nat, m: Message)
    requires Accounts(Note(s, Called(id, m)))
    ensures Accounts(Failed(s, id, m))
    ensures Trailing(Failed(s, id, m).log) == Trailing(s.log) + 1
    ensures SaidDead(Failed(s, id, m).log) == m.isDead
  {
    hide Balanced, Calls, Sends, Trailing, SaidDead;
    Append(s.log, Called(id, m));
    Append(s.log + [Called(id, m)], Outcome(true, m.isDead));
  }

  lemma Dies(c: State, code: int)
    requires Accounts(c) && NoBeatPending(c)
    ensures var t := Note(FailFrom(c.(deathCode := code, phase := Dead), 0, code), Notified(Died(code)));
            && Accounts(t) && Trailing(t.log) == Trailing(c.log) && SaidDead(t.log) == SaidDead(c.log)
            && t.pending == map[] && t.phase == Dead && t.timers == c.timers && t.failures == c.failures
  {
    var d := c.(deathCode := code, phase := Dead);
    assert forall i <- c.pending :: i < c.nextId;
    hide Balanced, Trailing, SaidDead, FailFrom;
    FailFromKeeps(d, 0, code);
    FailFromShape(d, 0, code);
    var e := FailFrom(d, 0, code);
    assert forall i :: i !in e.pending;
    NoteKeeps(e, Notified(Died(code)));
  }

  lemma BeatFails(s: State, id: nat, m: Message)
    requires Accounts(Note(s, Called(id, m))) && NoBeatPending(s)
    requires m.kind == Some(Beat) && m.failure.Some? && s.failures == Trailing(s.log) <= ALLOWED_FAILURES
    ensures var t := BeatCallback(s, id, m);
            && Accounts(t) && Counts(t)
            && (t.phase == Dead ==> t.pending == map[] && t.timers == s.timers)
            && (t.phase != Dead ==> t.phase == Retrying && t.pending == s.pending && t.timers == s.timers + 1)
  {
    hide Balanced, Trailing, SaidDead, FailFrom;
    FailedKeeps(s, id, m);
    var c := Failed(s, id, m);
    if m.isDead || c.failures > ALLOWED_FAILURES {
      Dies(c, if m.isDead && m.failure.value != 0 then m.failure.value else GAVE_UP);
    }
  }

  /** The state in which a successful heartbeat has been noted, before the waiting requests are sent. */
  function Succeeded(s: State, id: nat, m: Message): State
    requires m.stats.Some?
  {
    var s := Note(Note(s, Called(id, m)), Outcome(false, false));
    var s := if s.heartbeatCount > m.stats.value + ALLOWED_FAILURES
             then Note(s.(heartbeatCount := m.stats.value), Notified(Anomaly(COUNT_MISMATCH)))
             else s;
    var s := if s.phase == Ready then s
             else Note(s.(everReady := true), Notified(if s.everReady then Recovered else FirstReady));
    s.(phase := Ready, failures := 0)
  }

  lemma SucceededKeeps(s: State, id: nat, m: Message)
    requires Accounts(Note(s, Called(id, m))) && m.stats.Some?
    ensures var t := Succeeded(s, id, m);
            && Accounts(t) && Trailing(t.log) == 0 && !SaidDead(t.log)
            && t.pending == s.pending && t.timers == s.timers && t.nextId == s.nextId
  {
    hide Accounts, Trailing, SaidDead;
    var a := Note(s, Called(id, m));
    var b := Note(a, Outcome(false, false));
    Append(a.log, Outcome(false, false));
    NoteKeeps(a, Outcome(false, false));
    var c0 := b.(heartbeatCount := m.stats.value);
    NoteKeeps(c0, Notified(Anomaly(COUNT_MISMATCH)));
    SameAccounts(b, c0);
    var c := if b.heartbeatCount > m.stats.value + ALLOWED_FAILURES then Note(c0, Notified(Anomaly(COUNT_MISMATCH)))
             else b;
    var d0 := c.(everReady := true);
    NoteKeeps(d0, Notified(if c.everReady then Recovered else FirstReady));
    SameAccounts(c, d0);
    var d := if c.phase == Ready then c else Note(d0, Notified(if c.everReady then Recovered else FirstReady));
    SameAccounts(d, d.(phase := Ready, failures := 0));
  }

  lemma SameAccounts(s: State, t: State)
    requires t.log == s.log && t.pending == s.pending && t.nextId == s.nextId
    ensures Accounts(t) == Accounts(s)
  {
  }

  lemma BeatSucceeds(s: State, id: nat, m: Message)
    requires Accounts(Note(s, Called(id, m))) && NoBeatPending(s)
    requires m.kind == Some(Beat) && m.failure.None? && m.stats.Some?
    ensures var t := BeatCallback(s, id, m);
            && Accounts(t) && Counts(t) && NoBeatPending(t) && AllSent(t)
            && t.phase == Ready && t.timers == s.timers + 1
  {
    assert forall i <- s.pending :: i < s.nextId;
    BeatSuccessIs(s, id, m);
    hide Accounts, Trailing, SaidDead, SendFrom, Succeeded, BeatCallback;
    SucceededKeeps(s, id, m);
    var a := Succeeded(s, id, m);
    SendFromKeeps(a, 0);
    SendFromShape(a, 0);
    var b := SendFrom(a, 0);
    NoneWaits(a, b);
    SameAccounts(b, b.(timers := b.timers + 1));
  }

  lemma NoneWaits(s: State, t: State)
    requires t.pending.Keys == s.pending.Keys
    requires forall id <- s.pending :: id < s.nextId && t.pending[id].kind == s.pending[id].kind
    requires forall id <- s.pending :: t.pending[id].unsent ==> s.pending[id].unsent && id >= s.nextId
    ensures AllSent(t) && (NoBeatPending(s) ==> NoBeatPending(t))
  {
  }

  lemma BeatSuccessIs(s: State, id: nat, m: Message)
    requires NoBeatPending(s) && m.kind == Some(Beat) && m.failure.None? && m.stats.Some?
    ensures var a := Succeeded(s, id, m);
            var b := SendFrom(a, 0);
            BeatCallback(s, id, m) == b.(timers := b.timers + 1) && a.phase == Ready && a.failures == 0
  {
    hide SendFrom;
  }

  // ---------------------------------------------------------------- steps

  /** After the pending heartbeat is answered there is nothing left beating but what the answer starts. */
  lemma BeatAnswerKeeps(s: State, id: nat, m: Message)
    requires Valid(s) && id in s.pending && s.pending[id].kind == Beat
    ensures BeatIsAlone(s, id)
    ensures Valid(Finish(s, id, m))
    ensures Pulse(Finish(s, id, m)) == if Proper(m) then 1 else 0
  {
    var r := s.(pending := s.pending - {id});
    AnswerKeeps(s, id, m);
    assert s.timers == 0 && s.phase != Dead && s.phase != Idle;
    assert NoBeatPending(r);
    if m.kind == Some(Beat) && m.failure.Some? {
      BeatFails(r, id, m);
    } else if Proper(m) {
      BeatSucceeds(r, id, m);
    } else {
      Append(r.log, Called(id, m));
    }
  }

  lemma CommandAnswerKeeps(s: State, id: nat, m: Message)
    requires Valid(s) && id in s.pending && s.pending[id].kind == Command
    ensures Valid(CommandCallback(s.(pending := s.pending - {id}), id, m))
    ensures Pulse(CommandCallback(s.(pending := s.pending - {id}), id, m)) == Pulse(s)
  {
    CommandCallbackKeeps(s, id, m);
    var t := CommandCallback(s.(pending := s.pending - {id}), id, m);
    assert t.pending.Keys == s.pending.Keys - {id};
    hide Balanced, Calls, Sends, Trailing, SaidDead;
    if !NoBeatPending(s) {
      var b :| b in s.pending && s.pending[b].kind == Beat;
      assert b in t.pending;
    }
  }

  lemma PlusCommand(s: State, t: State, id: nat, u: bool)
    requires id !in s.pending && t.pending == s.pending[id := Pending(Command, u)]
    ensures NoBeatPending(t) == NoBeatPending(s)
    ensures OneBeat(s) ==> OneBeat(t)
    ensures BeatsSent(s) ==> BeatsSent(t)
    ensures AllSent(s) && !u ==> AllSent(t)
  {
    if !NoBeatPending(s) {
      var x :| x in s.pending && s.pending[x].kind == Beat;
      assert x in t.pending && t.pending[x] == s.pending[x];
    }
  }

  /** A new request enters the map, sent at once or not. */
  lemma EnterKeeps(s: State, kind: Kind, sendNow: bool)
    requires Accounts(s) && s.phase != Dead
    ensures var id := s.nextId;
            var a := s.(nextId := id + 1);
            var t := if sendNow then Send(a.(pending := a.pending[id := Pending(kind, false)]), id)
                     else a.(pending := a.pending[id := Pending(kind, true)]);
            && Accounts(t) && Trailing(t.log) == Trailing(s.log) && SaidDead(t.log) == SaidDead(s.log)
            && id !in s.pending && t.pending == s.pending[id := Pending(kind, !sendNow)]
  {
    var id := s.nextId;
    var a := s.(nextId := id + 1);
    var b := a.(pending := a.pending[id := Pending(kind, true)]);
    NextIsNew(s);
    NewKeeps(s, kind);
    SendOverrides(a, id, kind);
    hide Accounts, Trailing, SaidDead, Send;
    if sendNow {
      EnterAndSend(s, b, kind);
    }
  }

  lemma EnterAndSend(s: State, b: State, kind: Kind)
    requires Accounts(b) && s.nextId !in s.pending
    requires b == s.(nextId := s.nextId + 1, pending := s.pending[s.nextId := Pending(kind, true)])
    ensures var t := Send(b, s.nextId);
            && Accounts(t) && Trailing(t.log) == Trailing(s.log) && SaidDead(t.log) == SaidDead(s.log)
            && t.pending == s.pending[s.nextId := Pending(kind, false)]
  {
    hide Accounts, Trailing, SaidDead;
    SendKeeps(b, s.nextId);
    assert b.pending[s.nextId := Pending(kind, false)] == s.pending[s.nextId := Pending(kind, false)];
  }

  lemma NextIsNew(s: State)
    requires Accounts(s)
    ensures s.nextId !in s.pending
  {
  }

  lemma AskDeadKeeps(s: State)
    requires Valid(s) && s.phase == Dead
    ensures Valid(Request(s, Command)) && Pulse(Request(s, Command)) == Pulse(s)
    ensures Request(s, Command).phase == Dead
  {
    var m := LocalFailure(Command, s.deathCode);
    TurnedAwayKeeps(s, m);
    hide Balanced, Trailing, SaidDead, Calls, Sends;
    CallbackNotes(s.(nextId := s.nextId + 1), s.nextId, m);
  }

  lemma AskLiveKeeps(s: State)
    requires Valid(s) && s.phase != Dead
    ensures Valid(Request(s, Command)) && Pulse(Request(s, Command)) == Pulse(s)
  {
    EnterKeeps(s, Command, s.phase == Ready);
    hide Balanced, Trailing, SaidDead, Calls, Sends;
    PlusCommand(s, Request(s, Command), s.nextId, s.phase != Ready);
  }

  lemma SendOverrides(a: State, id: nat, kind: Kind)
    ensures Send(a.(pending := a.pending[id := Pending(kind, false)]), id)
         == Send(a.(pending := a.pending[id := Pending(kind, true)]), id)
  {
    assert a.pending[id := Pending(kind, false)][id := Pending(kind, false)]
        == a.pending[id := Pending(kind, true)][id := Pending(kind, false)];
  }

  lemma PlusBeat(s: State, t: State, id: nat)
    requires NoBeatPending(s) && id !in s.pending && t.pending == s.pending[id := Pending(Beat, false)]
    ensures !NoBeatPending(t) && OneBeat(t) && BeatsSent(t)
    ensures AllSent(s) ==> AllSent(t)
  {
    assert id in t.pending && t.pending[id].kind == Beat;
  }

  lemma SamePending(s: State, t: State)
    requires t.pending == s.pending
    ensures NoBeatPending(t) == NoBeatPending(s) && AllSent(t) == AllSent(s)
  {
  }

  /** A heartbeat is sent when nothing else beats. */
  lemma BeatStepKeeps(s: State)
    requires Accounts(s) && Counts(s) && NoBeatPending(s) && s.timers == 0 && s.phase != Idle && s.phase != Dead
    requires s.phase == Ready ==> AllSent(s)
    ensures Valid(BeatStep(s)) && Pulse(BeatStep(s)) == 1
  {
    hide Accounts, Trailing, SaidDead, BeatStep, Send, NoBeatPending, OneBeat, BeatsSent, AllSent;
    var h := s.(heartbeatCount := s.heartbeatCount + 1);
    SameAccounts(s, h);
    EnterKeeps(h, Beat, true);
    BeatStepSends(s);
    SamePending(s, h);
    PlusBeat(h, BeatStep(s), s.nextId);
  }

  lemma BeatStepSends(s: State)
    requires NoBeatPending(s) && s.phase != Dead
    ensures var id := s.nextId;
            var a := s.(heartbeatCount := s.heartbeatCount + 1, nextId := id + 1);
            var t := Send(a.(pending := a.pending[id := Pending(Beat, false)]), id);
            && BeatStep(s) == t
            && t.phase == s.phase && t.timers == s.timers && t.failures == s.failures
  {
  }

  lemma OneBeatIsAlone(s: State)
    requires OneBeat(s)
    ensures forall id :: BeatIsAlone(s, id)
  {
  }

  predicate CanStep(s: State, op: Op) {
    Enabled(s, op) && OneBeat(s) && Pulse(s) <= 1 && (s.phase == Idle ==> Pulse(s) == 0)
  }

  /** One step of the client. */
  function Step(s: State, op: Op): State
    requires CanStep(s, op)
  {
    OneBeatIsAlone(s);
    match op
    case Init => InitStep(s)
    case Ask => Request(s, Command)
    case TimerFires => TimerStep(s)
    case Reply(id, m) => ReplyStep(s, id, m)
    case RequestTimesOut(id) => TimeoutStep(s, id)
  }

  lemma ReplyKeeps(s: State, id: nat, m: Message)
    requires Valid(s)
    ensures BeatIsAlone(s, id) && Valid(ReplyStep(s, id, m))
    ensures Pulse(ReplyStep(s, id, m))
         == if id in s.pending && s.pending[id].kind == Beat && !Proper(m) then 0 else Pulse(s)
  {
    OneBeatIsAlone(s);
    hide Balanced, Trailing, SaidDead, Calls, Sends, BeatCallback, CommandCallback;
    if id !in s.pending {
      StrangeReply(s);
    } else if s.pending[id].kind == Beat {
      BeatAnswerKeeps(s, id, m);
    } else {
      CommandAnswerKeeps(s, id, m);
    }
  }

  lemma StrangeReply(s: State)
    requires Valid(s)
    ensures Valid(Note(s, Notified(Anomaly(UNKNOWN_REQUEST))))
    ensures Pulse(Note(s, Notified(Anomaly(UNKNOWN_REQUEST)))) == Pulse(s)
  {
    hide Balanced, Trailing, SaidDead, Calls, Sends;
    NoteKeeps(s, Notified(Anomaly(UNKNOWN_REQUEST)));
  }

  /** Every enabled step keeps the invariant. */
  lemma StepKeeps(s: State, op: Op)
    requires Valid(s) && Enabled(s, op)
    ensures Valid(Step(s, op))
    ensures Pulse(Step(s, op)) == if op == Init then 1 else if StopsBeating(s, op) then 0 else Pulse(s)
  {
    match op
    case Init =>
      var r := s.(phase := Starting);
      SameAccounts(s, r);
      BeatStepKeeps(r);
    case Ask =>
      if s.phase == Dead {
        AskDeadKeeps(s);
      } else {
        AskLiveKeeps(s);
      }
    case TimerFires =>
      var r := s.(timers := s.timers - 1);
      SameAccounts(s, r);
      BeatStepKeeps(r);
    case Reply(id, m) =>
      ReplyKeeps(s, id, m);
    case RequestTimesOut(id) =>
      if id in s.pending {
        ReplyKeeps(s, id, LocalFailure(s.pending[id].kind, TIMED_OUT));
      }
  }

  /** The one way to lose the heartbeat: an improper answer to it. */
  predicate StopsBeating(s: State, op: Op) {
    op.Reply? && op.id in s.pending && s.pending[op.id].kind == Beat && !Proper(op.message)
  }

  // ---------------------------------------------------------------- runs

  /** `states` is a run of the client under `ops`, from a fresh client. */
  ghost predicate IsRun(states: seq<State>, ops: seq<Op>) {
    && |states| == |ops| + 1
    && states[0] == INITIAL
    && forall i :: 0 <= i < |ops| ==> CanStep(states[i], ops[i]) && states[i + 1] == Step(states[i], ops[i])
  }

  lemma InitialIsValid()
    ensures Valid(INITIAL)
  {
  }

  lemma {:induction false} RunIsValid(states: seq<State>, ops: seq<Op>, i: nat)
    requires IsRun(states, ops) && i < |states|
    ensures Valid(states[i])
  {
    if i == 0 {
      InitialIsValid();
    } else {
      RunIsValid(states, ops, i - 1);
      assert Enabled(states[i - 1], ops[i - 1]);
      hide Accounts, Counts, AllSent, BeatsSent, Step;
      StepKeeps(states[i - 1], ops[i - 1]);
    }
  }

  /** In a run every enabled step is possible, so a run can always go on with it. */
  lemma EnabledCanStep(states: seq<State>, ops: seq<Op>, i: nat, op: Op)
    requires IsRun(states, ops) && i < |states| && Enabled(states[i], op)
    ensures CanStep(states[i], op)
  {
    RunIsValid(states, ops, i);
    hide Accounts, Counts;
  }

  // ---------------------------------------------------------------- main results

  /**
   * In every run the callback of each request made is owed exactly while its id is pending, and
   * runs once: never twice, and not again after the id has left the map.
   */
  lemma EveryCallbackRunsOnce(states: seq<State>, ops: seq<Op>, i: nat)
    requires IsRun(states, ops) && i < |states|
    ensures var s := states[i];
            && Distinct(Calls(s.log))
            && (forall id :: id in s.pending ==> id < s.nextId)
            && (forall id: nat :: id < s.nextId ==> (id in Calls(s.log) <==> id !in s.pending))
            && (forall id <- Calls(s.log) :: id < s.nextId)
  {
    RunIsValid(states, ops, i);
  }

  /** No request is sent twice, and when the client is ready no pending request is left unsent. */
  lemma ReadyMeansSent(states: seq<State>, ops: seq<Op>, i: nat)
    requires IsRun(states, ops) && i < |states|
    ensures var s := states[i];
            && Distinct(Sends(s.log))
            && (s.phase == Ready ==> forall id <- s.pending :: id in Sends(s.log))
  {
    RunIsValid(states, ops, i);
  }

  /** Some answer in this part of the run was an improper one to the pending heartbeat. */
  ghost predicate Stopped(states: seq<State>, ops: seq<Op>, start: nat, i: nat)
    requires start <= i <= |ops| && |states| == |ops| + 1
  {
    exists k :: start <= k < i && StopsBeating(states[k], ops[k])
  }

  lemma RunLength(states: seq<State>, ops: seq<Op>)
    requires IsRun(states, ops)
    ensures |states| == |ops| + 1
  {
  }

  lemma OneMoreStopped(states: seq<State>, ops: seq<Op>, start: nat, i: nat)
    requires start < i <= |ops| && |states| == |ops| + 1
    ensures Stopped(states, ops, start, i)
       <==> Stopped(states, ops, start, i - 1) || StopsBeating(states[i - 1], ops[i - 1])
    ensures !Stopped(states, ops, start, start)
  {
    hide StopsBeating;
  }

  /**
   * From `init` on exactly one of these holds: a heartbeat is pending, a heartbeat timer is set, the
   * client is dead; unless an answer to a heartbeat was improper, after which none of them does.
   */
  lemma {:induction false} ExactlyOnePulse(states: seq<State>, ops: seq<Op>, start: nat, i: nat)
    requires IsRun(states, ops) && start < i < |states| && ops[start] == Init
    ensures Pulse(states[i]) == if Stopped(states, ops, start, i) then 0 else 1
  {
    hide *;
    RunLength(states, ops);
    PulseAfter(states, ops, i - 1);
    OneMoreStopped(states, ops, start, i);
    if i - 1 > start {
      ExactlyOnePulse(states, ops, start, i - 1);
      NoSecondInit(states, ops, start, i - 1);
    } else {
      InitDoesNotStop(states[start]);
    }
  }

  lemma InitDoesNotStop(s: State)
    ensures !StopsBeating(s, Init)
  {
  }

  lemma NoSecondInit(states: seq<State>, ops: seq<Op>, start: nat, i: nat)
    requires IsRun(states, ops) && start < i < |ops| && ops[start] == Init
    ensures ops[i] != Init
  {
    StaysStarted(states, ops, start, i);
    assert CanStep(states[i], ops[i]);
    hide IsRun, Step;
  }

  lemma PulseAfter(states: seq<State>, ops: seq<Op>, i: nat)
    requires IsRun(states, ops) && i < |ops|
    ensures Pulse(states[i + 1])
         == if ops[i] == Init then 1 else if StopsBeating(states[i], ops[i]) then 0 else Pulse(states[i])
  {
    RunIsValid(states, ops, i);
    assert Enabled(states[i], ops[i]);
    hide Accounts, Counts, AllSent, BeatsSent, Step;
    StepKeeps(states[i], ops[i]);
  }

  lemma {:induction false} StaysStarted(states: seq<State>, ops: seq<Op>, start: nat, i: nat)
    requires IsRun(states, ops) && start < i < |states| && ops[start] == Init
    ensures states[i].phase != Idle
  {
    RunIsValid(states, ops, i - 1);
    assert Enabled(states[i - 1], ops[i - 1]);
    if i - 1 <= start {
    } else {
      StaysStarted(states, ops, start, i - 1);
    }
    StepLeavesIdle(states[i - 1], ops[i - 1]);
  }

  lemma StepLeavesIdle(s: State, op: Op)
    requires Valid(s) && Enabled(s, op) && (s.phase != Idle || op == Init)
    ensures Step(s, op).phase != Idle
  {
    hide Balanced, Trailing, SaidDead, Calls, Sends;
    match op
    case Reply(id, m) =>
      if id in s.pending && s.pending[id].kind == Beat {
        BeatPhase(s.(pending := s.pending - {id}), id, m);
      }
    case RequestTimesOut(id) =>
      if id in s.pending && s.pending[id].kind == Beat {
        BeatPhase(s.(pending := s.pending - {id}), id, LocalFailure(Beat, TIMED_OUT));
      }
    case _ =>
  }

  lemma BeatPhase(s: State, id: nat, m: Message)
    requires NoBeatPending(s)
    ensures BeatCallback(s, id, m).phase != Idle || s.phase == Idle
  {
    if m.kind == Some(Beat) && m.failure.Some? {
      var c := Failed(s, id, m);
      var code := if m.isDead && m.failure.value != 0 then m.failure.value else GAVE_UP;
      FailFromShape(c.(deathCode := code, phase := Dead), 0, code);
    } else if Proper(m) {
      SendFromShape(Succeeded(s, id, m), 0);
    }
  }

  /**
   * The condition on answers is exact: an answer to the pending heartbeat keeps the client going
   * if and only if it is about a heartbeat and, when it is a success, carries statistics.
   */
  lemma BeatGoesOnIffProper(s: State, id: nat, m: Message)
    requires Valid(s) && id in s.pending && s.pending[id].kind == Beat
    ensures Pulse(Step(s, Reply(id, m))) == 1 <==> Proper(m)
  {
    ReplyKeeps(s, id, m);
  }

  /** Every improper answer to the first heartbeat does it: after it nothing is pending or set, and nothing is over. */
  lemma ImproperAnswerStopsTheClient(m: Message)
    requires !Proper(m)
    ensures var started := InitStep(INITIAL);
            var stopped := ReplyStep(started, 0, m);
            && IsRun([INITIAL, started, stopped], [Init, Reply(0, m)])
            && stopped.pending == map[] && stopped.timers == 0 && stopped.phase == Starting && Pulse(stopped) == 0
  {
    var started := InitStep(INITIAL);
    var stopped := ReplyStep(started, 0, m);
    var states, ops := [INITIAL, started, stopped], [Init, Reply(0, m)];
    assert started.pending == map[0 := Pending(Beat, false)];
    assert started.pending - {0} == map[];
    assert states[0] == INITIAL && states[1] == started && states[2] == stopped && ops[0] == Init
           && ops[1] == Reply(0, m);
  }

  /** The client is dead exactly when the worker said so or 21 heartbeats in a row have failed. */
  lemma DeadExactlyWhen(states: seq<State>, ops: seq<Op>, i: nat)
    requires IsRun(states, ops) && i < |states|
    ensures states[i].phase == Dead <==> SaidDead(states[i].log) || Trailing(states[i].log) == 21
  {
    RunIsValid(states, ops, i);
  }

  /** Death is final: nothing is pending, nothing is sent, and a request is answered at once. */
  lemma DeadIsFinal(s: State, op: Op)
    requires Valid(s) && Enabled(s, op) && s.phase == Dead
    ensures s.pending == map[]
    ensures var t := Step(s, op);
            && t.phase == Dead && t.pending == map[]
            && Sends(t.log) == Sends(s.log)
            && Calls(t.log) == (if op == Ask then Calls(s.log) + [s.nextId] else Calls(s.log))
  {
    if op == Ask {
      var m := LocalFailure(Command, s.deathCode);
      Append(s.log, Called(s.nextId, m));
      Append(s.log + [Called(s.nextId, m)], Notified(Anomaly(s.deathCode)));
      Append(s.log + [Called(s.nextId, m)] + [Notified(Anomaly(s.deathCode))], Settled(s.nextId, false));
      AskDeadKeeps(s);
    } else if op.Reply? {
      Append(s.log, Notified(Anomaly(UNKNOWN_REQUEST)));
    }
  }
}
