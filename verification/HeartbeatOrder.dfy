/** What phase the outcomes leave the client in, what is announced, and in which order commands are sent. */
module HeartbeatOrder {
  import opened Prelude
  import opened Heartbeat
  import opened HeartbeatRuns
  import opened HeartbeatLog

  // ---------------------------------------------------------------- reading the log

  /**
   * What a log says so far: whether the last counted heartbeat failed, the announcements of the
   * client's state, and the ids of the commands sent, in order.
   */
  datatype Reading = Reading(lastFailed: Option<bool>, announced: seq<Notice>, sent: seq<nat>)

  function ReadEvent(r: Reading, e: Event, beats: set<nat>): Reading {
    match e
    case Outcome(failed, _) => r.(lastFailed := Some(failed))
    case Notified(notice) => if notice.Anomaly? then r else r.(announced := r.announced + [notice])
    case Sent(id) => if id in beats then r else r.(sent := r.sent + [id])
    case _ => r
  }

  function Read(log: seq<Event>, beats: set<nat>): Reading {
    if log == [] then Reading(None, [], []) else ReadEvent(Read(log[..|log| - 1], beats), log[|log| - 1], beats)
  }

  lemma ReadOne(log: seq<Event>, e: Event, beats: set<nat>)
    ensures Read(log + [e], beats) == ReadEvent(Read(log, beats), e, beats)
  {
    assert (log + [e])[..|log|] == log;
  }

  predicate Silent(e: Event) {
    e.Called? || e.Settled? || (e.Notified? && e.notice.Anomaly?)
  }

  lemma {:induction false} ReadSilent(log: seq<Event>, more: seq<Event>, beats: set<nat>)
    requires forall e <- more :: Silent(e)
    ensures Read(log + more, beats) == Read(log, beats)
  {
    if more == [] {
      assert log + more == log;
    } else {
      var n := |more| - 1;
      assert log + more == (log + more[..n]) + [more[n]];
      ReadOne(log + more[..n], more[n], beats);
      assert Silent(more[n]);
      ReadSilent(log, more[..n], beats);
    }
  }

  // ---------------------------------------------------------------- what a callback adds

  lemma ReadCommand(s: State, id: nat, m: Message, beats: set<nat>)
    ensures var t := CommandCallback(s, id, m);
            Read(t.log, beats) == Read(s.log, beats) && t == s.(log := t.log)
  {
    CommandWrites(s, id, m);
    ReadSilent(s.log, CommandEvents(id, m), beats);
  }

  lemma {:induction false} ReadFailFrom(s: State, i: nat, code: int, beats: set<nat>)
    requires NoBeatPending(s)
    ensures Read(FailFrom(s, i, code).log, beats) == Read(s.log, beats)
    decreases s.nextId - i
  {
    hide CommandCallback, Read;
    if i >= s.nextId {
    } else if i in s.pending {
      var r := s.(pending := s.pending - {i});
      ReadCommand(r, i, LocalFailure(Command, code), beats);
      ReadFailFrom(CommandCallback(r, i, LocalFailure(Command, code)), i + 1, code, beats);
    } else {
      ReadFailFrom(s, i + 1, code, beats);
    }
  }

  ghost predicate Increasing(ids: seq<nat>) {
    forall i, j :: 0 <= i < j < |ids| ==> ids[i] < ids[j]
  }

  /** Commands have been sent in the order of asking, and those that wait come later. */
  ghost predicate InOrder(sent: seq<nat>, pending: map<nat, Pending>, nextId: nat) {
    && Increasing(sent)
    && (forall id <- sent :: id < nextId)
    && (forall id, later | id in sent && later in pending && pending[later].unsent :: id < later)
  }

  lemma SendInOrder(sent: seq<nat>, pending: map<nat, Pending>, nextId: nat, id: nat)
    requires InOrder(sent, pending, nextId) && id in pending && pending[id].unsent && id < nextId
    requires forall later <- pending :: pending[later].unsent ==> id <= later
    ensures InOrder(sent + [id], pending[id := pending[id].(unsent := false)], nextId)
  {
    var more := sent + [id];
    forall i, j | 0 <= i < j < |more|
      ensures more[i] < more[j]
    {
      assert more[i] in sent;
    }
  }

  lemma {:induction false} SendFromInOrder(s: State, i: nat, beats: set<nat>)
    requires InOrder(Read(s.log, beats).sent, s.pending, s.nextId)
    requires forall id <- s.pending :: s.pending[id].unsent ==> i <= id && id !in beats
    ensures var t := SendFrom(s, i);
            && InOrder(Read(t.log, beats).sent, t.pending, t.nextId)
            && Read(t.log, beats) == Read(s.log, beats).(sent := Read(t.log, beats).sent)
            && t.everReady == s.everReady
    decreases s.nextId - i
  {
    hide Read, InOrder;
    if i >= s.nextId {
    } else if i in s.pending && s.pending[i].unsent {
      ReadOne(s.log, Sent(i), beats);
      SendInOrder(Read(s.log, beats).sent, s.pending, s.nextId, i);
      SendFromInOrder(Send(s, i), i + 1, beats);
    } else {
      SendFromInOrder(s, i + 1, beats);
    }
  }

  // ---------------------------------------------------------------- the invariant

  /** What is announced to have become ready `n` times. */
  function ReadyNotices(n: nat): seq<Notice> {
    if n == 0 then [] else if n == 1 then [FirstReady] else ReadyNotices(n - 1) + [Recovered]
  }

  ghost predicate PhaseSays(s: State, lastFailed: Option<bool>) {
    match lastFailed
    case None => s.phase == Idle || s.phase == Starting
    case Some(failed) => if failed then s.phase == Retrying || s.phase == Dead else s.phase == Ready
  }

  /** The phase, the announcements and the order of sending after the client became ready `n` times. */
  ghost predicate Reads(s: State, n: nat, beats: set<nat>) {
    var r := Read(s.log, beats);
    && PhaseSays(s, r.lastFailed)
    && r.announced == ReadyNotices(n) + (if s.phase == Dead then [Died(s.deathCode)] else [])
    && (s.everReady <==> n > 0)
    && InOrder(r.sent, s.pending, s.nextId)
  }

  /** What the callback of a heartbeat does to the reading. */
  lemma BeatReads(s: State, id: nat, m: Message, n: nat, beats: set<nat>)
    requires NoBeatPending(s) && Reads(s, n, beats) && s.phase != Dead
    requires forall i <- s.pending :: i !in beats
    ensures var t := BeatCallback(s, id, m);
            && Reads(t, if s.phase != Ready && t.phase == Ready then n + 1 else n, beats)
            && (t.phase == Ready <==> if Proper(m) then m.failure.None? else s.phase == Ready)
            && (t.phase != Ready ==> Read(t.log, beats).sent == Read(s.log, beats).sent)
  {
    if m.kind == Some(Beat) && m.failure.Some? {
      FailureReads(s, id, m, n, beats);
    } else if Proper(m) {
      SuccessReads(s, id, m, n, beats);
    } else {
      ReadOne(s.log, Called(id, m), beats);
    }
  }

  lemma DyingSays(c: State, code: int, beats: set<nat>)
    requires NoBeatPending(c)
    ensures var r := Read(c.log, beats);
            var t := Note(FailFrom(c.(deathCode := code, phase := Dead), 0, code), Notified(Died(code)));
            && Read(t.log, beats) == r.(announced := r.announced + [Died(code)])
            && t.phase == Dead && t.deathCode == code && t.everReady == c.everReady && t.nextId == c.nextId
            && (forall i <- t.pending :: i in c.pending && t.pending[i] == c.pending[i])
  {
    hide Read, FailFrom;
    var d := c.(deathCode := code, phase := Dead);
    ReadFailFrom(d, 0, code, beats);
    FailFromShape(d, 0, code);
    FailFromKinds(d, 0, code);
    ReadOne(FailFrom(d, 0, code).log, Notified(Died(code)), beats);
  }

  lemma FailedSays(s: State, id: nat, m: Message, beats: set<nat>)
    ensures Read(Failed(s, id, m).log, beats) == Read(s.log, beats).(lastFailed := Some(true))
    ensures var c := Failed(s, id, m); c == s.(failures := s.failures + 1, log := c.log)
  {
    hide Read;
    ReadOne(s.log, Called(id, m), beats);
    ReadOne(s.log + [Called(id, m)], Outcome(true, m.isDead), beats);
  }

  lemma FailureSays(s: State, id: nat, m: Message, beats: set<nat>)
    requires NoBeatPending(s) && m.kind == Some(Beat) && m.failure.Some?
    ensures var r, t := Read(s.log, beats), BeatCallback(s, id, m);
            && Read(t.log, beats)
               == Reading(Some(true), r.announced + (if t.phase == Dead then [Died(t.deathCode)] else []), r.sent)
            && (t.phase == Dead || t.phase == Retrying) && t.everReady == s.everReady && t.nextId == s.nextId
            && (forall i <- t.pending :: i in s.pending && t.pending[i] == s.pending[i])
  {
    FailureIs(s, id, m);
    FailedSays(s, id, m, beats);
    hide Read, FailFrom, BeatCallback, Failed, Note;
    var c := Failed(s, id, m);
    if m.isDead || c.failures > ALLOWED_FAILURES {
      DyingSays(c, DeathCode(m), beats);
    }
  }

  lemma FewerStayInOrder(sent: seq<nat>, before: map<nat, Pending>, after: map<nat, Pending>, n: nat)
    requires InOrder(sent, before, n) && (forall i <- after :: i in before && after[i] == before[i])
    ensures InOrder(sent, after, n)
  {
  }

  lemma FailureReads(s: State, id: nat, m: Message, n: nat, beats: set<nat>)
    requires NoBeatPending(s) && Reads(s, n, beats) && s.phase != Dead
    requires m.kind == Some(Beat) && m.failure.Some?
    ensures var t := BeatCallback(s, id, m);
            Reads(t, n, beats) && t.phase != Ready && Read(t.log, beats).sent == Read(s.log, beats).sent
  {
    hide Read, BeatCallback, ReadyNotices, InOrder;
    FailureSays(s, id, m, beats);
    FewerStayInOrder(Read(s.log, beats).sent, s.pending, BeatCallback(s, id, m).pending, s.nextId);
  }

  /** What a success announces. */
  function Announcement(s: State): seq<Notice> {
    if s.phase == Ready then [] else [if s.everReady then Recovered else FirstReady]
  }

  lemma SucceededReads(s: State, id: nat, m: Message, beats: set<nat>)
    requires m.stats.Some?
    ensures var r, t := Read(s.log, beats), Succeeded(s, id, m);
            && Read(t.log, beats)
               == Reading(Some(false), r.announced + Announcement(s), r.sent)
            && t.pending == s.pending && t.nextId == s.nextId && t.phase == Ready
            && (t.everReady <==> s.everReady || s.phase != Ready)
  {
    hide Read;
    var a := s.log + [Called(id, m)];
    var b := a + [Outcome(false, false)];
    ReadOne(s.log, Called(id, m), beats);
    ReadOne(a, Outcome(false, false), beats);
    ReadOne(b, Notified(Anomaly(COUNT_MISMATCH)), beats);
    var c := if s.heartbeatCount > m.stats.value + ALLOWED_FAILURES then b + [Notified(Anomaly(COUNT_MISMATCH))] else b;
    ReadOne(c, Notified(if s.everReady then Recovered else FirstReady), beats);
  }

  lemma SuccessSays(s: State, id: nat, m: Message, beats: set<nat>)
    requires NoBeatPending(s) && Proper(m) && m.failure.None?
    requires InOrder(Read(s.log, beats).sent, s.pending, s.nextId) && (forall i <- s.pending :: i !in beats)
    ensures var r, t := Read(s.log, beats), BeatCallback(s, id, m);
            var q := Read(t.log, beats);
            && q.lastFailed == Some(false)
            && q.announced
               == r.announced + Announcement(s)
            && InOrder(q.sent, t.pending, t.nextId)
            && t.phase == Ready && (t.everReady <==> s.everReady || s.phase != Ready)
  {
    BeatSuccessIs(s, id, m);
    SucceededReads(s, id, m, beats);
    hide Read, SendFrom, BeatCallback, Succeeded, InOrder;
    var a := Succeeded(s, id, m);
    SendFromInOrder(a, 0, beats);
    SendFromShape(a, 0);
  }

  lemma SuccessReads(s: State, id: nat, m: Message, n: nat, beats: set<nat>)
    requires NoBeatPending(s) && Reads(s, n, beats) && s.phase != Dead
    requires forall i <- s.pending :: i !in beats
    requires Proper(m) && m.failure.None?
    ensures var t := BeatCallback(s, id, m);
            Reads(t, if s.phase != Ready then n + 1 else n, beats) && t.phase == Ready
  {
    hide Read, BeatCallback, InOrder;
    SuccessSays(s, id, m, beats);
  }

  // ---------------------------------------------------------------- steps

  /** A request leaves the map. */
  lemma LeavingReads(s: State, id: nat, n: nat, beats: set<nat>)
    requires Reads(s, n, beats)
    ensures Reads(s.(pending := s.pending - {id}), n, beats)
  {
    hide Read, InOrder, ReadyNotices;
    FewerStayInOrder(Read(s.log, beats).sent, s.pending, s.pending - {id}, s.nextId);
  }

  lemma CommandReads(s: State, id: nat, m: Message, n: nat, beats: set<nat>)
    requires Reads(s, n, beats)
    ensures var t := CommandCallback(s, id, m);
            Reads(t, n, beats) && t.phase == s.phase && Read(t.log, beats) == Read(s.log, beats)
  {
    hide Read, CommandCallback, InOrder, ReadyNotices;
    ReadCommand(s, id, m, beats);
  }

  lemma AnswerReads(s: State, op: Op, n: nat, beats: set<nat>)
    requires CanStep(s, op) && Delivered(s, op).Some? && s.phase != Dead
    requires Reads(s, n, beats) && KindsFit(s, beats)
    ensures var t := Step(s, op);
            && Reads(t, if s.phase != Ready && t.phase == Ready then n + 1 else n, beats)
            && (t.phase == Ready <==>
                  if DeliveredTo(op) in beats && Proper(Delivered(s, op).value)
                  then Delivered(s, op).value.failure.None? else s.phase == Ready)
            && (t.phase != Ready ==> Read(t.log, beats).sent == Read(s.log, beats).sent)
  {
    OneBeatIsAlone(s);
    hide Read, BeatCallback, CommandCallback, Reads;
    var id, m := DeliveredTo(op), Delivered(s, op).value;
    var r := s.(pending := s.pending - {id});
    LeavingReads(s, id, n, beats);
    if s.pending[id].kind == Beat {
      BeatReads(r, id, m, n, beats);
    } else {
      CommandReads(r, id, m, n, beats);
    }
  }

  lemma NewInOrder(sent: seq<nat>, pending: map<nat, Pending>, id: nat, kind: Kind, unsent: bool)
    requires InOrder(sent, pending, id)
    ensures InOrder(sent, pending[id := Pending(kind, unsent)], id + 1)
    ensures (forall i <- pending :: !pending[i].unsent) ==>
              InOrder(sent + [id], pending[id := Pending(kind, false)], id + 1)
  {
    var more := sent + [id];
    forall i, j | 0 <= i < j < |more|
      ensures more[i] < more[j]
    {
      assert more[i] in sent;
    }
  }

  lemma RequestReads(s: State, kind: Kind, n: nat, beats: set<nat>)
    requires Reads(s, n, beats) && (kind == Beat <==> s.nextId in beats)
    requires kind == Beat ==> NoBeatPending(s) && s.phase != Dead
    requires s.phase == Ready ==> AllSent(s)
    ensures var t := Request(s, kind);
            && Reads(t, n, beats) && t.phase == s.phase
            && (t.phase != Ready ==> Read(t.log, beats).sent == Read(s.log, beats).sent)
  {
    hide Read, CommandCallback, InOrder, ReadyNotices;
    var id := s.nextId;
    if s.phase == Dead {
      ReadCommand(s.(nextId := id + 1), id, LocalFailure(Command, s.deathCode), beats);
      LaterInOrder(Read(s.log, beats).sent, s.pending, id);
    } else {
      var unsent := s.phase != Ready && kind != Beat;
      var sent := Read(s.log, beats).sent;
      NewInOrder(sent, s.pending, id, kind, unsent);
      ReadOne(s.log, Sent(id), beats);
      assert s.pending[id := Pending(kind, false)][id := Pending(kind, false)]
          == s.pending[id := Pending(kind, false)];
    }
  }

  lemma LaterInOrder(sent: seq<nat>, pending: map<nat, Pending>, n: nat)
    requires InOrder(sent, pending, n)
    ensures InOrder(sent, pending, n + 1)
  {
  }

  /** `init` and a timer first change what the reading does not depend on. */
  lemma BeginReads(s: State, t: State, n: nat, beats: set<nat>)
    requires Reads(s, n, beats)
    requires t.log == s.log && t.pending == s.pending && t.nextId == s.nextId && t.everReady == s.everReady
    requires t.phase == s.phase || (s.phase == Idle && t.phase == Starting)
    requires t.deathCode == s.deathCode
    ensures Reads(t, n, beats)
  {
    hide Read, InOrder, ReadyNotices;
  }

  lemma InitReads(s: State, n: nat, beats: set<nat>)
    requires CanStep(s, Init) && Reads(s, n, beats) && s.nextId in beats
    ensures var t := Step(s, Init);
            Reads(t, n, beats) && t.phase == Starting && Read(t.log, beats).sent == Read(s.log, beats).sent
  {
    hide Reads, Request, Read;
    var r := s.(phase := Starting, heartbeatCount := s.heartbeatCount + 1);
    BeginReads(s, r, n, beats);
    RequestReads(r, Beat, n, beats);
  }

  lemma TimerReads(s: State, n: nat, beats: set<nat>)
    requires CanStep(s, TimerFires) && Reads(s, n, beats) && s.nextId in beats
    requires s.phase != Dead && (s.phase == Ready ==> AllSent(s))
    ensures var t := Step(s, TimerFires);
            && Reads(t, n, beats) && t.phase == s.phase
            && (t.phase != Ready ==> Read(t.log, beats).sent == Read(s.log, beats).sent)
  {
    hide Reads, Request, Read;
    var r := s.(timers := s.timers - 1, heartbeatCount := s.heartbeatCount + 1);
    BeginReads(s, r, n, beats);
    SamePending(s, r);
    RequestReads(r, Beat, n, beats);
  }

  lemma StepReads(s: State, op: Op, n: nat, beats: set<nat>)
    requires Valid(s) && CanStep(s, op) && Reads(s, n, beats) && KindsFit(s, beats)
    requires op == Init || op == TimerFires ==> s.nextId in beats
    requires op == Ask ==> s.nextId !in beats
    ensures var t := Step(s, op);
            && Reads(t, if s.phase != Ready && t.phase == Ready then n + 1 else n, beats)
            && (t.phase != Ready ==> Read(t.log, beats).sent == Read(s.log, beats).sent)
  {
    ValidIsAlive(s, op);
    if s.phase == Ready {
      ReadyIsSent(s);
    }
    hide Valid, Reads, Read, KindsFit, CanStep, Finish, Request, AllSent;
    if Delivered(s, op).Some? {
      AnswerReads(s, op, n, beats);
    } else {
      match op
      case Init => InitReads(s, n, beats);
      case Ask => RequestReads(s, Command, n, beats);
      case TimerFires => TimerReads(s, n, beats);
      case Reply(_, _) => StrangeReads(s, n, beats);
      case _ =>
    }
  }

  lemma ReadyIsSent(s: State)
    requires Valid(s) && s.phase == Ready
    ensures AllSent(s)
  {
  }

  lemma StrangeReads(s: State, n: nat, beats: set<nat>)
    requires Reads(s, n, beats)
    ensures var t := Note(s, Notified(Anomaly(UNKNOWN_REQUEST)));
            Reads(t, n, beats) && Read(t.log, beats).sent == Read(s.log, beats).sent
  {
    hide Read, InOrder, ReadyNotices;
    ReadOne(s.log, Notified(Anomaly(UNKNOWN_REQUEST)), beats);
  }

  // ---------------------------------------------------------------- runs

  /** How often the client has become ready in the first `i` steps. */
  function TimesReady(states: seq<State>, i: nat): nat
    requires i < |states|
  {
    if i == 0 then 0
    else TimesReady(states, i - 1) + (if states[i - 1].phase != Ready && states[i].phase == Ready then 1 else 0)
  }

  lemma {:induction false} RunReads(states: seq<State>, ops: seq<Op>, i: nat)
    requires IsRun(states, ops) && i < |states|
    ensures |states| == |ops| + 1
    ensures Reads(states[i], TimesReady(states, i), Beats(states, ops))
  {
    hide *;
    RunLength(states, ops);
    if i == 0 {
      NothingRead(states, ops);
    } else {
      RunReads(states, ops, i - 1);
      RunStep(states, ops, i - 1);
      RunIsValid(states, ops, i - 1);
      RunSpeaks(states, ops, i - 1);
      AskedIsNoBeat(states, ops, i - 1);
      StepReads(states[i - 1], ops[i - 1], TimesReady(states, i - 1), Beats(states, ops));
      OneMoreReady(states, i);
    }
  }

  lemma OneMoreReady(states: seq<State>, i: nat)
    requires 0 < i < |states|
    ensures TimesReady(states, i)
         == if states[i - 1].phase != Ready && states[i].phase == Ready then TimesReady(states, i - 1) + 1
            else TimesReady(states, i - 1)
  {
  }

  lemma NothingRead(states: seq<State>, ops: seq<Op>)
    requires IsRun(states, ops)
    ensures |states| == |ops| + 1
    ensures Reads(states[0], TimesReady(states, 0), Beats(states, ops))
  {
    hide Step;
  }

  // ---------------------------------------------------------------- main results

  /**
   * In every run the phase is what the last counted heartbeat says: ready after a success, retrying
   * or dead after a failure, and idle or starting before the first.
   */
  lemma PhaseIsLastOutcome(states: seq<State>, ops: seq<Op>, i: nat)
    requires IsRun(states, ops) && i < |states|
    ensures |states| == |ops| + 1
    ensures var last := Read(states[i].log, Beats(states, ops)).lastFailed;
            && (states[i].phase == Ready <==> last == Some(false))
            && (states[i].phase in {Retrying, Dead} <==> last == Some(true))
            && (states[i].phase in {Idle, Starting} <==> last == None)
  {
    hide *;
    RunReads(states, ops, i);
    ReadsPhase(states[i], TimesReady(states, i), Beats(states, ops));
  }

  lemma ReadsPhase(s: State, n: nat, beats: set<nat>)
    requires Reads(s, n, beats)
    ensures var last := Read(s.log, beats).lastFailed;
            && (s.phase == Ready <==> last == Some(false))
            && (s.phase in {Retrying, Dead} <==> last == Some(true))
            && (s.phase in {Idle, Starting} <==> last == None)
  {
    hide Read, InOrder, ReadyNotices;
  }

  /**
   * In every run each time the client becomes ready is announced, the first time as such and the
   * others as a recovery, and its death once, with its code; there are no other announcements.
   */
  lemma AnnouncedExactly(states: seq<State>, ops: seq<Op>, i: nat)
    requires IsRun(states, ops) && i < |states|
    ensures |states| == |ops| + 1
    ensures Read(states[i].log, Beats(states, ops)).announced
         == ReadyNotices(TimesReady(states, i)) +
            (if states[i].phase == Dead then [Died(states[i].deathCode)] else [])
  {
    RunReads(states, ops, i);
    hide IsRun, Beats, TimesReady, Read, InOrder, PhaseSays;
  }

  /** In every run the commands are sent in the order in which they were asked. */
  lemma CommandsAreSentInOrder(states: seq<State>, ops: seq<Op>, i: nat)
    requires IsRun(states, ops) && i < |states|
    ensures |states| == |ops| + 1
    ensures Increasing(Read(states[i].log, Beats(states, ops)).sent)
  {
    RunReads(states, ops, i);
    hide IsRun, Beats, TimesReady, Read, PhaseSays;
  }

  /** A step that does not end in the ready state sends no command. */
  lemma CommandsAreSentWhenReady(states: seq<State>, ops: seq<Op>, i: nat)
    requires IsRun(states, ops) && i < |ops|
    ensures |states| == |ops| + 1
    ensures var beats := Beats(states, ops);
            states[i + 1].phase != Ready ==> Read(states[i + 1].log, beats).sent == Read(states[i].log, beats).sent
  {
    hide *;
    RunLength(states, ops);
    RunReads(states, ops, i);
    RunStep(states, ops, i);
    RunIsValid(states, ops, i);
    RunSpeaks(states, ops, i);
    AskedIsNoBeat(states, ops, i);
    StepReads(states[i], ops[i], TimesReady(states, i), Beats(states, ops));
  }

  // ---------------------------------------------------------------- the count of heartbeats

  /** The answer delivered in this step is a success that counts over 20 heartbeats fewer than `count`. */
  predicate FallsBehind(s: State, op: Op, count: nat) {
    && Delivered(s, op).Some?
    && s.pending[DeliveredTo(op)].kind == Beat
    && Proper(Delivered(s, op).value)
    && Delivered(s, op).value.failure.None?
    && count > Delivered(s, op).value.stats.value + 20
  }

  /** Heartbeats asked since the worker's count was last taken over, on top of that count. */
  function CountOf(states: seq<State>, ops: seq<Op>, i: nat): nat
    requires i <= |ops| < |states|
  {
    if i == 0 then 0
    else
      var count, s, op := CountOf(states, ops, i - 1), states[i - 1], ops[i - 1];
      if op == Init || op == TimerFires then count + 1
      else if FallsBehind(s, op, count) then Delivered(s, op).value.stats.value
      else count
  }

  lemma {:induction false} SendFromCount(s: State, i: nat)
    ensures SendFrom(s, i).heartbeatCount == s.heartbeatCount && s.log <= SendFrom(s, i).log
    ensures forall k :: |s.log| <= k < |SendFrom(s, i).log| ==> SendFrom(s, i).log[k].Sent?
    decreases s.nextId - i
  {
    if i >= s.nextId {
    } else if i in s.pending && s.pending[i].unsent {
      SendFromCount(Send(s, i), i + 1);
    } else {
      SendFromCount(s, i + 1);
    }
  }

  lemma BeatCount(s: State, id: nat, m: Message)
    requires NoBeatPending(s)
    ensures var t := BeatCallback(s, id, m);
            var behind := Proper(m) && m.failure.None? && s.heartbeatCount > m.stats.value + 20;
            && t.heartbeatCount == (if behind then m.stats.value else s.heartbeatCount)
            && (Proper(m) && m.failure.None? ==>
                  (behind <==> EventAt(t.log, |s.log| + 2, Notified(Anomaly(COUNT_MISMATCH)))))
  {
    if m.kind == Some(Beat) && m.failure.Some? {
      var code := if m.isDead && m.failure.value != 0 then m.failure.value else GAVE_UP;
      FailFromShape(Failed(s, id, m).(deathCode := code, phase := Dead), 0, code);
    } else if Proper(m) {
      BeatSuccessIs(s, id, m);
      hide SendFrom, BeatCallback;
      SendFromCount(Succeeded(s, id, m), 0);
    }
  }

  lemma StepCount(s: State, op: Op)
    requires CanStep(s, op) && (Delivered(s, op).Some? || op == Init || op == TimerFires ==> s.phase != Dead)
    ensures var t := Step(s, op);
            && t.heartbeatCount
               == (if op == Init || op == TimerFires then s.heartbeatCount + 1
                   else if FallsBehind(s, op, s.heartbeatCount) then Delivered(s, op).value.stats.value
                   else s.heartbeatCount)
  {
    hide BeatCallback, CommandCallback;
    OneBeatIsAlone(s);
    if Delivered(s, op).Some? {
      var r := s.(pending := s.pending - {DeliveredTo(op)});
      if s.pending[DeliveredTo(op)].kind == Beat {
        BeatCount(r, DeliveredTo(op), Delivered(s, op).value);
      } else {
        CommandWrites(r, DeliveredTo(op), Delivered(s, op).value);
      }
    } else if op == Ask {
      CommandWrites(s.(nextId := s.nextId + 1), s.nextId, LocalFailure(Command, s.deathCode));
    }
  }

  /**
   * In every run the count of heartbeats is the number asked, except that the worker's count replaces
   * it whenever a success shows the worker more than 20 behind.
   */
  lemma {:induction false} CountFollowsTheWorker(states: seq<State>, ops: seq<Op>, i: nat)
    requires IsRun(states, ops) && i < |states|
    ensures |states| == |ops| + 1
    ensures states[i].heartbeatCount == CountOf(states, ops, i)
  {
    hide *;
    RunLength(states, ops);
    if i == 0 {
      NothingCounted(states, ops);
    } else {
      CountFollowsTheWorker(states, ops, i - 1);
      RunStep(states, ops, i - 1);
      RunIsValid(states, ops, i - 1);
      ValidIsAlive(states[i - 1], ops[i - 1]);
      StepCount(states[i - 1], ops[i - 1]);
      OneMoreCounted(states, ops, i);
    }
  }

  lemma NothingCounted(states: seq<State>, ops: seq<Op>)
    requires IsRun(states, ops)
    ensures |states| == |ops| + 1 && states[0].heartbeatCount == CountOf(states, ops, 0)
  {
    hide Step;
  }

  lemma OneMoreCounted(states: seq<State>, ops: seq<Op>, i: nat)
    requires 0 < i <= |ops| < |states|
    ensures var count, s, op := CountOf(states, ops, i - 1), states[i - 1], ops[i - 1];
            CountOf(states, ops, i)
            == if op == Init || op == TimerFires then count + 1
               else if FallsBehind(s, op, count) then Delivered(s, op).value.stats.value
               else count
  {
  }

  /** A correction is announced, and only a correction is announced there. */
  lemma CorrectionIsAnnounced(states: seq<State>, ops: seq<Op>, i: nat)
    requires IsRun(states, ops) && i < |ops|
    ensures |states| == |ops| + 1
    ensures var s, t, op := states[i], states[i + 1], ops[i];
            Delivered(s, op).Some? && s.pending[DeliveredTo(op)].kind == Beat && Proper(Delivered(s, op).value) &&
            Delivered(s, op).value.failure.None? ==>
              (FallsBehind(s, op, s.heartbeatCount) <==>
                 EventAt(t.log, |s.log| + 2, Notified(Anomaly(COUNT_MISMATCH))))
  {
    hide *;
    RunLength(states, ops);
    RunStep(states, ops, i);
    StepAnnounces(states[i], ops[i]);
  }

  lemma StepAnnounces(s: State, op: Op)
    requires CanStep(s, op)
    ensures Delivered(s, op).Some? && s.pending[DeliveredTo(op)].kind == Beat && Proper(Delivered(s, op).value) &&
            Delivered(s, op).value.failure.None? ==>
              (FallsBehind(s, op, s.heartbeatCount) <==>
                 EventAt(Step(s, op).log, |s.log| + 2, Notified(Anomaly(COUNT_MISMATCH))))
  {
    hide BeatCallback, CommandCallback;
    OneBeatIsAlone(s);
    if Delivered(s, op).Some? && s.pending[DeliveredTo(op)].kind == Beat {
      BeatCount(s.(pending := s.pending - {DeliveredTo(op)}), DeliveredTo(op), Delivered(s, op).value);
    }
  }

  /** An answer to a request that is not pending has no effect but its own report. */
  lemma UnknownIsReported(states: seq<State>, ops: seq<Op>, i: nat)
    requires IsRun(states, ops) && i < |ops| && ops[i].Reply? && ops[i].id !in states[i].pending
    ensures states[i + 1] == states[i].(log := states[i].log + [Notified(Anomaly(UNKNOWN_REQUEST))])
  {
    RunStep(states, ops, i);
    hide IsRun;
  }
}
