/** What the log of a run of the heartbeat client says: which callback got what, and what came of it. */
module HeartbeatLog {
  import opened Prelude
  import opened Heartbeat
  import opened HeartbeatRuns

  // ---------------------------------------------------------------- the requests of a run

  /** The ids of the heartbeats of a run: those handed out when it began and when a timer fired. */
  ghost function Beats(states: seq<State>, ops: seq<Op>): set<nat>
    requires |states| == |ops| + 1
  {
    set k | 0 <= k < |ops| && (ops[k] == Init || ops[k] == TimerFires) :: states[k].nextId
  }

  ghost predicate EventAt(log: seq<Event>, k: int, e: Event) {
    0 <= k < |log| && log[k] == e
  }

  // ---------------------------------------------------------------- the grammar of the log

  /** How a failed command is reported: with its own failure, or else with the general code. */
  function FailureCode(m: Message): int {
    match m.failure
    case Some(code) => code
    case None => 12
  }

  /** What follows the call of a callback. */
  ghost predicate CallLeads(log: seq<Event>, k: nat, beats: set<nat>)
    requires k < |log| && log[k].Called?
  {
    var id, m := log[k].id, log[k].message;
    && (id !in beats && m.kind == Some(Command) && m.hasResult ==> EventAt(log, k + 1, Settled(id, true)))
    && (id !in beats && m.kind == Some(Command) && !m.hasResult ==>
          EventAt(log, k + 1, Notified(Anomaly(FailureCode(m)))) && EventAt(log, k + 2, Settled(id, false)))
    && (id in beats && Proper(m) ==>
          EventAt(log, k + 1, Outcome(m.failure.Some?, m.failure.Some? && m.isDead)))
  }

  /** The message for which a request was settled. */
  ghost predicate SettledBy(log: seq<Event>, k: nat, beats: set<nat>, m: Message)
    requires k < |log| && log[k].Settled?
  {
    var id, succeeded := log[k].id, log[k].succeeded;
    && EventAt(log, if succeeded then k - 1 else k - 2, Called(id, m))
    && id !in beats && m.kind == Some(Command) && m.hasResult == succeeded
  }

  /** The heartbeat and its answer that an outcome was counted for. */
  ghost predicate CountedFor(log: seq<Event>, k: nat, beats: set<nat>, id: nat, m: Message)
    requires k < |log| && log[k].Outcome?
  {
    && EventAt(log, k - 1, Called(id, m)) && id in beats && Proper(m)
    && log[k].failed == m.failure.Some? && log[k].dead == (m.failure.Some? && m.isDead)
  }

  ghost predicate Explained(log: seq<Event>, k: nat, beats: set<nat>)
    requires k < |log|
  {
    match log[k]
    case Called(_, _) => CallLeads(log, k, beats)
    case Settled(_, _) => exists m :: SettledBy(log, k, beats, m)
    case Outcome(_, _) => exists id, m :: CountedFor(log, k, beats, id, m)
    case _ => true
  }

  ghost predicate Grammar(log: seq<Event>, beats: set<nat>) {
    forall k :: 0 <= k < |log| ==> Explained(log, k, beats)
  }

  lemma ExplainedBefore(a: seq<Event>, b: seq<Event>, k: nat, beats: set<nat>)
    requires k < |a| && Explained(a, k, beats)
    ensures Explained(a + b, k, beats)
  {
    match a[k]
    case Settled(_, _) =>
      var m :| SettledBy(a, k, beats, m);
      assert SettledBy(a + b, k, beats, m);
    case Outcome(_, _) =>
      var id, m :| CountedFor(a, k, beats, id, m);
      assert CountedFor(a + b, k, beats, id, m);
    case _ =>
  }

  lemma ExplainedAfter(a: seq<Event>, b: seq<Event>, k: nat, beats: set<nat>)
    requires k < |b| && Explained(b, k, beats)
    ensures Explained(a + b, |a| + k, beats)
  {
    match b[k]
    case Settled(_, _) =>
      var m :| SettledBy(b, k, beats, m);
      assert SettledBy(a + b, |a| + k, beats, m);
    case Outcome(_, _) =>
      var id, m :| CountedFor(b, k, beats, id, m);
      assert CountedFor(a + b, |a| + k, beats, id, m);
    case _ =>
  }

  lemma GrammarJoins(a: seq<Event>, b: seq<Event>, beats: set<nat>)
    requires Grammar(a, beats) && Grammar(b, beats)
    ensures Grammar(a + b, beats)
  {
    hide Explained;
    forall k | 0 <= k < |a + b|
      ensures Explained(a + b, k, beats)
    {
      if k < |a| {
        ExplainedBefore(a, b, k, beats);
      } else {
        ExplainedAfter(a, b, k - |a|, beats);
      }
    }
  }

  /** A send or a notice needs no explanation. */
  lemma QuietJoins(log: seq<Event>, e: Event, beats: set<nat>)
    requires Grammar(log, beats) && (e.Sent? || e.Notified?)
    ensures Grammar(log + [e], beats)
  {
    assert Grammar([e], beats);
    hide Grammar;
    GrammarJoins(log, [e], beats);
  }

  /** What the callback of a command writes. */
  function CommandEvents(id: nat, m: Message): seq<Event> {
    [Called(id, m)] +
    (if m.kind != Some(Command) then []
     else if m.hasResult then [Settled(id, true)]
     else [Notified(Anomaly(FailureCode(m))), Settled(id, false)])
  }

  lemma CommandExplained(id: nat, m: Message, beats: set<nat>)
    requires id !in beats
    ensures Grammar(CommandEvents(id, m), beats)
  {
    var log := CommandEvents(id, m);
    if m.kind == Some(Command) {
      var k := if m.hasResult then 1 else 2;
      assert log[k] == Settled(id, m.hasResult) && SettledBy(log, k, beats, m);
    }
  }

  lemma CommandWrites(s: State, id: nat, m: Message)
    ensures CommandCallback(s, id, m) == s.(log := s.log + CommandEvents(id, m))
  {
  }

  lemma CommandSpeaks(s: State, id: nat, m: Message, beats: set<nat>)
    requires Grammar(s.log, beats) && id !in beats
    ensures Grammar(CommandCallback(s, id, m).log, beats)
  {
    hide *;
    CommandWrites(s, id, m);
    CommandExplained(id, m, beats);
    GrammarJoins(s.log, CommandEvents(id, m), beats);
  }

  lemma {:induction false} FailFromSpeaks(s: State, i: nat, code: int, beats: set<nat>)
    requires NoBeatPending(s) && Grammar(s.log, beats) && (forall id <- s.pending :: id !in beats)
    ensures Grammar(FailFrom(s, i, code).log, beats)
    decreases s.nextId - i
  {
    hide Grammar, CommandCallback;
    if i >= s.nextId {
    } else if i in s.pending {
      var r := s.(pending := s.pending - {i});
      var m := LocalFailure(Command, code);
      CommandSpeaks(r, i, m, beats);
      CommandWrites(r, i, m);
      FailFromSpeaks(CommandCallback(r, i, m), i + 1, code, beats);
    } else {
      FailFromSpeaks(s, i + 1, code, beats);
    }
  }

  lemma {:induction false} SendFromSpeaks(s: State, i: nat, beats: set<nat>)
    requires Grammar(s.log, beats)
    ensures Grammar(SendFrom(s, i).log, beats)
    decreases s.nextId - i
  {
    hide Grammar;
    if i >= s.nextId {
    } else if i in s.pending && s.pending[i].unsent {
      QuietJoins(s.log, Sent(i), beats);
      SendFromSpeaks(Send(s, i), i + 1, beats);
    } else {
      SendFromSpeaks(s, i + 1, beats);
    }
  }

  /** The call of a heartbeat's callback and the outcome counted for it. */
  function BeatEvents(id: nat, m: Message): seq<Event> {
    [Called(id, m)] + (if Proper(m) then [Outcome(m.failure.Some?, m.failure.Some? && m.isDead)] else [])
  }

  lemma BeatExplained(id: nat, m: Message, beats: set<nat>)
    requires id in beats
    ensures Grammar(BeatEvents(id, m), beats)
  {
    if Proper(m) {
      assert CountedFor(BeatEvents(id, m), 1, beats, id, m);
    }
  }

  lemma BeatSpeaks(s: State, id: nat, m: Message, beats: set<nat>)
    requires NoBeatPending(s) && Grammar(s.log, beats) && id in beats && (forall i <- s.pending :: i !in beats)
    ensures Grammar(BeatCallback(s, id, m).log, beats)
  {
    hide Grammar, FailFrom, SendFrom;
    BeatExplained(id, m, beats);
    GrammarJoins(s.log, BeatEvents(id, m), beats);
    var a := s.(log := s.log + BeatEvents(id, m));
    if !Proper(m) {
      assert a.log == s.log + [Called(id, m)];
    } else if m.failure.Some? {
      assert a.log == s.log + [Called(id, m)] + [Outcome(true, m.isDead)];
      var c := a.(failures := s.failures + 1);
      var code := if m.isDead && m.failure.value != 0 then m.failure.value else GAVE_UP;
      var d := c.(deathCode := code, phase := Dead);
      FailFromSpeaks(d, 0, code, beats);
      QuietJoins(FailFrom(d, 0, code).log, Notified(Died(code)), beats);
    } else {
      assert a.log == s.log + [Called(id, m)] + [Outcome(false, false)];
      SuccessSpeaks(s.(log := s.log + [Called(id, m)]), m.stats.value, beats);
    }
  }

  lemma SuccessSpeaks(s: State, count: nat, beats: set<nat>)
    requires Grammar(s.log + [Outcome(false, false)], beats)
    ensures Grammar(AfterSuccess(s, count).log, beats)
  {
    hide Grammar, SendFrom;
    var a := Note(s, Outcome(false, false));
    QuietJoins(a.log, Notified(Anomaly(COUNT_MISMATCH)), beats);
    var b := if a.heartbeatCount > count + ALLOWED_FAILURES
             then Note(a.(heartbeatCount := count), Notified(Anomaly(COUNT_MISMATCH)))
             else a;
    QuietJoins(b.log, Notified(Recovered), beats);
    QuietJoins(b.log, Notified(FirstReady), beats);
    var c := if b.phase == Ready then b
             else Note(b.(everReady := true), Notified(if b.everReady then Recovered else FirstReady));
    SendFromSpeaks(c.(phase := Ready, failures := 0), 0, beats);
  }

  // ---------------------------------------------------------------- runs

  ghost predicate KindsFit(s: State, beats: set<nat>) {
    forall id <- s.pending :: s.pending[id].kind == Beat <==> id in beats
  }

  predicate Asks(op: Op) {
    op == Init || op == Ask || op == TimerFires
  }

  lemma BeatKinds(s: State, id: nat, m: Message)
    requires NoBeatPending(s)
    ensures var t := BeatCallback(s, id, m);
            && t.nextId == s.nextId
            && (forall i <- t.pending :: i in s.pending && t.pending[i].kind == s.pending[i].kind)
  {
    hide SendFrom, FailFrom;
    if m.kind == Some(Beat) && m.failure.Some? {
      var code := if m.isDead && m.failure.value != 0 then m.failure.value else GAVE_UP;
      var d := Failed(s, id, m).(deathCode := code, phase := Dead);
      FailFromShape(d, 0, code);
      FailFromKinds(d, 0, code);
    } else if Proper(m) {
      BeatSuccessIs(s, id, m);
      SendFromShape(Succeeded(s, id, m), 0);
    }
  }

  lemma {:induction false} FailFromKinds(s: State, i: nat, code: int)
    requires NoBeatPending(s)
    ensures var t := FailFrom(s, i, code); forall id <- t.pending :: id in s.pending && t.pending[id] == s.pending[id]
    decreases s.nextId - i
  {
    hide CommandCallback;
    if i >= s.nextId {
    } else if i in s.pending {
      var r := s.(pending := s.pending - {i});
      CommandWrites(r, i, LocalFailure(Command, code));
      FailFromKinds(CommandCallback(r, i, LocalFailure(Command, code)), i + 1, code);
    } else {
      FailFromKinds(s, i + 1, code);
    }
  }

  lemma AnswerSpeaks(s: State, id: nat, m: Message, beats: set<nat>)
    requires OneBeat(s) && id in s.pending && KindsFit(s, beats) && Grammar(s.log, beats)
    ensures BeatIsAlone(s, id)
    ensures var t := Finish(s, id, m);
            Grammar(t.log, beats) && KindsFit(t, beats) && t.nextId == s.nextId
  {
    OneBeatIsAlone(s);
    hide Grammar, BeatCallback, CommandCallback;
    var r := s.(pending := s.pending - {id});
    if s.pending[id].kind == Beat {
      BeatSpeaks(r, id, m, beats);
      BeatKinds(r, id, m);
    } else {
      CommandSpeaks(r, id, m, beats);
      CommandWrites(r, id, m);
    }
  }

  lemma RequestSpeaks(s: State, kind: Kind, beats: set<nat>)
    requires KindsFit(s, beats) && Grammar(s.log, beats)
    requires kind == Beat ==> NoBeatPending(s) && s.phase != Dead
    requires kind == Beat <==> s.nextId in beats
    ensures var t := Request(s, kind);
            Grammar(t.log, beats) && KindsFit(t, beats) && t.nextId == s.nextId + 1
  {
    hide Grammar, BeatCallback, CommandCallback;
    if s.phase == Dead {
      var r := s.(nextId := s.nextId + 1);
      CommandSpeaks(r, s.nextId, LocalFailure(Command, s.deathCode), beats);
      CommandWrites(r, s.nextId, LocalFailure(Command, s.deathCode));
    } else {
      QuietJoins(s.log, Sent(s.nextId), beats);
    }
  }

  lemma StepSpeaks(s: State, op: Op, beats: set<nat>)
    requires CanStep(s, op) && KindsFit(s, beats) && Grammar(s.log, beats)
    requires op == Init || op == TimerFires ==> s.nextId in beats
    requires op == Ask ==> s.nextId !in beats
    ensures var t := Step(s, op);
            Grammar(t.log, beats) && KindsFit(t, beats) && t.nextId == s.nextId + (if Asks(op) then 1 else 0)
  {
    hide Grammar, Finish, Request;
    OneBeatIsAlone(s);
    match op
    case Init =>
      RequestSpeaks(s.(phase := Starting, heartbeatCount := s.heartbeatCount + 1), Beat, beats);
    case Ask =>
      RequestSpeaks(s, Command, beats);
    case TimerFires =>
      RequestSpeaks(s.(timers := s.timers - 1, heartbeatCount := s.heartbeatCount + 1), Beat, beats);
    case Reply(id, m) =>
      if id in s.pending {
        AnswerSpeaks(s, id, m, beats);
      } else {
        QuietJoins(s.log, Notified(Anomaly(UNKNOWN_REQUEST)), beats);
      }
    case RequestTimesOut(id) =>
      if id in s.pending {
        AnswerSpeaks(s, id, LocalFailure(s.pending[id].kind, TIMED_OUT), beats);
      }
  }

  lemma RunStep(states: seq<State>, ops: seq<Op>, i: nat)
    requires IsRun(states, ops) && i < |ops|
    ensures |states| == |ops| + 1 && CanStep(states[i], ops[i]) && states[i + 1] == Step(states[i], ops[i])
  {
  }

  lemma IdsGrow(s: State, op: Op)
    requires CanStep(s, op)
    ensures Step(s, op).nextId == s.nextId + (if Asks(op) then 1 else 0)
  {
    hide BeatCallback, CommandCallback;
    OneBeatIsAlone(s);
    match op
    case Reply(id, m) =>
      AnswerKeepsIds(s, id, m);
    case RequestTimesOut(id) =>
      if id in s.pending {
        AnswerKeepsIds(s, id, LocalFailure(s.pending[id].kind, TIMED_OUT));
      }
    case Ask =>
      CommandWrites(s.(nextId := s.nextId + 1), s.nextId, LocalFailure(Command, s.deathCode));
    case _ =>
  }

  lemma AnswerKeepsIds(s: State, id: nat, m: Message)
    requires BeatIsAlone(s, id)
    ensures ReplyStep(s, id, m).nextId == s.nextId
  {
    hide BeatCallback, CommandCallback;
    var r := s.(pending := s.pending - {id});
    if id in s.pending && s.pending[id].kind == Beat {
      BeatKinds(r, id, m);
    } else if id in s.pending {
      CommandWrites(r, id, m);
    }
  }

  lemma {:induction false} LaterIds(states: seq<State>, ops: seq<Op>, i: nat, j: nat)
    requires IsRun(states, ops) && i < j <= |ops|
    ensures |states| == |ops| + 1
    ensures states[i].nextId + (if Asks(ops[i]) then 1 else 0) <= states[j].nextId
  {
    hide *;
    RunLength(states, ops);
    RunStep(states, ops, j - 1);
    IdsGrow(states[j - 1], ops[j - 1]);
    if i < j - 1 {
      LaterIds(states, ops, i, j - 1);
    }
  }

  lemma AskedIsNoBeat(states: seq<State>, ops: seq<Op>, i: nat)
    requires IsRun(states, ops) && i < |ops|
    ensures |states| == |ops| + 1
    ensures ops[i] == Ask ==> states[i].nextId !in Beats(states, ops)
    ensures ops[i] == Init || ops[i] == TimerFires ==> states[i].nextId in Beats(states, ops)
  {
    RunLength(states, ops);
    hide IsRun;
    if ops[i] == Ask && states[i].nextId in Beats(states, ops) {
      var k :| 0 <= k < |ops| && (ops[k] == Init || ops[k] == TimerFires) && states[k].nextId == states[i].nextId;
      if k < i {
        LaterIds(states, ops, k, i);
      } else if i < k {
        LaterIds(states, ops, i, k);
      }
    }
  }

  lemma {:induction false} RunSpeaks(states: seq<State>, ops: seq<Op>, i: nat)
    requires IsRun(states, ops) && i < |states|
    ensures |states| == |ops| + 1
    ensures KindsFit(states[i], Beats(states, ops)) && Grammar(states[i].log, Beats(states, ops))
  {
    hide *;
    RunLength(states, ops);
    if i == 0 {
      FirstSpeaks(states, ops);
    } else {
      RunSpeaks(states, ops, i - 1);
      RunStep(states, ops, i - 1);
      AskedIsNoBeat(states, ops, i - 1);
      StepSpeaks(states[i - 1], ops[i - 1], Beats(states, ops));
    }
  }

  lemma FirstSpeaks(states: seq<State>, ops: seq<Op>)
    requires IsRun(states, ops)
    ensures |states| == |ops| + 1
    ensures KindsFit(states[0], Beats(states, ops)) && Grammar(states[0].log, Beats(states, ops))
  {
    hide Beats, Step;
  }

  // ---------------------------------------------------------------- what came of a request

  ghost predicate CalledWith(log: seq<Event>, id: nat, m: Message) {
    exists k :: 0 <= k < |log| && log[k] == Called(id, m)
  }

  ghost predicate SettledAs(log: seq<Event>, id: nat, succeeded: bool) {
    exists k :: 0 <= k < |log| && log[k] == Settled(id, succeeded)
  }

  lemma {:induction false} CallIsListed(log: seq<Event>, k: nat)
    requires k < |log| && log[k].Called?
    ensures log[k].id in Calls(log)
  {
    if k < |log| - 1 {
      CallIsListed(log[..|log| - 1], k);
    }
  }

  lemma {:induction false} CalledOnce(log: seq<Event>, j: nat, k: nat)
    requires Distinct(Calls(log)) && j < |log| && k < |log|
    requires log[j].Called? && log[k].Called? && log[j].id == log[k].id
    ensures j == k
  {
    if j != k {
      var n := |log| - 1;
      var before := log[..n];
      if log[n].Called? {
        assert Calls(log) == Calls(before) + [log[n].id];
        DistinctFront(Calls(before), log[n].id);
      } else {
        assert Calls(log) == Calls(before);
      }
      if j == n {
        CallIsListed(before, k);
      } else if k == n {
        CallIsListed(before, j);
      } else {
        CalledOnce(before, j, k);
      }
    }
  }

  lemma DistinctFront(ids: seq<nat>, id: nat)
    requires Distinct(ids + [id])
    ensures Distinct(ids) && id !in ids
  {
    forall i, j | 0 <= i < j < |ids|
      ensures ids[i] != ids[j]
    {
      assert (ids + [id])[i] == ids[i] && (ids + [id])[j] == ids[j];
    }
    forall i | 0 <= i < |ids|
      ensures ids[i] != id
    {
      assert (ids + [id])[i] == ids[i] && (ids + [id])[|ids|] == id;
    }
  }

  predicate SettlesSame(d: Event, e: Event) {
    d.Settled? && e.Settled? && d.id == e.id
  }

  function CallPlace(e: Event, k: nat): int
    requires e.Settled?
  {
    if e.succeeded then k - 1 else k - 2
  }

  lemma SettledAfterCall(log: seq<Event>, beats: set<nat>, k: nat)
    requires Grammar(log, beats) && k < |log| && log[k].Settled?
    ensures var c := CallPlace(log[k], k); 0 <= c < |log| && log[c].Called? && log[c].id == log[k].id
  {
    assert Explained(log, k, beats);
    var m :| SettledBy(log, k, beats, m);
  }

  lemma SettledOnceInLog(log: seq<Event>, beats: set<nat>, j: nat, k: nat)
    requires Distinct(Calls(log)) && Grammar(log, beats) && j < |log| && k < |log|
    requires SettlesSame(log[j], log[k])
    ensures j == k
  {
    hide Calls, Grammar, Distinct;
    SettledAfterCall(log, beats, j);
    SettledAfterCall(log, beats, k);
    var c, d := CallPlace(log[j], j), CallPlace(log[k], k);
    CalledOnce(log, c, d);
    SameEnd(log, beats, j, k);
  }

  /** A success and a failure cannot follow the same call. */
  lemma SameEnd(log: seq<Event>, beats: set<nat>, j: nat, k: nat)
    requires Grammar(log, beats) && j < |log| && k < |log| && log[j].Settled? && log[k].Settled?
    requires CallPlace(log[j], j) == CallPlace(log[k], k)
    ensures j == k
  {
    assert Explained(log, j, beats) && Explained(log, k, beats);
  }

  lemma SettledIffInLog(log: seq<Event>, beats: set<nat>, id: nat, succeeded: bool)
    requires Grammar(log, beats)
    ensures SettledAs(log, id, succeeded)
            <==> id !in beats && exists m :: CalledWith(log, id, m) && m.kind == Some(Command) &&
                                             m.hasResult == succeeded
  {
    if SettledAs(log, id, succeeded) {
      var k :| 0 <= k < |log| && log[k] == Settled(id, succeeded);
      assert Explained(log, k, beats);
      var m :| SettledBy(log, k, beats, m);
      assert CalledWith(log, id, m);
    }
    if m :| CalledWith(log, id, m) && m.kind == Some(Command) && m.hasResult == succeeded && id !in beats {
      var k :| 0 <= k < |log| && log[k] == Called(id, m);
      assert Explained(log, k, beats);
      assert log[if succeeded then k + 1 else k + 2] == Settled(id, succeeded);
    }
  }

  /**
   * In every run a request is settled at most once. It is settled as succeeded exactly if it is a
   * command whose callback was called with a message about a command that carries a result, and as
   * failed exactly if that message carries none.
   */
  lemma SettledExactlyWhen(states: seq<State>, ops: seq<Op>, i: nat)
    requires IsRun(states, ops) && i < |states|
    ensures |states| == |ops| + 1
    ensures var log := states[i].log;
            && (forall j, k | 0 <= j < |log| && 0 <= k < |log| :: SettlesSame(log[j], log[k]) ==> j == k)
            && (forall id: nat, succeeded: bool ::
                  SettledAs(log, id, succeeded)
                  <==> id !in Beats(states, ops) &&
                       exists m :: CalledWith(log, id, m) && m.kind == Some(Command) && m.hasResult == succeeded)
  {
    hide *;
    RunSpeaks(states, ops, i);
    EveryCallbackRunsOnce(states, ops, i);
    var log := states[i].log;
    forall j, k | 0 <= j < |log| && 0 <= k < |log| && SettlesSame(log[j], log[k])
      ensures j == k
    {
      SettledOnceInLog(log, Beats(states, ops), j, k);
    }
    forall id: nat, succeeded: bool
      ensures SettledAs(log, id, succeeded)
              <==> id !in Beats(states, ops) &&
                   exists m :: CalledWith(log, id, m) && m.kind == Some(Command) && m.hasResult == succeeded
    {
      SettledIffInLog(log, Beats(states, ops), id, succeeded);
    }
  }

  /**
   * In every run the outcomes counted are those of the heartbeats: each directly follows the call of
   * a heartbeat's callback with an answer that says so, and each such call is counted.
   */
  lemma OutcomesAreAnswers(states: seq<State>, ops: seq<Op>, i: nat, k: nat)
    requires IsRun(states, ops) && i < |states| && k < |states[i].log|
    ensures |states| == |ops| + 1
    ensures var log, beats := states[i].log, Beats(states, ops);
            && (log[k].Outcome? ==>
                  exists id, m ::
                    && EventAt(log, k - 1, Called(id, m)) && id in beats && Proper(m)
                    && log[k].failed == m.failure.Some?
                    && log[k].dead == (m.failure.Some? && m.isDead))
            && (log[k].Called? && log[k].id in beats && Proper(log[k].message) ==>
                  var m := log[k].message;
                  EventAt(log, k + 1, Outcome(m.failure.Some?, m.failure.Some? && m.isDead)))
  {
    RunSpeaks(states, ops, i);
    hide IsRun, Beats;
    assert Explained(states[i].log, k, Beats(states, ops));
    if states[i].log[k].Outcome? {
      var id, m :| CountedFor(states[i].log, k, Beats(states, ops), id, m);
    }
  }

  // ---------------------------------------------------------------- what the callbacks get

  /** From position `base` on every call is of one of `ids` and has the message `m`. */
  ghost predicate CallsOnly(log: seq<Event>, base: nat, m: Message) {
    forall k :: base <= k < |log| && log[k].Called? ==> log[k].message == m
  }

  /** The pending ids from `i` on, in order. */
  function PendingFrom(pending: map<nat, Pending>, i: nat, n: nat): seq<nat>
    decreases n - i
  {
    if i >= n then [] else (if i in pending then [i] else []) + PendingFrom(pending, i + 1, n)
  }

  lemma {:induction false} PendingFromWithout(pending: map<nat, Pending>, j: nat, i: nat, n: nat)
    requires j < i
    ensures PendingFrom(pending - {j}, i, n) == PendingFrom(pending, i, n)
    decreases n - i
  {
    if i < n {
      PendingFromWithout(pending, j, i + 1, n);
    }
  }

  lemma {:induction false} FailFromCalls(s: State, i: nat, code: int, base: nat)
    requires NoBeatPending(s) && base <= |s.log| && CallsOnly(s.log, base, LocalFailure(Command, code))
    ensures var t := FailFrom(s, i, code);
            && s.log <= t.log
            && CallsOnly(t.log, base, LocalFailure(Command, code))
            && Calls(t.log) == Calls(s.log) + PendingFrom(s.pending, i, s.nextId)
    decreases s.nextId - i
  {
    hide Calls, CommandCallback, CallsOnly;
    if i >= s.nextId {
      assert Calls(s.log) + [] == Calls(s.log);
    } else if i in s.pending {
      var t := FailOne(s, i, code, base);
      FailFromCalls(t, i + 1, code, base);
      PendingFromWithout(s.pending, i, i + 1, s.nextId);
      FirstPending(s, i);
      Rejoin(Calls(s.log), i, PendingFrom(t.pending, i + 1, t.nextId));
    } else {
      FailFromCalls(s, i + 1, code, base);
    }
  }

  lemma FirstPending(s: State, i: nat)
    requires i in s.pending && i < s.nextId
    ensures PendingFrom(s.pending, i, s.nextId) == [i] + PendingFrom(s.pending, i + 1, s.nextId)
  {
  }

  lemma Rejoin(a: seq<nat>, i: nat, b: seq<nat>)
    ensures a + [i] + b == a + ([i] + b)
  {
  }

  /** One pending command is failed. */
  lemma FailOne(s: State, i: nat, code: int, base: nat) returns (t: State)
    requires NoBeatPending(s) && i in s.pending
    requires base <= |s.log| && CallsOnly(s.log, base, LocalFailure(Command, code))
    ensures t == CommandCallback(s.(pending := s.pending - {i}), i, LocalFailure(Command, code))
    ensures NoBeatPending(t) && t.pending == s.pending - {i} && t.nextId == s.nextId
    ensures s.log <= t.log && Calls(t.log) == Calls(s.log) + [i]
    ensures CallsOnly(t.log, base, LocalFailure(Command, code))
  {
    var r := s.(pending := s.pending - {i});
    CommandWrites(r, i, LocalFailure(Command, code));
    CommandCalls(s.log, i, code);
    t := CommandCallback(r, i, LocalFailure(Command, code));
    hide Calls, CommandCallback;
  }

  lemma CommandCalls(log: seq<Event>, id: nat, code: int)
    ensures var m := LocalFailure(Command, code);
            && CommandEvents(id, m) == [Called(id, m), Notified(Anomaly(code)), Settled(id, false)]
            && Calls(log + CommandEvents(id, m)) == Calls(log) + [id]
  {
    hide Calls;
    var m := LocalFailure(Command, code);
    Append(log, Called(id, m));
    Append(log + [Called(id, m)], Notified(Anomaly(code)));
    Append(log + [Called(id, m)] + [Notified(Anomaly(code))], Settled(id, false));
    assert log + CommandEvents(id, m) == log + [Called(id, m)] + [Notified(Anomaly(code))] + [Settled(id, false)];
  }

  /** The code a client dies with: the worker's, if it reported its death with one. */
  function DeathCode(m: Message): int {
    if m.isDead && m.failure.Some? && m.failure.value != 0 then m.failure.value else GAVE_UP
  }

  lemma {:induction false} SendFromCalls(s: State, i: nat)
    ensures var t := SendFrom(s, i);
            && s.log <= t.log && Calls(t.log) == Calls(s.log)
            && t.phase == s.phase && t.deathCode == s.deathCode
    decreases s.nextId - i
  {
    hide Calls;
    if i >= s.nextId {
    } else if i in s.pending && s.pending[i].unsent {
      Append(s.log, Sent(i));
      SendFromCalls(Send(s, i), i + 1);
    } else {
      SendFromCalls(s, i + 1);
    }
  }

  lemma DyingCalls(c: State, code: int, base: nat)
    requires NoBeatPending(c) && base <= |c.log| && CallsOnly(c.log, base, LocalFailure(Command, code))
    ensures var t := Note(FailFrom(c.(deathCode := code, phase := Dead), 0, code), Notified(Died(code)));
            && c.log <= t.log && t.phase == Dead && t.deathCode == code
            && t.log[|t.log| - 1] == Notified(Died(code))
            && Calls(t.log) == Calls(c.log) + PendingFrom(c.pending, 0, c.nextId)
            && CallsOnly(t.log, base, LocalFailure(Command, code))
  {
    var d := c.(deathCode := code, phase := Dead);
    FailFromCalls(d, 0, code, base);
    FailFromShape(d, 0, code);
    hide Calls, FailFrom, PendingFrom;
    Append(FailFrom(d, 0, code).log, Notified(Died(code)));
  }

  /** An event that calls nothing. */
  lemma NoteCalls(s: State, e: Event)
    requires !e.Called?
    ensures Calls(Note(s, e).log) == Calls(s.log) && s.log <= Note(s, e).log
    ensures Note(s, e) == s.(log := Note(s, e).log)
  {
    Append(s.log, e);
  }

  lemma SucceededCalls(s: State, id: nat, m: Message)
    requires m.stats.Some?
    ensures var t := Succeeded(s, id, m);
            s.log + [Called(id, m)] <= t.log && Calls(t.log) == Calls(s.log) + [id] && t.deathCode == s.deathCode
  {
    hide Calls, Note;
    var a := Note(s, Called(id, m));
    assert a.log == s.log + [Called(id, m)] && a.deathCode == s.deathCode by {
      NoteIs(s, Called(id, m));
    }
    Append(s.log, Called(id, m));
    var b := Note(a, Outcome(false, false));
    NoteCalls(a, Outcome(false, false));
    var c0 := b.(heartbeatCount := m.stats.value);
    NoteCalls(c0, Notified(Anomaly(COUNT_MISMATCH)));
    var c := if b.heartbeatCount > m.stats.value + ALLOWED_FAILURES then Note(c0, Notified(Anomaly(COUNT_MISMATCH)))
             else b;
    NoteCalls(c.(everReady := true), Notified(if c.everReady then Recovered else FirstReady));
  }

  lemma NoteIs(s: State, e: Event)
    ensures Note(s, e) == s.(log := s.log + [e])
  {
  }

  lemma SuccessCalls(s: State, id: nat, m: Message)
    requires NoBeatPending(s) && Proper(m) && m.failure.None?
    ensures var t := BeatCallback(s, id, m);
            && s.log + [Called(id, m)] <= t.log && Calls(t.log) == Calls(s.log) + [id]
            && t.phase == Ready && t.deathCode == s.deathCode
  {
    BeatSuccessIs(s, id, m);
    hide Calls, SendFrom, Succeeded, BeatCallback;
    SucceededCalls(s, id, m);
    SendFromCalls(Succeeded(s, id, m), 0);
  }

  lemma FailureCalls(s: State, id: nat, m: Message)
    requires NoBeatPending(s) && s.phase != Dead && m.kind == Some(Beat) && m.failure.Some?
    ensures var t := BeatCallback(s, id, m);
            && s.log + [Called(id, m)] <= t.log
            && (t.phase != Dead ==> Calls(t.log) == Calls(s.log) + [id] && t.deathCode == s.deathCode)
            && (t.phase == Dead ==>
                  && t.deathCode == DeathCode(m)
                  && t.log[|t.log| - 1] == Notified(Died(t.deathCode))
                  && Calls(t.log) == Calls(s.log) + [id] + PendingFrom(s.pending, 0, s.nextId)
                  && CallsOnly(t.log, |s.log| + 1, LocalFailure(Command, t.deathCode)))
  {
    FailureIs(s, id, m);
    hide Calls, PendingFrom, CallsOnly, BeatCallback, FailFrom, Note;
    var c := Failed(s, id, m);
    FailedCalls(s, id, m);
    if m.isDead || c.failures > ALLOWED_FAILURES {
      DyingCalls(c, DeathCode(m), |s.log| + 1);
    }
  }

  lemma FailedCalls(s: State, id: nat, m: Message)
    requires NoBeatPending(s)
    ensures var c := Failed(s, id, m);
            && c == s.(failures := s.failures + 1, log := s.log + [Called(id, m)] + [Outcome(true, m.isDead)])
            && NoBeatPending(c)
            && Calls(c.log) == Calls(s.log) + [id]
            && CallsOnly(c.log, |s.log| + 1, LocalFailure(Command, DeathCode(m)))
  {
    hide Calls;
    Append(s.log, Called(id, m));
    Append(s.log + [Called(id, m)], Outcome(true, m.isDead));
  }

  lemma FailureIs(s: State, id: nat, m: Message)
    requires NoBeatPending(s) && m.kind == Some(Beat) && m.failure.Some?
    ensures var c, code := Failed(s, id, m), DeathCode(m);
            BeatCallback(s, id, m)
            == if m.isDead || c.failures > ALLOWED_FAILURES
               then Note(FailFrom(c.(deathCode := code, phase := Dead), 0, code), Notified(Died(code)))
               else c.(phase := Retrying, timers := c.timers + 1)
  {
    hide FailFrom, AfterSuccess;
  }

  /** The callback of a heartbeat calls nothing else, unless the client dies of its answer. */
  lemma BeatCalls(s: State, id: nat, m: Message)
    requires NoBeatPending(s) && s.phase != Dead
    ensures var t := BeatCallback(s, id, m);
            && s.log + [Called(id, m)] <= t.log
            && (t.phase != Dead ==> Calls(t.log) == Calls(s.log) + [id] && t.deathCode == s.deathCode)
            && (t.phase == Dead ==>
                  && t.deathCode == DeathCode(m)
                  && t.log[|t.log| - 1] == Notified(Died(t.deathCode))
                  && Calls(t.log) == Calls(s.log) + [id] + PendingFrom(s.pending, 0, s.nextId)
                  && CallsOnly(t.log, |s.log| + 1, LocalFailure(Command, t.deathCode)))
  {
    if m.kind == Some(Beat) && m.failure.Some? {
      hide Calls, BeatCallback, PendingFrom, CallsOnly;
      FailureCalls(s, id, m);
    } else if Proper(m) {
      hide Calls, BeatCallback, PendingFrom, CallsOnly;
      SuccessCalls(s, id, m);
    } else {
      Append(s.log, Called(id, m));
      hide Calls;
    }
  }

  lemma CommandCallsOne(s: State, id: nat, m: Message)
    ensures var t := CommandCallback(s, id, m);
            && s.log <= t.log && EventAt(t.log, |s.log|, Called(id, m)) && Calls(t.log) == Calls(s.log) + [id]
            && t == s.(log := t.log)
  {
    hide Calls;
    CommandWrites(s, id, m);
    Append(s.log, Called(id, m));
    Append(s.log + [Called(id, m)], Settled(id, true));
    var code := FailureCode(m);
    Append(s.log + [Called(id, m)], Notified(Anomaly(code)));
    Append(s.log + [Called(id, m)] + [Notified(Anomaly(code))], Settled(id, false));
  }

  /** The message that a step delivers to the request with the id it names. */
  function Delivered(s: State, op: Op): Option<Message> {
    match op
    case Reply(id, m) => if id in s.pending then Some(m) else None
    case RequestTimesOut(id) => if id in s.pending then Some(LocalFailure(s.pending[id].kind, TIMED_OUT)) else None
    case _ => None
  }

  function DeliveredTo(op: Op): nat {
    match op
    case Reply(id, _) => id
    case RequestTimesOut(id) => id
    case _ => 0
  }

  /** Which callbacks the step from `s` to `t` calls, and with what. */
  ghost predicate CallsMade(s: State, t: State, op: Op) {
    && s.log <= t.log
    && match Delivered(s, op) {
         case Some(m) =>
           var id := DeliveredTo(op);
           && EventAt(t.log, |s.log|, Called(id, m))
           && (t.phase != Dead ==> Calls(t.log) == Calls(s.log) + [id])
           && (t.phase == Dead ==>
                 && s.pending[id].kind == Beat
                 && t.deathCode == DeathCode(m)
                 && t.log[|t.log| - 1] == Notified(Died(t.deathCode))
                 && Calls(t.log) == Calls(s.log) + [id] + PendingFrom(s.pending - {id}, 0, s.nextId)
                 && CallsOnly(t.log, |s.log| + 1, LocalFailure(Command, t.deathCode)))
         case None =>
           if op == Ask && s.phase == Dead then
             && EventAt(t.log, |s.log|, Called(s.nextId, LocalFailure(Command, s.deathCode)))
             && Calls(t.log) == Calls(s.log) + [s.nextId]
             && t.phase == Dead && t.deathCode == s.deathCode
           else
             Calls(t.log) == Calls(s.log) && t.deathCode == s.deathCode && (t.phase == Dead <==> s.phase == Dead)
       }
  }

  lemma AnswerCalls(s: State, op: Op)
    requires CanStep(s, op) && Delivered(s, op).Some? && s.phase != Dead
    ensures CallsMade(s, Step(s, op), op)
  {
    hide Calls, BeatCallback, CommandCallback, CallsOnly;
    OneBeatIsAlone(s);
    var id, m := DeliveredTo(op), Delivered(s, op).value;
    var r := s.(pending := s.pending - {id});
    if s.pending[id].kind == Beat {
      BeatCalls(r, id, m);
    } else {
      CommandCallsOne(r, id, m);
    }
  }

  lemma OtherCalls(s: State, op: Op)
    requires CanStep(s, op) && Delivered(s, op).None? && (op == Init || op == TimerFires ==> s.phase != Dead)
    ensures CallsMade(s, Step(s, op), op)
  {
    hide Calls, BeatCallback, CommandCallback, CallsOnly;
    OneBeatIsAlone(s);
    Append(s.log, Sent(s.nextId));
    Append(s.log, Notified(Anomaly(UNKNOWN_REQUEST)));
    CommandCallsOne(s.(nextId := s.nextId + 1), s.nextId, LocalFailure(Command, s.deathCode));
  }

  /**
   * In every run: an answer reaches the callback of the request it is for, unchanged, and a timeout
   * reaches it as a failure with its own code; an answer the client dies of also reaches every other
   * pending request, in the order of asking, as a failure with the code of the death, which is then
   * announced; a request to a dead client gets that failure at once; and nothing else calls anything.
   */
  lemma CallbacksGet(states: seq<State>, ops: seq<Op>, i: nat)
    requires IsRun(states, ops) && i < |ops|
    ensures |states| == |ops| + 1
    ensures CallsMade(states[i], states[i + 1], ops[i])
  {
    hide *;
    RunLength(states, ops);
    RunStep(states, ops, i);
    RunIsValid(states, ops, i);
    ValidIsAlive(states[i], ops[i]);
    if Delivered(states[i], ops[i]).Some? {
      AnswerCalls(states[i], ops[i]);
    } else {
      OtherCalls(states[i], ops[i]);
    }
  }

  lemma ValidIsAlive(s: State, op: Op)
    requires Valid(s) && CanStep(s, op)
    ensures Delivered(s, op).Some? || op == Init || op == TimerFires ==> s.phase != Dead
  {
    hide Accounts, Counts, AllSent, BeatsSent, OneBeat;
  }

  // ---------------------------------------------------------------- timeouts and deaths

  lemma {:induction false} ListedWasCalled(log: seq<Event>, id: nat)
    requires id in Calls(log)
    ensures exists k :: 0 <= k < |log| && log[k].Called? && log[k].id == id
  {
    if log == [] {
    } else {
      var n := |log| - 1;
      if id in Calls(log[..n]) {
        ListedWasCalled(log[..n], id);
        var k :| 0 <= k < n && log[..n][k].Called? && log[..n][k].id == id;
        assert log[k] == log[..n][k];
      } else {
        assert log[n].Called? && log[n].id == id;
      }
    }
  }

  lemma {:induction false} PendingIsListed(pending: map<nat, Pending>, id: nat, i: nat, n: nat)
    requires id in pending && i <= id < n
    ensures id in PendingFrom(pending, i, n)
    decreases n - i
  {
    if i < id {
      PendingIsListed(pending, id, i + 1, n);
    }
  }

  lemma DeathReaches(s: State, t: State, op: Op, id: nat)
    requires CallsMade(s, t, op) && s.phase != Dead && t.phase == Dead
    requires id in s.pending && s.pending[id].kind == Command && id < s.nextId && id !in Calls(s.log)
    ensures CalledWith(t.log, id, LocalFailure(Command, t.deathCode))
  {
    var first := DeliveredTo(op);
    PendingIsListed(s.pending - {first}, id, 0, s.nextId);
    ListedWasCalled(t.log, id);
    var k :| 0 <= k < |t.log| && t.log[k].Called? && t.log[k].id == id;
    if k < |s.log| {
      CallIsListed(s.log, k);
      assert false;
    }
    assert k != |s.log|;
    assert t.log[k] == Called(id, LocalFailure(Command, t.deathCode));
  }

  /**
   * In every run a command that times out, that is pending when the client dies, or that is asked
   * of a dead client is settled as failed in that step.
   */
  lemma TimeoutsAndDeathsFail(states: seq<State>, ops: seq<Op>, i: nat, id: nat)
    requires IsRun(states, ops) && i < |ops|
    requires |states| == |ops| + 1 && id !in Beats(states, ops)
    requires var s := states[i];
             || (ops[i] == RequestTimesOut(id) && id in s.pending)
             || (s.phase != Dead && states[i + 1].phase == Dead && id in s.pending)
             || (s.phase == Dead && ops[i] == Ask && id == s.nextId)
    ensures SettledAs(states[i + 1].log, id, false)
  {
    hide *;
    var s, t, beats := states[i], states[i + 1], Beats(states, ops);
    CallbacksGet(states, ops, i);
    RunSpeaks(states, ops, i);
    RunSpeaks(states, ops, i + 1);
    EveryCallbackRunsOnce(states, ops, i);
    if id in s.pending {
      FitsKind(s, id, beats);
    }
    if s.phase != Dead && t.phase == Dead && ops[i] != RequestTimesOut(id) {
      DeathReaches(s, t, ops[i], id);
    } else {
      StepCallsIt(s, t, ops[i], id);
    }
    SettledIffInLog(t.log, beats, id, false);
    FailuresHaveNoResult();
  }

  lemma FailuresHaveNoResult()
    ensures forall code ::
              LocalFailure(Command, code).kind == Some(Command) && !LocalFailure(Command, code).hasResult
  {
  }

  lemma FitsKind(s: State, id: nat, beats: set<nat>)
    requires KindsFit(s, beats) && id in s.pending && id !in beats
    ensures s.pending[id].kind == Command
  {
  }

  lemma StepCallsIt(s: State, t: State, op: Op, id: nat)
    requires CallsMade(s, t, op)
    requires || (op == RequestTimesOut(id) && id in s.pending && s.pending[id].kind == Command)
             || (op == Ask && s.phase == Dead && id == s.nextId)
    ensures exists code :: CalledWith(t.log, id, LocalFailure(Command, code))
  {
    var code := if op == Ask then s.deathCode else TIMED_OUT;
    assert t.log[|s.log|] == Called(id, LocalFailure(Command, code));
    assert CalledWith(t.log, id, LocalFailure(Command, code));
  }
}
