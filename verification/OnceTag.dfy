/** A once-per-load tag: the first call runs the body, and every caller shares its outcome. */
module OnceTag {
  /** A callback that a caller got: which caller, and whether for success. */
  datatype Callback = Callback(caller: nat, success: bool)

  datatype Handler = Waiting(callers: seq<nat>) | Succeeded(before: seq<nat>) | Failed(before: seq<nat>)

  datatype State = State(handler: Handler, runs: nat, log: seq<Callback>)

  const START := State(Waiting([]), 0, [])

  /** A call of the tag, or the running body reporting how it ended. */
  datatype Event = Call(caller: nat) | Outcome(success: bool)

  function Callbacks(callers: seq<nat>, success: bool): (c: seq<Callback>)
    ensures |c| == |callers|
  {
    seq(|callers|, i requires 0 <= i < |callers| => Callback(callers[i], success))
  }

  /** The callers that were collected while the body ran; the lists are never cleared. */
  function Collected(h: Handler): seq<nat> {
    match h
    case Waiting(callers) => callers
    case Succeeded(before) => before
    case Failed(before) => before
  }

  function Step(s: State, e: Event): State {
    match e
    case Call(caller) =>
      (match s.handler
       case Waiting(callers) => s.(handler := Waiting(callers + [caller]), runs := if s.runs == 0 then 1 else s.runs)
       case Succeeded(_) => s.(log := s.log + [Callback(caller, true)])
       case Failed(_) => s.(log := s.log + [Callback(caller, false)]))
    case Outcome(success) =>
      if s.runs == 0 then s
      else
        var all := Collected(s.handler);
        s.(handler := if success then Succeeded(all) else Failed(all), log := s.log + Callbacks(all, success))
  }

  function Run(es: seq<Event>): State
    decreases es
  {
    if es == [] then START else Step(Run(es[..|es| - 1]), es[|es| - 1])
  }

  // ---------------------------------------------------------------- what the events say

  function Calls(es: seq<Event>): seq<nat>
    decreases es
  {
    if es == [] then []
    else
      var before := Calls(es[..|es| - 1]);
      if es[|es| - 1].Call? then before + [es[|es| - 1].caller] else before
  }

  /** The outcomes of the body; before the first call it does not run and has none. */
  function Outcomes(es: seq<Event>): seq<bool>
    decreases es
  {
    if es == [] then []
    else
      var before := es[..|es| - 1];
      if es[|es| - 1].Outcome? && Calls(before) != [] then Outcomes(before) + [es[|es| - 1].success]
      else Outcomes(before)
  }

  /** The calls before the first outcome. */
  function Early(es: seq<Event>): seq<nat>
    decreases es
  {
    if es == [] then []
    else
      var before := es[..|es| - 1];
      if es[|es| - 1].Call? && Outcomes(before) == [] then Early(before) + [es[|es| - 1].caller] else Early(before)
  }

  function Count(log: seq<Callback>, caller: nat): nat {
    if log == [] then 0 else (if log[0].caller == caller then 1 else 0) + Count(log[1..], caller)
  }

  /** How often a caller calls. */
  function Times(callers: seq<nat>, caller: nat): nat {
    if callers == [] then 0 else (if callers[0] == caller then 1 else 0) + Times(callers[1..], caller)
  }

  // ---------------------------------------------------------------- counting

  lemma {:induction false} CountSplits(a: seq<Callback>, b: seq<Callback>, caller: nat)
    ensures Count(a + b, caller) == Count(a, caller) + Count(b, caller)
    decreases a
  {
    if a == [] {
      assert a + b == b;
    } else {
      assert (a + b)[1..] == a[1..] + b;
      CountSplits(a[1..], b, caller);
    }
  }

  lemma {:induction false} TimesSplits(a: seq<nat>, b: seq<nat>, caller: nat)
    ensures Times(a + b, caller) == Times(a, caller) + Times(b, caller)
    decreases a
  {
    if a == [] {
      assert a + b == b;
    } else {
      assert (a + b)[1..] == a[1..] + b;
      TimesSplits(a[1..], b, caller);
    }
  }

  lemma {:induction false} CountCallbacks(callers: seq<nat>, success: bool, caller: nat)
    ensures Count(Callbacks(callers, success), caller) == Times(callers, caller)
    decreases callers
  {
    if callers == [] {
    } else {
      assert Callbacks(callers, success)[1..] == Callbacks(callers[1..], success);
      CountCallbacks(callers[1..], success, caller);
    }
  }

  // ---------------------------------------------------------------- the invariant

  ghost predicate Agrees(s: State, es: seq<Event>) {
    && s.runs == (if Calls(es) == [] then 0 else 1)
    && (s.handler.Waiting? <==> Outcomes(es) == [])
    && Collected(s.handler) == Early(es)
    && (Outcomes(es) == [] ==> Early(es) == Calls(es) && s.log == [])
    && (Outcomes(es) != []
        ==> Calls(es) != [] && Early(es) != [] && s.handler.Succeeded? == Outcomes(es)[|Outcomes(es)| - 1])
  }

  lemma Newest(es: seq<Event>, e: Event)
    ensures Calls(es + [e]) == if e.Call? then Calls(es) + [e.caller] else Calls(es)
    ensures Outcomes(es + [e]) == if e.Outcome? && Calls(es) != [] then Outcomes(es) + [e.success] else Outcomes(es)
    ensures Early(es + [e]) == if e.Call? && Outcomes(es) == [] then Early(es) + [e.caller] else Early(es)
    ensures Run(es + [e]) == Step(Run(es), e)
  {
    assert (es + [e])[..|es + [e]| - 1] == es;
  }

  lemma StepAgrees(es: seq<Event>, e: Event)
    requires Agrees(Run(es), es)
    ensures Agrees(Run(es + [e]), es + [e])
  {
    Newest(es, e);
    hide Run, Calls, Outcomes, Early;
  }

  lemma {:induction false} RunAgrees(es: seq<Event>)
    ensures Agrees(Run(es), es)
    decreases es
  {
    if es == [] {
    } else {
      var before, e := es[..|es| - 1], es[|es| - 1];
      RunAgrees(before);
      StepAgrees(before, e);
      assert es == before + [e];
    }
  }

  /** An early caller gets a callback for every outcome, a late one a single callback. */
  ghost predicate Counts(es: seq<Event>, caller: nat) {
    var early := Times(Early(es), caller);
    var all := Times(Calls(es), caller);
    var n := |Outcomes(es)|;
    early <= all && Count(Run(es).log, caller) == if n == 0 then 0 else early * n + (all - early)
  }

  lemma CallCounts(es: seq<Event>, c: nat, caller: nat)
    requires Agrees(Run(es), es) && Counts(es, caller)
    ensures Counts(es + [Call(c)], caller)
  {
    Newest(es, Call(c));
    var s := Run(es);
    hide Run, Calls, Outcomes, Early, Count, Times;
    TimesSplits(Calls(es), [c], caller);
    TimesSplits(Early(es), [c], caller);
    CountSplits(s.log, [Callback(c, s.handler.Succeeded?)], caller);
    OneCall(c, s.handler.Succeeded?, caller);
    NothingCounted(caller);
  }

  lemma OutcomeCounts(es: seq<Event>, success: bool, caller: nat)
    requires Agrees(Run(es), es) && Counts(es, caller)
    ensures Counts(es + [Outcome(success)], caller)
  {
    Newest(es, Outcome(success));
    var s := Run(es);
    hide Run, Calls, Outcomes, Early, Count, Times;
    var n := |Outcomes(es)|;
    var early := Times(Early(es), caller);
    CountSplits(s.log, Callbacks(Collected(s.handler), success), caller);
    CountCallbacks(Collected(s.handler), success, caller);
    OneMore(early, n);
    NothingCounted(caller);
  }

  lemma OneMore(early: nat, n: nat)
    ensures early * (n + 1) == early * n + early && early * 0 == 0 && early * 1 == early
  {
  }

  lemma {:induction false} RunCounts(es: seq<Event>, caller: nat)
    ensures Counts(es, caller)
    decreases es
  {
    if es == [] {
    } else {
      var before, e := es[..|es| - 1], es[|es| - 1];
      RunCounts(before, caller);
      RunAgrees(before);
      match e {
        case Call(c) => CallCounts(before, c, caller);
        case Outcome(success) => OutcomeCounts(before, success, caller);
      }
      assert es == before + [e];
    }
  }

  lemma OneCall(c: nat, success: bool, caller: nat)
    ensures Count([Callback(c, success)], caller) == Times([c], caller) == if c == caller then 1 else 0
  {
    assert [Callback(c, success)][1..] == [] && [c][1..] == [];
  }

  lemma NothingCounted(caller: nat)
    ensures Count([], caller) == 0 && Times([], caller) == 0
  {
  }

  // ---------------------------------------------------------------- main results

  /** The body runs once if there is a call, and not before the first one. */
  lemma BodyRunsOnce(es: seq<Event>)
    ensures Run(es).runs == if Calls(es) == [] then 0 else 1
  {
    RunAgrees(es);
  }

  /**
   * A body that reports one outcome gives every call exactly one callback, of that outcome's kind,
   * in the order of the calls.
   */
  lemma {:induction false} OneOutcomeOneCallback(es: seq<Event>)
    requires |Outcomes(es)| == 1
    ensures Run(es).log == Callbacks(Calls(es), Outcomes(es)[0])
    decreases es
  {
    NoOutcomes();
    hide Run, Calls, Outcomes, Early, Callbacks;
    var before, e := es[..|es| - 1], es[|es| - 1];
    RunAgrees(before);
    Newest(before, e);
    assert es == before + [e];
    if Outcomes(before) != [] {
      OneOutcomeOneCallback(before);
      if e.Call? {
        OneMoreCall(Calls(before), e.caller, Outcomes(before)[0]);
      }
    } else {
      assert [] + Callbacks(Calls(before), e.success) == Callbacks(Calls(before), e.success);
    }
  }

  lemma NoOutcomes()
    ensures Outcomes([]) == []
  {
  }

  lemma OneMoreCall(calls: seq<nat>, c: nat, success: bool)
    ensures Callbacks(calls + [c], success) == Callbacks(calls, success) + [Callback(c, success)]
  {
  }

  lemma CountOfCaller(es: seq<Event>, c: nat)
    requires Counts(es, c) && Times(Calls(es), c) == 1
    ensures |Outcomes(es)| == 1 ==> Count(Run(es).log, c) == 1
    ensures Times(Early(es), c) >= 1 ==> Count(Run(es).log, c) == |Outcomes(es)|
  {
    hide Run, Calls, Outcomes, Early, Count, Times;
    OneMore(Times(Early(es), c), 0);
    if Times(Early(es), c) == 1 {
      assert 1 * |Outcomes(es)| == |Outcomes(es)|;
    }
  }

  /** With distinct callers: each has exactly one callback if and only if there was exactly one outcome. */
  lemma OneCallbackIffOneOutcome(es: seq<Event>)
    requires Calls(es) != [] && forall i, j :: 0 <= i < j < |Calls(es)| ==> Calls(es)[i] != Calls(es)[j]
    ensures (forall c <- Calls(es) :: Count(Run(es).log, c) == 1) <==> |Outcomes(es)| == 1
  {
    FirstIsEarly(es);
    hide Run, Calls, Outcomes, Early, Count, Counts;
    var first := Calls(es)[0];
    assert first in Calls(es) && Times(Early(es), first) >= 1;
    forall c | c in Calls(es)
      ensures |Outcomes(es)| == 1 ==> Count(Run(es).log, c) == 1
      ensures Times(Early(es), c) >= 1 ==> Count(Run(es).log, c) == |Outcomes(es)|
    {
      DistinctOnce(Calls(es), c);
      RunCounts(es, c);
      CountOfCaller(es, c);
    }
  }

  lemma {:induction false} DistinctOnce(calls: seq<nat>, c: nat)
    requires c in calls && forall i, j :: 0 <= i < j < |calls| ==> calls[i] != calls[j]
    ensures Times(calls, c) == 1
    decreases calls
  {
    if calls[0] == c {
      AbsentNever(calls[1..], c);
    } else {
      DistinctOnce(calls[1..], c);
    }
  }

  lemma {:induction false} AbsentNever(calls: seq<nat>, c: nat)
    requires c !in calls
    ensures Times(calls, c) == 0
    decreases calls
  {
    if calls == [] {
    } else {
      AbsentNever(calls[1..], c);
    }
  }

  lemma {:induction false} FirstIsEarly(es: seq<Event>)
    requires Calls(es) != []
    ensures Early(es) != [] && Early(es)[0] == Calls(es)[0]
    decreases es
  {
    var before, e := es[..|es| - 1], es[|es| - 1];
    RunAgrees(before);
    if Calls(before) == [] {
    } else {
      FirstIsEarly(before);
    }
  }

  /**
   * The callbacks, told by the events: an outcome answers all calls made before the first outcome, in
   * order; a call after the first outcome is answered at once with the latest one; others wait.
   */
  function Told(es: seq<Event>): seq<Callback>
    decreases es
  {
    if es == [] then []
    else
      var before, e := es[..|es| - 1], es[|es| - 1];
      Told(before) +
      (match e
       case Call(caller) =>
         if Outcomes(before) == [] then [] else [Callback(caller, Outcomes(before)[|Outcomes(before)| - 1])]
       case Outcome(success) =>
         if Calls(before) == [] then [] else Callbacks(Early(es), success))
  }

  lemma ToldMore(es: seq<Event>, e: Event)
    ensures Told(es + [e])
         == Told(es) +
            (match e
             case Call(caller) =>
               if Outcomes(es) == [] then [] else [Callback(caller, Outcomes(es)[|Outcomes(es)| - 1])]
             case Outcome(success) =>
               if Calls(es) == [] then [] else Callbacks(Early(es + [e]), success))
  {
    hide Calls, Outcomes, Early;
    assert (es + [e])[..|es + [e]| - 1] == es;
  }

  lemma StepTold(es: seq<Event>, e: Event)
    requires Agrees(Run(es), es) && Run(es).log == Told(es)
    ensures Run(es + [e]).log == Told(es + [e])
  {
    Newest(es, e);
    ToldMore(es, e);
    hide Run, Calls, Outcomes, Early, Told, Callbacks;
    assert Told(es) + [] == Told(es);
  }

  /** In every run, with any number of outcomes, these are the callbacks. */
  lemma {:induction false} CallbacksAreTold(es: seq<Event>)
    ensures Run(es).log == Told(es)
    decreases es
  {
    hide Agrees, Calls, Outcomes, Early, Step;
    if es == [] {
    } else {
      var before := es[..|es| - 1];
      CallbacksAreTold(before);
      RunAgrees(before);
      StepTold(before, es[|es| - 1]);
      assert es == before + [es[|es| - 1]];
    }
  }

  // ---------------------------------------------------------------- the object

  class Tag {
    var handler: Handler
    var runs: nat
    var log: seq<Callback>

    ghost function Now(): State
      reads this
    {
      State(handler, runs, log)
    }

    constructor ()
      ensures Now() == START
    {
      handler, runs, log := Waiting([]), 0, [];
    }

    method Invoke(caller: nat)
      modifies this
      ensures Now() == Step(old(Now()), Event.Call(caller))
    {
      match handler
      case Waiting(callers) =>
        handler := Waiting(callers + [caller]);
        if runs == 0 {
          runs := 1;
        }
      case Succeeded(_) =>
        log := log + [Callback(caller, true)];
      case Failed(_) =>
        log := log + [Callback(caller, false)];
    }

    method End(success: bool)
      requires runs > 0
      modifies this
      ensures Now() == Step(old(Now()), Event.Outcome(success))
    {
      var all := Collected(handler);
      handler := if success then Succeeded(all) else Failed(all);
      var f := 0;
      while f < |all|
        invariant 0 <= f <= |all|
        invariant handler == old(if success then Succeeded(Collected(handler)) else Failed(Collected(handler)))
        invariant runs == old(runs) && log == old(log) + Callbacks(all, success)[..f]
      {
        log := log + [Callback(all[f], success)];
        f := f + 1;
      }
      assert Callbacks(all, success)[..f] == Callbacks(all, success);
    }
  }
}
