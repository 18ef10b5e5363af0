/** The completion tracker of a tag run: callbacks fire once, when sealed and all reported, or on timeout. */
module CompletionTracker {
  datatype State = State(
    done: bool, waiting: seq<nat>, isSealed: bool, registered: nat, reported: nat,
    open: set<nat>, fired: seq<nat>)

  const START := State(false, [], false, 0, 0, {}, [])

  /** `Report(t)` calls the function that the `t`-th registration returned. */
  datatype Event = AddCallback(id: nat) | Register | Report(token: nat) | Seal | Timeout

  function Finish(s: State): State {
    if s.done then s else s.(done := true, waiting := [], fired := s.fired + s.waiting)
  }

  function FinishIfSettled(s: State): State {
    if s.reported >= s.registered then Finish(s) else s
  }

  function Step(s: State, e: Event): State {
    match e
    case AddCallback(id) => if s.done then s.(fired := s.fired + [id]) else s.(waiting := s.waiting + [id])
    case Register => s.(registered := s.registered + 1, open := s.open + {s.registered})
    case Report(t) =>
      if t !in s.open then s
      else
        var r := s.(open := s.open - {t}, reported := s.reported + 1);
        if r.isSealed then FinishIfSettled(r) else r
    case Seal => FinishIfSettled(s.(isSealed := true))
    case Timeout => Finish(s)
  }

  function Run(es: seq<Event>): State
    decreases es
  {
    if es == [] then START else Step(Run(es[..|es| - 1]), es[|es| - 1])
  }

  // ---------------------------------------------------------------- what the events say

  /** The callbacks that were added, in order. */
  function Added(es: seq<Event>): seq<nat>
    decreases es
  {
    if es == [] then []
    else
      var before := Added(es[..|es| - 1]);
      if es[|es| - 1].AddCallback? then before + [es[|es| - 1].id] else before
  }

  function Registrations(es: seq<Event>): nat
    decreases es
  {
    if es == [] then 0 else Registrations(es[..|es| - 1]) + (if es[|es| - 1].Register? then 1 else 0)
  }

  /** The registrations that have reported. */
  function Reporters(es: seq<Event>): set<nat>
    decreases es
  {
    if es == [] then {}
    else
      var before := es[..|es| - 1];
      var e := es[|es| - 1];
      if e.Report? && e.token < Registrations(before) then Reporters(before) + {e.token} else Reporters(before)
  }

  /** Sealed, and every registration has reported. */
  predicate Settled(es: seq<Event>) {
    Seal in es && forall t: nat :: t < Registrations(es) ==> t in Reporters(es)
  }

  /** At some moment of the run the tracker was settled, or the timeout came. */
  predicate Ended(es: seq<Event>) {
    Timeout in es || exists n :: 0 <= n <= |es| && Settled(es[..n])
  }

  // ---------------------------------------------------------------- the invariant

  ghost predicate Agrees(s: State, es: seq<Event>) {
    && s.isSealed == (Seal in es)
    && s.registered == Registrations(es)
    && s.reported == |Reporters(es)|
    && (forall t: nat :: t in s.open <==> t < Registrations(es) && t !in Reporters(es))
    && (forall t <- Reporters(es) :: t < Registrations(es))
    && s.fired + s.waiting == Added(es)
    && (s.done ==> s.waiting == [])
    && (!s.done ==> s.fired == [])
    && (s.done <==> Ended(es))
  }

  lemma {:induction false} FullSet(n: nat, r: set<nat>)
    requires forall t <- r :: t < n
    ensures |r| <= n && (|r| == n <==> forall t: nat :: t < n ==> t in r)
    decreases n
  {
    if n == 0 {
      assert r == {};
    } else {
      var q := r - {n - 1};
      FullSet(n - 1, q);
      if n - 1 in r {
        assert r == q + {n - 1};
      } else {
        assert r == q;
      }
    }
  }

  lemma SettledIsCounted(s: State, es: seq<Event>)
    requires s.registered == Registrations(es) && s.reported == |Reporters(es)|
    requires forall t <- Reporters(es) :: t < Registrations(es)
    ensures Settled(es) <==> Seal in es && s.reported >= s.registered
  {
    FullSet(Registrations(es), Reporters(es));
  }

  lemma EndedGrows(es: seq<Event>, e: Event)
    ensures Ended(es + [e]) <==> Ended(es) || e == Timeout || Settled(es + [e])
  {
    var all := es + [e];
    if n :| 0 <= n <= |es| && Settled(es[..n]) {
      assert all[..n] == es[..n];
    }
    if Settled(all) {
      assert all[..|all|] == all;
    }
    if n :| 0 <= n <= |all| && Settled(all[..n]) {
      if n <= |es| {
        assert all[..n] == es[..n];
      } else {
        assert all[..n] == all;
      }
    }
  }

  lemma Newest(es: seq<Event>, e: Event)
    ensures (es + [e])[..|es + [e]| - 1] == es && (es + [e])[|es + [e]| - 1] == e
    ensures Registrations(es + [e]) == Registrations(es) + (if e.Register? then 1 else 0)
    ensures Added(es + [e]) == if e.AddCallback? then Added(es) + [e.id] else Added(es)
    ensures Reporters(es + [e])
         == if e.Report? && e.token < Registrations(es) then Reporters(es) + {e.token} else Reporters(es)
    ensures forall x :: x in es + [e] <==> x in es || x == e
  {
    assert (es + [e])[..|es + [e]| - 1] == es;
  }

  /** Before it is decided whether the event ends the run, the counts follow it. */
  lemma CountsStep(s: State, es: seq<Event>, e: Event)
    requires Agrees(s, es)
    ensures var r := Step(s, e);
            && r.isSealed == (Seal in es + [e])
            && r.registered == Registrations(es + [e])
            && r.reported == |Reporters(es + [e])|
            && (forall t: nat :: t in r.open <==> t < Registrations(es + [e]) && t !in Reporters(es + [e]))
            && (forall t <- Reporters(es + [e]) :: t < Registrations(es + [e]))
  {
    hide Added, Registrations, Reporters, Ended;
    Newest(es, e);
    if e.Report? && e.token < Registrations(es) && e.token !in s.open {
      assert Reporters(es) + {e.token} == Reporters(es);
    }
  }

  lemma CallbacksStep(s: State, es: seq<Event>, e: Event)
    requires Agrees(s, es)
    ensures var r := Step(s, e);
            && r.fired + r.waiting == Added(es + [e])
            && (r.done ==> r.waiting == [])
            && (!r.done ==> r.fired == [])
            && (r.done <==> s.done || e == Timeout
                            || ((e == Seal || (e.Report? && e.token in s.open && s.isSealed))
                                && r.reported >= r.registered))
  {
    Newest(es, e);
    FiredStep(s, Added(es), e);
    hide Added, Registrations, Reporters, Ended;
  }

  lemma FiredStep(s: State, added: seq<nat>, e: Event)
    requires s.fired + s.waiting == added && (s.done ==> s.waiting == []) && (!s.done ==> s.fired == [])
    ensures var r := Step(s, e);
            && r.fired + r.waiting == (if e.AddCallback? then added + [e.id] else added)
            && (r.done ==> r.waiting == []) && (!r.done ==> r.fired == [])
  {
    assert s.fired + s.waiting + [] == s.fired + s.waiting;
    assert [] + s.waiting == s.waiting;
  }

  lemma AgreesStep(s: State, es: seq<Event>, e: Event)
    requires Agrees(s, es)
    ensures Agrees(Step(s, e), es + [e])
  {
    var r := Step(s, e);
    CountsStep(s, es, e);
    CallbacksStep(s, es, e);
    SettledIsCounted(s, es);
    SettledIsCounted(r, es + [e]);
    EndedGrows(es, e);
    FullSet(Registrations(es), Reporters(es));
    if Settled(es) {
      assert es[..|es|] == es;
      assert Ended(es);
    }
    hide Added, Registrations, Reporters, Ended, Settled;
  }

  lemma {:induction false} RunAgrees(es: seq<Event>)
    ensures Agrees(Run(es), es)
    decreases es
  {
    if es == [] {
      NothingEnded();
    } else {
      var before := es[..|es| - 1];
      RunAgrees(before);
      AgreesStep(Run(before), before, es[|es| - 1]);
      assert es == before + [es[|es| - 1]];
    }
  }

  lemma NothingEnded()
    ensures !Ended([]) && Reporters([]) == {} && Registrations([]) == 0 && Added([]) == []
  {
    forall n | 0 <= n <= 0
      ensures !Settled([][..n])
    {
      assert Seal !in [][..n];
    }
  }

  // ---------------------------------------------------------------- main results

  /**
   * In every run, the callbacks that were added have all been fired, once each and in order, if the
   * timeout came or the tracker was settled at some moment so far; otherwise none has.
   */
  lemma FiredOnceWhenEnded(es: seq<Event>)
    ensures Run(es).fired == if Ended(es) then Added(es) else []
  {
    RunAgrees(es);
    hide Run, Added, Ended, Registrations, Reporters;
    var s := Run(es);
    assert s.fired + [] == s.fired;
  }

  /** Once it is settled every callback has been fired; nothing that comes later fires one again. */
  lemma SettledHasFired(es: seq<Event>, more: seq<Event>)
    requires Settled(es)
    ensures Run(es).fired == Added(es) && Run(es + more).fired == Added(es + more)
  {
    assert es[..|es|] == es && (es + more)[..|es|] == es;
    FiredOnceWhenEnded(es);
    FiredOnceWhenEnded(es + more);
  }

  /** A registration that has not reported keeps the callbacks back until the timeout, if it came before the seal. */
  lemma MissingReportHoldsBack(es: seq<Event>, more: seq<Event>, token: nat)
    requires Seal !in es && Timeout !in es + more
    requires token < Registrations(es) && token !in Reporters(es + more)
    ensures Run(es + more).fired == []
  {
    FiredOnceWhenEnded(es + more);
    var all := es + more;
    forall n | 0 <= n <= |all|
      ensures !Settled(all[..n])
    {
      if n <= |es| {
        assert all[..n] == es[..n];
      } else {
        var m := more[..n - |es|];
        assert all[..n] == es + m && all == all[..n] + more[n - |es|..];
        RegistrationsGrow(es, m);
        ReportersGrow(all[..n], more[n - |es|..]);
        assert token < Registrations(all[..n]) && token !in Reporters(all[..n]);
      }
    }
  }

  lemma {:induction false} RegistrationsGrow(es: seq<Event>, more: seq<Event>)
    ensures Registrations(es) <= Registrations(es + more)
    decreases more
  {
    if more == [] {
      assert es + more == es;
    } else {
      assert (es + more)[..|es + more| - 1] == es + more[..|more| - 1];
      RegistrationsGrow(es, more[..|more| - 1]);
    }
  }

  lemma {:induction false} ReportersGrow(es: seq<Event>, more: seq<Event>)
    ensures Reporters(es) <= Reporters(es + more)
    decreases more
  {
    if more == [] {
      assert es + more == es;
    } else {
      assert (es + more)[..|es + more| - 1] == es + more[..|more| - 1];
      ReportersGrow(es, more[..|more| - 1]);
    }
  }

  // ---------------------------------------------------------------- the object

  class Tracker {
    var done: bool
    var waiting: seq<nat>
    var isSealed: bool
    var registered: nat
    var reported: nat
    var open: set<nat>
    var fired: seq<nat>

    ghost function Now(): State
      reads this
    {
      State(done, waiting, isSealed, registered, reported, open, fired)
    }

    constructor ()
      ensures Now() == START
    {
      done, waiting, isSealed, registered, reported, open, fired := false, [], false, 0, 0, {}, [];
    }

    method Complete()
      modifies this
      ensures Now() == Finish(old(Now()))
    {
      if !done {
        var c := 0;
        while c < |waiting|
          invariant 0 <= c <= |waiting|
          invariant Now() == old(Now()).(fired := old(fired) + waiting[..c])
        {
          fired := fired + [waiting[c]];
          c := c + 1;
        }
        assert waiting[..c] == waiting;
        done := true;
        waiting := [];
      }
    }

    method AddCallback(id: nat)
      modifies this
      ensures Now() == Step(old(Now()), Event.AddCallback(id))
    {
      if done {
        fired := fired + [id];
      } else {
        waiting := waiting + [id];
      }
    }

    method Register() returns (token: nat)
      modifies this
      ensures Now() == Step(old(Now()), Event.Register) && token == old(registered)
    {
      token := registered;
      registered := registered + 1;
      open := open + {token};
    }

    /** What a registration returned; a second call does nothing. */
    method Report(token: nat)
      modifies this
      ensures Now() == Step(old(Now()), Event.Report(token))
    {
      if token in open {
        open := open - {token};
        reported := reported + 1;
        if isSealed && reported >= registered {
          Complete();
        }
      }
    }

    method SealRun()
      modifies this
      ensures Now() == Step(old(Now()), Event.Seal)
    {
      isSealed := true;
      if reported >= registered {
        Complete();
      }
    }
  }
}
