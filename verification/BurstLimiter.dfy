/** The limiter on diagnostic sends: a ring of the last send times, a budget, and silenced events. */
module BurstLimiter {
  const SLOTS: nat := 5
  const SPACING: int := 1000
  const BUDGET: int := 1000

  /** One attempt to send, and the two clock readings it makes: one for the check, one for the stamp. */
  datatype Attempt = Attempt(event: int, check: int, stamp: int)

  datatype Send = Send(event: int, stamp: int)

  datatype State = State(ring: seq<int>, count: nat, budget: int, silenced: set<int>, sent: seq<Send>)

  const START := State([0, 0, 0, 0, 0], 0, BUDGET, {}, [])

  predicate TooSoon(s: State, check: int)
    requires |s.ring| == SLOTS
  {
    s.count >= SLOTS && check - s.ring[s.count % SLOTS] < SPACING
  }

  function Step(s: State, a: Attempt): (r: State)
    requires |s.ring| == SLOTS
    ensures |r.ring| == SLOTS
  {
    if a.event in s.silenced || TooSoon(s, a.check) then s.(silenced := s.silenced + {a.event})
    else if s.budget <= 0 then s.(budget := s.budget - 1, silenced := s.silenced + {a.event})
    else
      s.(ring := s.ring[s.count % SLOTS := a.stamp], count := s.count + 1, budget := s.budget - 1,
         sent := s.sent + [Send(a.event, a.stamp)])
  }

  function Run(attempts: seq<Attempt>): (s: State)
    ensures |s.ring| == SLOTS
    decreases attempts
  {
    if attempts == [] then START else Step(Run(attempts[..|attempts| - 1]), attempts[|attempts| - 1])
  }

  /** The clock does not go back, within an attempt or between two. */
  predicate Monotone(attempts: seq<Attempt>) {
    && (forall i :: 0 <= i < |attempts| ==> attempts[i].check <= attempts[i].stamp)
    && (forall i, j :: 0 <= i < j < |attempts| ==> attempts[i].stamp <= attempts[j].check)
  }

  // ---------------------------------------------------------------- invariants

  /** The ring holds the stamps of the last sends, each in the slot of its number. */
  predicate RingHolds(s: State) {
    && |s.ring| == SLOTS && s.count == |s.sent|
    && forall i :: 0 <= i < |s.sent| && i + SLOTS >= |s.sent| ==> s.ring[i % SLOTS] == s.sent[i].stamp
  }

  predicate Ordered(sent: seq<Send>) {
    forall i, j :: 0 <= i < j < |sent| ==> sent[i].stamp <= sent[j].stamp
  }

  /** Every six sends in a row span at least the spacing. */
  predicate Spaced(sent: seq<Send>) {
    forall i :: 0 <= i < |sent| - SLOTS ==> sent[i + SLOTS].stamp - sent[i].stamp >= SPACING
  }

  predicate Valid(s: State) {
    && RingHolds(s) && Ordered(s.sent) && Spaced(s.sent)
    && |s.sent| <= BUDGET
    && (if |s.sent| < BUDGET then s.budget == BUDGET - |s.sent| else s.budget <= 0)
  }

  lemma SlotOfOther(i: nat, n: nat)
    requires i < n < i + SLOTS
    ensures i % SLOTS != n % SLOTS
  {
  }

  lemma SlotOfSame(i: nat)
    ensures i % SLOTS == (i + SLOTS) % SLOTS
  {
  }

  lemma RingStep(s: State, a: Attempt)
    requires RingHolds(s)
    ensures RingHolds(Step(s, a))
  {
    var r := Step(s, a);
    if r.sent != s.sent {
      forall i | 0 <= i < |r.sent| && i + SLOTS >= |r.sent|
        ensures r.ring[i % SLOTS] == r.sent[i].stamp
      {
        if i < s.count {
          SlotOfOther(i, s.count);
        }
      }
    }
  }

  /** The send that the check looks at is the fifth last one. */
  lemma OldestInRing(s: State)
    requires RingHolds(s) && s.count >= SLOTS
    ensures s.ring[s.count % SLOTS] == s.sent[s.count - SLOTS].stamp
  {
    SlotOfSame(s.count - SLOTS);
  }

  lemma ValidStep(s: State, a: Attempt)
    requires Valid(s) && a.check <= a.stamp
    requires s.sent != [] ==> s.sent[|s.sent| - 1].stamp <= a.check
    ensures Valid(Step(s, a))
  {
    RingStep(s, a);
    if s.count >= SLOTS {
      OldestInRing(s);
    }
  }

  lemma {:induction false} RunIsValid(attempts: seq<Attempt>)
    requires Monotone(attempts)
    ensures var s := Run(attempts);
            && Valid(s)
            && (s.sent != [] ==> attempts != [] && s.sent[|s.sent| - 1].stamp <= attempts[|attempts| - 1].stamp)
    decreases attempts
  {
    if attempts == [] {
    } else {
      var before, a := attempts[..|attempts| - 1], attempts[|attempts| - 1];
      RunIsValid(before);
      assert a.check <= a.stamp && (before != [] ==> before[|before| - 1].stamp <= a.check);
      hide Valid, Monotone, Step;
      ValidStep(Run(before), a);
      LastStamp(Run(before), a);
    }
  }

  lemma LastStamp(s: State, a: Attempt)
    requires |s.ring| == SLOTS
    ensures var sent := Step(s, a).sent; sent == s.sent || sent == s.sent + [Send(a.event, a.stamp)]
  {
    hide TooSoon;
  }

  // ---------------------------------------------------------------- counting

  /** How many sends carry a stamp from `lo` up to but not including `hi`. */
  function Within(sent: seq<Send>, lo: int, hi: int): (n: nat)
    ensures n <= |sent|
    decreases sent
  {
    if sent == [] then 0
    else Within(sent[..|sent| - 1], lo, hi) + (if lo <= sent[|sent| - 1].stamp < hi then 1 else 0)
  }

  lemma {:induction false} NoneBefore(sent: seq<Send>, lo: int, hi: int)
    requires forall i :: 0 <= i < |sent| ==> sent[i].stamp < lo
    ensures Within(sent, lo, hi) == 0
    decreases sent
  {
    if sent == [] {
    } else {
      NoneBefore(sent[..|sent| - 1], lo, hi);
    }
  }

  lemma {:induction false} WithinPrefix(sent: seq<Send>, k: nat, lo: int, hi: int)
    requires k <= |sent|
    ensures Within(sent, lo, hi) <= Within(sent[..k], lo, hi) + |sent| - k
    ensures (forall i :: k <= i < |sent| ==> lo <= sent[i].stamp < hi) ==>
              Within(sent, lo, hi) == Within(sent[..k], lo, hi) + |sent| - k
    decreases sent
  {
    if k < |sent| {
      assert sent[..|sent| - 1][..k] == sent[..k];
      WithinPrefix(sent[..|sent| - 1], k, lo, hi);
    } else {
      assert sent[..k] == sent;
    }
  }

  lemma {:induction false} SpacedWindow(sent: seq<Send>, lo: int)
    requires Ordered(sent) && Spaced(sent)
    ensures Within(sent, lo, lo + SPACING) <= SLOTS
    decreases sent
  {
    var n := |sent|;
    if n <= SLOTS {
    } else {
      if sent[n - 1].stamp >= lo + SPACING {
        SpacedWindow(sent[..n - 1], lo);
      } else {
        WithinPrefix(sent, n - SLOTS, lo, lo + SPACING);
        assert sent[n - 1].stamp - sent[n - 1 - SLOTS].stamp >= SPACING;
        NoneBefore(sent[..n - SLOTS], lo, lo + SPACING);
      }
    }
  }

  /** The fifth last send is recent exactly when five sends are. */
  lemma FifthLast(sent: seq<Send>, now: int)
    requires Ordered(sent) && Spaced(sent) && |sent| >= SLOTS && sent[|sent| - 1].stamp <= now
    ensures now - sent[|sent| - SLOTS].stamp < SPACING <==> Within(sent, now - SPACING + 1, now + 1) >= SLOTS
  {
    var k := |sent| - SLOTS;
    var lo := now - SPACING + 1;
    if sent[k].stamp >= lo {
      WithinPrefix(sent, k, lo, now + 1);
    } else {
      WithinPrefix(sent, k + 1, lo, now + 1);
      NoneBefore(sent[..k + 1], lo, now + 1);
    }
  }

  // ---------------------------------------------------------------- main results

  /** In every run no 1000 ms window, wherever it begins, holds more than five sends; at most 1000 are made. */
  lemma NoBurst(attempts: seq<Attempt>, lo: int)
    requires Monotone(attempts)
    ensures Within(Run(attempts).sent, lo, lo + SPACING) <= SLOTS
    ensures |Run(attempts).sent| <= BUDGET
  {
    RunIsValid(attempts);
    SpacedWindow(Run(attempts).sent, lo);
  }

  predicate RefusedAt(attempts: seq<Attempt>, i: nat)
    requires i < |attempts|
  {
    Run(attempts[..i + 1]).sent == Run(attempts[..i]).sent
  }

  /** Some attempt of the event was not sent. */
  ghost predicate HeldBack(attempts: seq<Attempt>, event: int) {
    exists i :: 0 <= i < |attempts| && RefusedAt(attempts, i) && attempts[i].event == event
  }

  lemma HeldBackMore(attempts: seq<Attempt>, a: Attempt, event: int)
    ensures HeldBack(attempts + [a], event)
       <==> HeldBack(attempts, event) || (a.event == event && Run(attempts + [a]).sent == Run(attempts).sent)
  {
    var all := attempts + [a];
    assert all[..|all|] == all && all[..|attempts|] == attempts;
    forall i | 0 <= i < |attempts|
      ensures RefusedAt(all, i) <==> RefusedAt(attempts, i)
    {
      assert all[..i + 1] == attempts[..i + 1] && all[..i] == attempts[..i];
    }
    assert RefusedAt(all, |attempts|) <==> Run(all).sent == Run(attempts).sent;
    hide Run;
    if i :| 0 <= i < |attempts| && RefusedAt(attempts, i) && attempts[i].event == event {
      assert RefusedAt(all, i) && all[i].event == event;
    }
    if a.event == event && Run(all).sent == Run(attempts).sent {
      assert RefusedAt(all, |attempts|) && all[|attempts|].event == event;
    }
  }

  lemma RefusalSilences(s: State, a: Attempt)
    requires |s.ring| == SLOTS
    ensures Step(s, a).silenced == if Step(s, a).sent == s.sent then s.silenced + {a.event} else s.silenced
  {
    hide TooSoon;
  }

  /** The silenced events are those of which an attempt was held back. */
  lemma {:induction false} SilencedIsHeldBack(attempts: seq<Attempt>, event: int)
    ensures event in Run(attempts).silenced <==> HeldBack(attempts, event)
    decreases attempts
  {
    if attempts == [] {
    } else {
      var before, a := attempts[..|attempts| - 1], attempts[|attempts| - 1];
      assert attempts == before + [a];
      SilencedIsHeldBack(before, event);
      RefusalSilences(Run(before), a);
      hide Step, HeldBack;
      HeldBackMore(before, a, event);
    }
  }

  /**
   * No attempt of the event was held back before, fewer than 1000 sends were made, and fewer than
   * five of them in the last 1000 ms.
   */
  ghost predicate MaySend(attempts: seq<Attempt>, a: Attempt) {
    var sent := Run(attempts).sent;
    && !HeldBack(attempts, a.event)
    && |sent| < BUDGET
    && Within(sent, a.check - SPACING + 1, a.check + 1) < SLOTS
  }

  /** What the ring, the budget and the set of events decide is what the whole record of sends decides. */
  lemma SentExactlyWhen(attempts: seq<Attempt>, a: Attempt)
    requires Monotone(attempts + [a])
    ensures Run(attempts + [a]).sent == if MaySend(attempts, a) then Run(attempts).sent + [Send(a.event, a.stamp)]
                                        else Run(attempts).sent
  {
    var all := attempts + [a];
    assert all[..|all| - 1] == attempts;
    assert Run(all) == Step(Run(attempts), a);
    MonotoneBefore(attempts, a);
    RunIsValid(attempts);
    SilencedIsHeldBack(attempts, a.event);
    StepSends(Run(attempts), a);
    hide Run, Within, Monotone, Valid, Step, HeldBack;
    ValidBudget(Run(attempts));
  }

  lemma ValidBudget(s: State)
    requires Valid(s)
    ensures s.budget > 0 <==> |s.sent| < BUDGET
  {
  }

  lemma StepSends(s: State, a: Attempt)
    requires Valid(s) && (s.sent != [] ==> s.sent[|s.sent| - 1].stamp <= a.check)
    ensures Step(s, a).sent
         == if a.event !in s.silenced && s.budget > 0 && Within(s.sent, a.check - SPACING + 1, a.check + 1) < SLOTS
            then s.sent + [Send(a.event, a.stamp)] else s.sent
  {
    hide Within, Valid, TooSoon;
    CheckLooksBack(s, a.check);
  }

  lemma MonotoneBefore(attempts: seq<Attempt>, a: Attempt)
    requires Monotone(attempts + [a])
    ensures Monotone(attempts) && (attempts != [] ==> attempts[|attempts| - 1].stamp <= a.check)
  {
    var all := attempts + [a];
    forall i, j | 0 <= i < j < |attempts|
      ensures attempts[i].stamp <= attempts[j].check
    {
      assert all[i].stamp <= all[j].check;
    }
    forall i | 0 <= i < |attempts|
      ensures attempts[i].check <= attempts[i].stamp && attempts[i].stamp <= a.check
    {
      assert all[i].check <= all[i].stamp && all[i].stamp <= all[|attempts|].check;
    }
  }

  lemma CheckLooksBack(s: State, check: int)
    requires Valid(s) && (s.sent != [] ==> s.sent[|s.sent| - 1].stamp <= check)
    ensures TooSoon(s, check) <==> Within(s.sent, check - SPACING + 1, check + 1) >= SLOTS
  {
    if s.count >= SLOTS {
      OldestInRing(s);
      FifthLast(s.sent, check);
    }
  }

  /** An event that was held back once is never sent again. */
  lemma {:induction false} SilencedStaysSilent(attempts: seq<Attempt>, more: seq<Attempt>, event: int)
    requires HeldBack(attempts, event)
    ensures HeldBack(attempts + more, event)
    ensures forall x <- Run(attempts + more).sent :: x.event == event ==> x in Run(attempts).sent
    decreases more
  {
    if more == [] {
      assert attempts + more == attempts;
    } else {
      var front, a := more[..|more| - 1], more[|more| - 1];
      assert attempts + more == (attempts + front) + [a];
      SilencedStaysSilent(attempts, front, event);
      SilencedIsHeldBack(attempts + front, event);
      HeldBackMore(attempts + front, a, event);
      assert (attempts + more)[..|attempts + more| - 1] == attempts + front;
      hide HeldBack, TooSoon;
    }
  }

  // ---------------------------------------------------------------- the object

  class Limiter {
    const ring: array<int>
    var count: nat
    var budget: int
    var silenced: set<int>
    ghost var sent: seq<Send>

    ghost function Now(): State
      reads this, ring
    {
      State(ring[..], count, budget, silenced, sent)
    }

    constructor ()
      ensures ring.Length == SLOTS && Now() == START && fresh(ring)
    {
      ring := new int[SLOTS](i => 0);
      count, budget, silenced, sent := 0, BUDGET, {}, [];
      new;
      assert ring[..] == [0, 0, 0, 0, 0];
    }

    /** Sends for an event, unless held back; the clock is read for the check and again for the stamp. */
    method Try(event: int, check: int, stamp: int) returns (sends: bool)
      requires ring.Length == SLOTS
      modifies this, ring
      ensures Now() == Step(old(Now()), Attempt(event, check, stamp))
      ensures sends == (sent != old(sent))
    {
      var b := event in silenced;
      if !b {
        b := if count < SLOTS then false else check - ring[count % SLOTS] < SPACING;
      }
      if !b {
        b := budget <= 0;
        budget := budget - 1;
      }
      if b {
        silenced := silenced + {event};
        return false;
      }
      ring[count % SLOTS] := stamp;
      count := count + 1;
      sent := sent + [Send(event, stamp)];
      sends := true;
    }
  }
}
