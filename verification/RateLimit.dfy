/**
 * The sliding-window rate limiter: a sorted set per client in Redis, pruned at each check and
 * dropped when its time to live runs out. A check is one atomic transaction. The set's members
 * are the printed times, so two checks at the same time leave one member.
 */
module RateLimit {
  const WINDOW := 60.0

  /** A client's sorted set, as its scores, and the time at which Redis drops it. */
  datatype Entry = Entry(scores: set<real>, expires: real)

  datatype Verdict = Verdict(allowed: bool, remaining: nat, reset: int)

  datatype Call = Call(client: string, time: real)

  datatype State = State(store: map<string, Entry>, verdicts: seq<Verdict>)

  function Stored(store: map<string, Entry>, client: string, now: real): set<real> {
    if client in store && now < store[client].expires then store[client].scores else {}
  }

  /** ZREMRANGEBYSCORE 0 .. now - window, then ZADD now. */
  function Updated(scores: set<real>, now: real): set<real> {
    (set x <- scores | !(0.0 <= x <= now - WINDOW)) + {now}
  }

  /** ZCOUNT now - window .. now. */
  function Counted(scores: set<real>, now: real): nat {
    |set x <- scores | now - WINDOW <= x <= now|
  }

  function VerdictFor(max: nat, count: nat, now: real): Verdict {
    Verdict(count <= max, if count <= max then max - count else 0, (now + WINDOW).Floor)
  }

  function Check(max: nat, s: State, c: Call): State {
    var scores := Updated(Stored(s.store, c.client, c.time), c.time);
    State(s.store[c.client := Entry(scores, c.time + WINDOW)],
          s.verdicts + [VerdictFor(max, Counted(scores, c.time), c.time)])
  }

  function Run(max: nat, calls: seq<Call>): State {
    if calls == [] then State(map[], []) else Check(max, Run(max, calls[..|calls| - 1]), calls[|calls| - 1])
  }

  class RateLimiter {
    const maxRequests: nat
    var store: map<string, Entry>

    constructor (maxRequests: nat)
      ensures store == map[] && this.maxRequests == maxRequests
    {
      this.maxRequests := maxRequests;
      store := map[];
    }

    method CheckRateLimit(client: string, now: real) returns (allowed: bool, remaining: nat, reset: int)
      modifies this`store
      ensures State(store, [Verdict(allowed, remaining, reset)])
           == Check(maxRequests, State(old(store), []), Call(client, now))
    {
      var windowStart := now - WINDOW;
      var scores := if client in store && now < store[client].expires then store[client].scores else {};
      scores := set x <- scores | !(0.0 <= x <= windowStart);
      scores := scores + {now};
      var count := |set x <- scores | windowStart <= x <= now|;
      store := store[client := Entry(scores, now + WINDOW)];
      remaining := if maxRequests > count then maxRequests - count else 0;
      reset := (now + WINDOW).Floor;
      allowed := count <= maxRequests;
    }
  }

  // ---------------------------------------------------------------- the full request log

  /** The times of all of a client's requests in (lo, hi], refused ones too. */
  function InWindow(calls: seq<Call>, client: string, lo: real, hi: real): seq<real> {
    if calls == [] then []
    else
      var c := calls[|calls| - 1];
      InWindow(calls[..|calls| - 1], client, lo, hi)
      + (if c.client == client && lo < c.time <= hi then [c.time] else [])
  }

  /** The half-open minute up to and including `hi`. */
  function LastMinute(calls: seq<Call>, client: string, hi: real): seq<real> {
    InWindow(calls, client, hi - WINDOW, hi)
  }

  /** How many of them were allowed. */
  function AllowedInWindow(calls: seq<Call>, verdicts: seq<Verdict>, client: string, lo: real, hi: real): nat
    requires |calls| == |verdicts|
  {
    if calls == [] then 0
    else
      var n := |calls| - 1;
      AllowedInWindow(calls[..n], verdicts[..n], client, lo, hi)
      + (if calls[n].client == client && lo < calls[n].time <= hi && verdicts[n].allowed then 1 else 0)
  }

  /** The clock never goes back and starts at or after zero. */
  predicate Monotone(calls: seq<Call>) {
    && (forall i :: 0 <= i < |calls| ==> 0.0 <= calls[i].time)
    && (forall i, j :: 0 <= i < j < |calls| ==> calls[i].time <= calls[j].time)
  }

  /** No client asks twice at the same time. */
  predicate Strict(calls: seq<Call>) {
    forall i, j :: 0 <= i < j < |calls| && calls[i].client == calls[j].client ==> calls[i].time != calls[j].time
  }

  predicate NoRepeats(s: seq<real>) {
    forall i, j :: 0 <= i < j < |s| ==> s[i] != s[j]
  }

  function Elements(s: seq<real>): set<real> {
    set x <- s
  }

  function Times(calls: seq<Call>, client: string): set<real> {
    set c <- calls | c.client == client :: c.time
  }

  /** The stored set is the log within the window that ends at the client's latest request. */
  ghost predicate Tracks(store: map<string, Entry>, calls: seq<Call>, client: string) {
    if client in store then
      var last := store[client].expires - WINDOW;
      && last in Times(calls, client)
      && (forall t <- Times(calls, client) :: t <= last)
      && store[client].scores == (set t <- Times(calls, client) | t > last - WINDOW)
    else Times(calls, client) == {}
  }

  lemma {:induction false} RunLength(max: nat, calls: seq<Call>)
    ensures |Run(max, calls).verdicts| == |calls|
  {
    if calls == [] {
    } else {
      RunLength(max, calls[..|calls| - 1]);
    }
  }

  lemma TimesGrow(calls: seq<Call>, c: Call, client: string)
    ensures Times(calls + [c], client) == Times(calls, client) + (if c.client == client then {c.time} else {})
  {
    assert forall x :: x in calls + [c] <==> x in calls || x == c;
  }

  lemma CheckTracks(max: nat, s: State, calls: seq<Call>, c: Call, client: string)
    requires Tracks(s.store, calls, client)
    requires 0.0 <= c.time && forall t <- Times(calls, client) :: 0.0 <= t <= c.time
    ensures Tracks(Check(max, s, c).store, calls + [c], client)
    ensures client == c.client ==>
              Check(max, s, c).store[client].scores == set t <- Times(calls + [c], client) | t > c.time - WINDOW
  {
    TimesGrow(calls, c, client);
  }

  lemma {:induction false} RunTracks(max: nat, calls: seq<Call>, client: string)
    requires Monotone(calls)
    ensures Tracks(Run(max, calls).store, calls, client)
  {
    if calls == [] {
    } else {
      var n := |calls| - 1;
      RunTracks(max, calls[..n], client);
      forall t | t in Times(calls[..n], client)
        ensures 0.0 <= t <= calls[n].time
      {
        var c :| c in calls[..n] && c.client == client && c.time == t;
        var i :| 0 <= i < n && calls[i] == c;
      }
      hide Times, Tracks, Check;
      CheckTracks(max, Run(max, calls[..n]), calls[..n], calls[n], client);
      assert calls[..n] + [calls[n]] == calls;
    }
  }

  // ---------------------------------------------------------------- counting

  lemma {:induction false} WindowElements(calls: seq<Call>, client: string, lo: real, hi: real)
    ensures Elements(InWindow(calls, client, lo, hi)) == set t <- Times(calls, client) | lo < t <= hi
  {
    if calls == [] {
    } else {
      var n := |calls| - 1;
      var c := calls[n];
      WindowElements(calls[..n], client, lo, hi);
      TimesGrow(calls[..n], c, client);
      assert calls[..n] + [c] == calls;
      var w := InWindow(calls[..n], client, lo, hi);
      if c.client == client && lo < c.time <= hi {
        ElementsGrow(w, c.time);
      } else {
        assert w + [] == w;
      }
    }
  }

  lemma ElementsGrow(s: seq<real>, x: real)
    ensures Elements(s + [x]) == Elements(s) + {x}
  {
    assert forall y :: y in s + [x] <==> y in s || y == x;
  }

  /** A sequence has as many distinct elements as positions exactly when nothing repeats. */
  lemma {:induction false} DistinctCount(s: seq<real>)
    ensures |Elements(s)| <= |s|
    ensures |Elements(s)| == |s| <==> NoRepeats(s)
  {
    if s == [] {
    } else {
      var n := |s| - 1;
      var r, x := s[..n], s[n];
      DistinctCount(r);
      assert s == r + [x];
      ElementsGrow(r, x);
      if x in r {
        var i :| 0 <= i < n && r[i] == x;
        assert s[i] == s[n];
        assert Elements(r) + {x} == Elements(r);
      } else {
        assert forall i :: 0 <= i < n ==> s[i] == r[i];
        assert NoRepeats(s) <==> NoRepeats(r);
      }
    }
  }

  /** What the last check of a run counted. */
  function LastCount(max: nat, calls: seq<Call>): nat
    requires calls != []
  {
    var c := calls[|calls| - 1];
    Counted(Updated(Stored(Run(max, calls[..|calls| - 1]).store, c.client, c.time), c.time), c.time)
  }

  lemma LastIsLatest(calls: seq<Call>)
    requires calls != [] && Monotone(calls)
    ensures forall d <- calls :: d.time <= calls[|calls| - 1].time
  {
    forall d | d in calls
      ensures d.time <= calls[|calls| - 1].time
    {
      var i :| 0 <= i < |calls| && calls[i] == d;
    }
  }

  lemma TimesAreCalls(calls: seq<Call>, client: string, t: real)
    requires t in Times(calls, client)
    ensures exists d <- calls :: d.client == client && d.time == t
  {
  }

  lemma TimesAreEarlier(calls: seq<Call>, client: string)
    requires calls != [] && Monotone(calls)
    ensures forall t <- Times(calls, client) :: t <= calls[|calls| - 1].time
  {
    LastIsLatest(calls);
    forall t | t in Times(calls, client)
      ensures t <= calls[|calls| - 1].time
    {
      TimesAreCalls(calls, client, t);
    }
  }

  lemma ScoresInWindow(scores: set<real>, times: set<real>, lo: real, hi: real)
    requires scores == (set t <- times | t > lo) && forall t <- times :: t <= hi
    ensures (set x <- scores | lo <= x <= hi) == (set t <- times | lo < t <= hi)
  {
  }

  lemma CountIsOfScores(max: nat, s: State, c: Call)
    ensures c.client in Check(max, s, c).store
    ensures Counted(Updated(Stored(s.store, c.client, c.time), c.time), c.time)
         == |set x <- Check(max, s, c).store[c.client].scores | c.time - WINDOW <= x <= c.time|
  {
  }

  lemma ScoresAfterLast(max: nat, calls: seq<Call>)
    requires calls != [] && Monotone(calls)
    ensures var c := calls[|calls| - 1];
            var r := Check(max, Run(max, calls[..|calls| - 1]), c);
            c.client in r.store && r.store[c.client].scores == set t <- Times(calls, c.client) | t > c.time - WINDOW
  {
    var n := |calls| - 1;
    var c := calls[n];
    var s := Run(max, calls[..n]);
    assert calls[..n] + [c] == calls;
    RunTracks(max, calls[..n], c.client);
    TimesAreEarlier(calls, c.client);
    TimesGrow(calls[..n], c, c.client);
    hide Run, Times, Tracks;
    CheckTracks(max, s, calls[..n], c, c.client);
  }

  lemma LastScores(max: nat, calls: seq<Call>)
    requires calls != [] && Monotone(calls)
    ensures var c := calls[|calls| - 1];
            LastCount(max, calls) == |set t <- Times(calls, c.client) | c.time - WINDOW < t <= c.time|
  {
    var c := calls[|calls| - 1];
    var s := Run(max, calls[..|calls| - 1]);
    ScoresAfterLast(max, calls);
    TimesAreEarlier(calls, c.client);
    CountIsOfScores(max, s, c);
    hide Run, Times, Check, Counted, Updated, Stored;
    ScoresInWindow(Check(max, s, c).store[c.client].scores, Times(calls, c.client), c.time - WINDOW, c.time);
  }

  /** The check counts the distinct request times of the client in the last minute, refused ones too. */
  lemma CountsDistinctTimes(max: nat, calls: seq<Call>)
    requires calls != [] && Monotone(calls)
    ensures var c := calls[|calls| - 1];
            LastCount(max, calls) == |Elements(LastMinute(calls, c.client, c.time))|
  {
    var c := calls[|calls| - 1];
    LastScores(max, calls);
    WindowElements(calls, c.client, c.time - WINDOW, c.time);
    hide LastCount, Times, Elements, InWindow;
  }

  lemma {:induction false} StrictWindow(calls: seq<Call>, client: string, lo: real, hi: real)
    requires Strict(calls)
    ensures NoRepeats(InWindow(calls, client, lo, hi))
  {
    if calls == [] {
    } else {
      var n := |calls| - 1;
      var c := calls[n];
      StrictWindow(calls[..n], client, lo, hi);
      WindowElements(calls[..n], client, lo, hi);
      forall t | t in InWindow(calls[..n], client, lo, hi) && c.client == client
        ensures t != c.time
      {
        assert t in Elements(InWindow(calls[..n], client, lo, hi));
        var d :| d in calls[..n] && d.client == client && d.time == t;
        var i :| 0 <= i < n && calls[i] == d;
      }
      var w := InWindow(calls[..n], client, lo, hi);
      assert forall k :: 0 <= k < |w| ==> w[k] in w;
      assert w + [] == w;
    }
  }

  // ---------------------------------------------------------------- main results

  /**
   * The pruned and expiring set agrees with the full request log: the count of a check equals the
   * number of the client's requests in the last minute if and only if no two of them share a time.
   */
  lemma CountEqualsLogIffDistinct(max: nat, calls: seq<Call>)
    requires calls != [] && Monotone(calls)
    ensures var c := calls[|calls| - 1];
            var w := LastMinute(calls, c.client, c.time);
            && LastCount(max, calls) <= |w|
            && (LastCount(max, calls) == |w| <==> NoRepeats(w))
  {
    var c := calls[|calls| - 1];
    CountsDistinctTimes(max, calls);
    DistinctCount(LastMinute(calls, c.client, c.time));
  }

  lemma MinuteIsWindow(calls: seq<Call>, client: string, hi: real)
    ensures LastMinute(calls, client, hi) == InWindow(calls, client, hi - WINDOW, hi)
  {
  }

  /** With a strict clock the verdict is the one the full log gives. */
  lemma VerdictIsFromTheLog(max: nat, calls: seq<Call>)
    requires calls != [] && Monotone(calls) && Strict(calls)
    ensures |Run(max, calls).verdicts| == |calls|
    ensures var c := calls[|calls| - 1];
            Run(max, calls).verdicts[|calls| - 1]
            == VerdictFor(max, |LastMinute(calls, c.client, c.time)|, c.time)
  {
    var n := |calls| - 1;
    var c := calls[n];
    RunLength(max, calls);
    RunLength(max, calls[..n]);
    CountEqualsLogIffDistinct(max, calls);
    StrictWindow(calls, c.client, c.time - WINDOW, c.time);
    MinuteIsWindow(calls, c.client, c.time);
    LastIsChecked(max, calls);
    hide *;
  }

  lemma LastIsChecked(max: nat, calls: seq<Call>)
    requires calls != [] && |Run(max, calls[..|calls| - 1]).verdicts| == |calls| - 1
    ensures Run(max, calls).verdicts[|calls| - 1] == VerdictFor(max, LastCount(max, calls), calls[|calls| - 1].time)
  {
    hide VerdictFor, Counted, Updated, Stored;
  }

  lemma VerdictsStay(max: nat, calls: seq<Call>)
    requires calls != []
    ensures |Run(max, calls).verdicts| == |calls|
    ensures Run(max, calls).verdicts[..|calls| - 1] == Run(max, calls[..|calls| - 1]).verdicts
  {
    RunLength(max, calls);
    RunLength(max, calls[..|calls| - 1]);
  }

  /** A later window that ends at the client's last time so far holds at least as many. */
  lemma {:induction false} WindowMonotone(calls: seq<Call>, client: string, hi: real, t: real)
    requires t <= hi && forall c <- calls :: c.time <= t
    ensures |LastMinute(calls, client, hi)| <= |LastMinute(calls, client, t)|
  {
    if calls == [] {
    } else {
      assert forall c <- calls[..|calls| - 1] :: c in calls;
      assert calls[|calls| - 1] in calls;
      WindowMonotone(calls[..|calls| - 1], client, hi, t);
    }
  }

  lemma {:induction false} AllowedAmongAll(calls: seq<Call>, verdicts: seq<Verdict>, client: string, lo: real, hi: real)
    requires |calls| == |verdicts|
    ensures AllowedInWindow(calls, verdicts, client, lo, hi) <= |InWindow(calls, client, lo, hi)|
  {
    if calls == [] {
    } else {
      AllowedAmongAll(calls[..|calls| - 1], verdicts[..|calls| - 1], client, lo, hi);
    }
  }

  /** When the last request was allowed, a window that holds it holds at most `max`. */
  lemma AllowedWindow(max: nat, calls: seq<Call>, hi: real)
    requires calls != [] && Monotone(calls) && Strict(calls) && calls[|calls| - 1].time <= hi
    requires |Run(max, calls).verdicts| == |calls| && Run(max, calls).verdicts[|calls| - 1].allowed
    ensures |LastMinute(calls, calls[|calls| - 1].client, hi)| <= max
  {
    VerdictIsFromTheLog(max, calls);
    LastIsLatest(calls);
    hide Run, LastMinute, InWindow, Strict;
    WindowMonotone(calls, calls[|calls| - 1].client, hi, calls[|calls| - 1].time);
  }

  lemma NothingAllowed(calls: seq<Call>, verdicts: seq<Verdict>, client: string, lo: real, hi: real)
    requires |calls| == |verdicts| == 0
    ensures AllowedInWindow(calls, verdicts, client, lo, hi) == 0
  {
  }

  lemma NextAllowed(calls: seq<Call>, verdicts: seq<Verdict>, client: string, lo: real, hi: real)
    requires |calls| == |verdicts| > 0
    ensures var n := |calls| - 1;
            AllowedInWindow(calls, verdicts, client, lo, hi)
            == AllowedInWindow(calls[..n], verdicts[..n], client, lo, hi)
               + if calls[n].client == client && lo < calls[n].time <= hi && verdicts[n].allowed then 1 else 0
  {
  }

  lemma OrderBefore(calls: seq<Call>)
    requires calls != []
    ensures Monotone(calls) ==> Monotone(calls[..|calls| - 1])
    ensures Strict(calls) ==> Strict(calls[..|calls| - 1])
  {
  }

  /** With a strict clock no half-open minute of any run holds more than `max` allowed requests of a client. */
  lemma {:induction false} NoMinuteExceedsTheLimit(max: nat, calls: seq<Call>, client: string, hi: real)
    requires Monotone(calls) && Strict(calls)
    ensures |Run(max, calls).verdicts| == |calls|
    ensures AllowedInWindow(calls, Run(max, calls).verdicts, client, hi - WINDOW, hi) <= max
  {
    hide *;
    RunLength(max, calls);
    if calls == [] {
      NothingAllowed(calls, Run(max, calls).verdicts, client, hi - WINDOW, hi);
    } else {
      var n := |calls| - 1;
      var c, verdicts := calls[n], Run(max, calls).verdicts;
      VerdictsStay(max, calls);
      OrderBefore(calls);
      NoMinuteExceedsTheLimit(max, calls[..n], client, hi);
      NextAllowed(calls, verdicts, client, hi - WINDOW, hi);
      if c.client == client && hi - WINDOW < c.time <= hi && verdicts[n].allowed {
        AllowedWindow(max, calls, hi);
        AllowedAmongAll(calls, verdicts, client, hi - WINDOW, hi);
        MinuteIsWindow(calls, client, hi);
      }
    }
  }

  /** The times at which they were allowed. */
  function AllowedTimes(calls: seq<Call>, verdicts: seq<Verdict>, client: string, lo: real, hi: real): set<real>
    requires |calls| == |verdicts|
  {
    if calls == [] then {}
    else
      var n := |calls| - 1;
      AllowedTimes(calls[..n], verdicts[..n], client, lo, hi)
      + (if calls[n].client == client && lo < calls[n].time <= hi && verdicts[n].allowed then {calls[n].time} else {})
  }

  lemma {:induction false} AllowedAreTimes(calls: seq<Call>, verdicts: seq<Verdict>, client: string, lo: real, hi: real)
    requires |calls| == |verdicts|
    ensures AllowedTimes(calls, verdicts, client, lo, hi) <= set t <- Times(calls, client) | lo < t <= hi
  {
    if calls == [] {
    } else {
      var n := |calls| - 1;
      AllowedAreTimes(calls[..n], verdicts[..n], client, lo, hi);
      TimesGrow(calls[..n], calls[n], client);
      assert calls[..n] + [calls[n]] == calls;
    }
  }

  lemma SmallerSet(a: set<real>, b: set<real>)
    requires a <= b
    ensures |a| <= |b|
  {
    assert b == a + (b - a);
  }

  lemma LastAllowedTimes(max: nat, calls: seq<Call>, hi: real)
    requires calls != [] && Monotone(calls) && calls[|calls| - 1].time <= hi
    requires |Run(max, calls).verdicts| == |calls| && Run(max, calls).verdicts[|calls| - 1].allowed
    ensures |AllowedTimes(calls, Run(max, calls).verdicts, calls[|calls| - 1].client, hi - WINDOW, hi)| <= max
  {
    hide *;
    var c := calls[|calls| - 1];
    var verdicts := Run(max, calls).verdicts;
    LastVerdict(max, calls);
    LastScores(max, calls);
    TimesAreEarlier(calls, c.client);
    AllowedAreTimes(calls, verdicts, c.client, hi - WINDOW, hi);
    SmallerSet(AllowedTimes(calls, verdicts, c.client, hi - WINDOW, hi),
               set t <- Times(calls, c.client) | c.time - WINDOW < t <= c.time);
  }

  lemma LastVerdict(max: nat, calls: seq<Call>)
    requires calls != [] && |Run(max, calls).verdicts| == |calls|
    ensures Run(max, calls).verdicts[|calls| - 1].allowed <==> LastCount(max, calls) <= max
  {
    RunLength(max, calls[..|calls| - 1]);
  }

  /** Whatever the clock, the allowed requests of a client in a half-open minute carry at most `max` different times. */
  lemma {:induction false} AllowedTimesStayWithinTheLimit(max: nat, calls: seq<Call>, client: string, hi: real)
    requires Monotone(calls)
    ensures |Run(max, calls).verdicts| == |calls|
    ensures |AllowedTimes(calls, Run(max, calls).verdicts, client, hi - WINDOW, hi)| <= max
  {
    RunLength(max, calls);
    if calls == [] {
    } else {
      var n := |calls| - 1;
      var c, verdicts := calls[n], Run(max, calls).verdicts;
      VerdictsStay(max, calls);
      AllowedTimesStayWithinTheLimit(max, calls[..n], client, hi);
      hide Run;
      if c.client == client && hi - WINDOW < c.time <= hi && verdicts[n].allowed {
        LastAllowedTimes(max, calls, hi);
      } else {
        var before := AllowedTimes(calls[..n], verdicts[..n], client, hi - WINDOW, hi);
        assert before + {} == before;
      }
    }
  }

  lemma FewerBefore(calls: seq<Call>, client: string, hi: real)
    requires calls != []
    ensures |LastMinute(calls[..|calls| - 1], client, hi)| <= |LastMinute(calls, client, hi)|
  {
  }

  /** A client that keeps within the limit in every minute is never refused, whatever the clock. */
  lemma {:induction false} WellBehavedIsNeverRefused(max: nat, calls: seq<Call>, i: nat)
    requires Monotone(calls) && i < |calls|
    requires forall hi: real :: |LastMinute(calls, calls[i].client, hi)| <= max
    ensures |Run(max, calls).verdicts| == |calls| && Run(max, calls).verdicts[i].allowed
  {
    var n := |calls| - 1;
    VerdictsStay(max, calls);
    if i < n {
      forall hi: real
        ensures |LastMinute(calls[..n], calls[i].client, hi)| <= max
      {
        assert |LastMinute(calls, calls[i].client, hi)| <= max;
        FewerBefore(calls, calls[i].client, hi);
      }
      WellBehavedIsNeverRefused(max, calls[..n], i);
      assert Run(max, calls).verdicts[..n][i] == Run(max, calls).verdicts[i];
    } else {
      var c := calls[n];
      CountEqualsLogIffDistinct(max, calls);
      assert |LastMinute(calls, c.client, c.time)| <= max;
      RunLength(max, calls[..n]);
      LastIsChecked(max, calls);
      hide Run, LastMinute, LastCount;
    }
  }

  function SameInstant(client: string, t: real, n: nat): seq<Call> {
    if n == 0 then [] else SameInstant(client, t, n - 1) + [Call(client, t)]
  }

  lemma {:induction false} SameInstantIsMonotone(client: string, t: real, n: nat)
    requires t >= 0.0
    ensures |SameInstant(client, t, n)| == n && Monotone(SameInstant(client, t, n))
    ensures forall c <- SameInstant(client, t, n) :: c == Call(client, t)
  {
    if n <= 0 {
    } else {
      SameInstantIsMonotone(client, t, n - 1);
      var before, calls := SameInstant(client, t, n - 1), SameInstant(client, t, n);
      forall i | 0 <= i < n
        ensures calls[i] == Call(client, t)
      {
        if i < n - 1 {
          assert before[i] in before && calls[i] == before[i];
        }
      }
    }
  }

  lemma SameInstantIsAllowed(client: string, t: real, n: nat)
    requires t >= 0.0 && n > 0
    ensures var calls := SameInstant(client, t, n);
            |Run(1, calls).verdicts| == n == |calls| && Run(1, calls).verdicts[n - 1].allowed
  {
    var calls := SameInstant(client, t, n);
    SameInstantIsMonotone(client, t, n);
    RunLength(1, calls);
    RunLength(1, calls[..n - 1]);
    CountsDistinctTimes(1, calls);
    WindowElements(calls, client, t - WINDOW, t);
    assert calls[n - 1] in calls;
    hide InWindow, Counted, Updated, Stored;
    assert Elements(LastMinute(calls, client, t)) <= {t};
    AtMostOne(Elements(LastMinute(calls, client, t)), t);
  }

  lemma SameInstantGrows(client: string, t: real, n: nat)
    requires n > 0 && |SameInstant(client, t, n)| == n
    ensures var calls := SameInstant(client, t, n);
            calls[..n - 1] == SameInstant(client, t, n - 1) && calls[n - 1] == Call(client, t)
  {
  }

  /** Without a strict clock the limit fails: any number of requests at one instant are all allowed. */
  lemma {:induction false} SameInstantEscapesTheLimit(client: string, t: real, n: nat)
    requires t >= 0.0
    ensures var calls := SameInstant(client, t, n);
            var verdicts := Run(1, calls).verdicts;
            |verdicts| == |calls| && AllowedInWindow(calls, verdicts, client, t - WINDOW, t) == n
  {
    assert WINDOW > 0.0;
    hide *;
    var calls := SameInstant(client, t, n);
    SameInstantIsMonotone(client, t, n);
    RunLength(1, calls);
    if n == 0 {
      NothingAllowed(calls, Run(1, calls).verdicts, client, t - WINDOW, t);
    } else {
      SameInstantEscapesTheLimit(client, t, n - 1);
      SameInstantIsAllowed(client, t, n);
      VerdictsStay(1, calls);
      SameInstantGrows(client, t, n);
      NextAllowed(calls, Run(1, calls).verdicts, client, t - WINDOW, t);
    }
  }

  lemma AtMostOne(s: set<real>, t: real)
    requires s <= {t}
    ensures |s| <= 1
  {
    if t in s {
      assert s == {t};
    } else {
      assert s == {};
    }
  }

  // ---------------------------------------------------------------- what a verdict tells the client

  function CallsOf(calls: seq<Call>, client: string): nat {
    if calls == [] then 0
    else CallsOf(calls[..|calls| - 1], client) + (if calls[|calls| - 1].client == client then 1 else 0)
  }

  /** All these times are in the half-open minute up to `hi`. */
  predicate NoneHasLeft(times: seq<real>, hi: real) {
    forall x <- times :: hi - WINDOW < x
  }

  /** What was in the last minute still is, and everything later is. */
  lemma {:induction false} SameMinute(calls: seq<Call>, more: seq<Call>, client: string, t: real, hi: real)
    requires t <= hi && forall c <- calls :: c.time <= t
    requires NoneHasLeft(LastMinute(calls, client, t), hi)
    requires forall c <- more :: c.client == client ==> hi - WINDOW < c.time <= hi
    ensures |LastMinute(calls + more, client, hi)| == |LastMinute(calls, client, t)| + CallsOf(more, client)
  {
    if more == [] {
      assert calls + more == calls;
      SameBefore(calls, client, t, hi);
    } else {
      var n := |more| - 1;
      assert (calls + more)[..|calls + more| - 1] == calls + more[..n];
      assert more[n] in more;
      SameMinute(calls, more[..n], client, t, hi);
    }
  }

  lemma {:induction false} SameBefore(calls: seq<Call>, client: string, t: real, hi: real)
    requires t <= hi && forall c <- calls :: c.time <= t
    requires NoneHasLeft(LastMinute(calls, client, t), hi)
    ensures LastMinute(calls, client, hi) == LastMinute(calls, client, t)
  {
    if calls == [] {
    } else {
      var n := |calls| - 1;
      var c := calls[n];
      assert c in calls;
      var w := LastMinute(calls[..n], client, t);
      assert forall x <- w :: x in LastMinute(calls, client, t);
      SameBefore(calls[..n], client, t, hi);
      if c.client == client && t - WINDOW < c.time {
        assert (w + [c.time])[|w|] == c.time;
        assert c.time in LastMinute(calls, client, t);
      }
    }
  }

  /**
   * `remaining` is exact: with a strict clock, as long as none of the requests counted then has left
   * the minute, a further request is allowed if and only if it is among the first `remaining` ones.
   */
  lemma RemainingIsExact(max: nat, calls: seq<Call>, more: seq<Call>)
    requires calls != [] && more != [] && Monotone(calls + more) && Strict(calls + more)
    requires more[|more| - 1].client == calls[|calls| - 1].client
    requires NoneHasLeft(LastMinute(calls, calls[|calls| - 1].client, calls[|calls| - 1].time), more[|more| - 1].time)
    ensures |Run(max, calls).verdicts| == |calls| && |Run(max, calls + more).verdicts| == |calls + more|
    ensures Run(max, calls + more).verdicts[|calls + more| - 1].allowed
       <==> CallsOf(more, calls[|calls| - 1].client) <= Run(max, calls).verdicts[|calls| - 1].remaining
  {
    var all, client, t, hi := calls + more, calls[|calls| - 1].client, calls[|calls| - 1].time, more[|more| - 1].time;
    assert all[|all| - 1] == more[|more| - 1] && all[|calls| - 1] == calls[|calls| - 1];
    OrderOfPrefix(calls, more);
    VerdictIsFromTheLog(max, calls);
    VerdictIsFromTheLog(max, all);
    LastIsLatest(calls);
    LastIsInMinute(calls);
    SomeCalls(more, client);
    forall c | c in more
      ensures t <= c.time <= hi
    {
      var i :| 0 <= i < |more| && more[i] == c;
      assert all[|calls| + i] == c;
    }
    hide Run, LastMinute, CallsOf, Strict;
    SameMinute(calls, more, client, t, hi);
  }

  lemma OrderOfPrefix(calls: seq<Call>, more: seq<Call>)
    requires Monotone(calls + more) && Strict(calls + more)
    ensures Monotone(calls) && Strict(calls)
  {
    assert forall i :: 0 <= i < |calls| ==> calls[i] == (calls + more)[i];
  }

  lemma LastIsInMinute(calls: seq<Call>)
    requires calls != []
    ensures calls[|calls| - 1].time in LastMinute(calls, calls[|calls| - 1].client, calls[|calls| - 1].time)
  {
  }

  lemma SomeCalls(calls: seq<Call>, client: string)
    requires calls != [] && calls[|calls| - 1].client == client
    ensures CallsOf(calls, client) > 0
  {
  }

  lemma {:induction false} NothingInWindow(calls: seq<Call>, client: string, lo: real, hi: real)
    requires forall c <- calls :: c.time <= lo
    ensures InWindow(calls, client, lo, hi) == []
  {
    if calls == [] {
    } else {
      assert calls[|calls| - 1] in calls && forall c <- calls[..|calls| - 1] :: c in calls;
      NothingInWindow(calls[..|calls| - 1], client, lo, hi);
    }
  }

  lemma LastInWindow(calls: seq<Call>, lo: real, hi: real)
    requires calls != [] && lo < calls[|calls| - 1].time <= hi
    ensures InWindow(calls, calls[|calls| - 1].client, lo, hi) != []
  {
  }

  /**
   * `reset` is a whole second: if the client asks nothing more, its last request counts at every time
   * before `reset`, and nothing counts from the end of that second on.
   */
  lemma ResetIsTheEnd(max: nat, calls: seq<Call>, hi: real)
    requires calls != [] && Monotone(calls) && calls[|calls| - 1].time <= hi
    ensures |Run(max, calls).verdicts| == |calls|
    ensures var c, reset := calls[|calls| - 1], Run(max, calls).verdicts[|calls| - 1].reset;
            && (hi < reset as real ==> LastMinute(calls, c.client, hi) != [])
            && (hi >= reset as real + 1.0 ==> LastMinute(calls, c.client, hi) == [])
  {
    var n := |calls| - 1;
    RunLength(max, calls);
    RunLength(max, calls[..n]);
    LastIsChecked(max, calls);
    LastIsLatest(calls);
    hide Run, LastCount, InWindow;
    if hi - WINDOW < calls[n].time {
      LastInWindow(calls, hi - WINDOW, hi);
    } else {
      NothingInWindow(calls, calls[n].client, hi - WINDOW, hi);
    }
  }
}
