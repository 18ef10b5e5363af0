/** Consent entries: regional defaults and declarations, updates, and implicit consent. */
module Consent {
  import opened Prelude

  // ---------------------------------------------------------------- entries

  /** What is stored for one consent type; a boolean tells granted from denied. */
  datatype Entry = Entry(
    region: Option<string>, byDefault: Option<bool>,
    declareRegion: Option<string>, declared: Option<bool>,
    updated: Option<bool>, implied: Option<bool>)

  const NOTHING := Entry(None, None, None, None, None, None)

  datatype Command =
    | Default(kind: string, value: Option<string>, region: Option<string>)
    | Declare(kind: string, value: Option<string>, region: Option<string>)
    | Update(kind: string, value: Option<string>)
    | Implicit(kind: string, value: Option<string>)

  /** Where the page is read: country and subdivision, in upper case, empty if unknown. */
  datatype Place = Place(country: string, subdivision: string)

  function Upper(s: string): (u: string)
    ensures |u| == |s|
  {
    seq(|s|, i requires 0 <= i < |s| => if 'a' <= s[i] <= 'z' then s[i] - 'a' + 'A' else s[i])
  }

  /** The region a command names, if any. */
  function Named(region: Option<string>): Option<string> {
    if region.Some? && region.value != "" then Some(Upper(region.value)) else None
  }

  function Granted(value: Option<string>): bool {
    value == Some("granted")
  }

  function Stored(entries: map<string, Entry>, kind: string): Entry {
    if kind in entries then entries[kind] else NOTHING
  }

  /** Whether a setting for region `q` may replace one that was stored for region `p`. */
  predicate Replaces(q: Option<string>, p: Option<string>, place: Place) {
    || place.country == ""
    || q == Some(place.subdivision)
    || (if q == Some(place.country) then p != Some(place.subdivision) else q.None? && p.None?)
  }

  // ---------------------------------------------------------------- one command

  function DefaultStep(n: Entry, q: Option<string>, granted: bool, place: Place): Entry {
    if Replaces(q, n.region, place) && (place.country != "" || n.byDefault != Some(false))
    then n.(region := q, byDefault := Some(granted))
    else n
  }

  function DeclareStep(n: Entry, q: Option<string>, granted: bool, place: Place): Entry {
    if Replaces(q, n.declareRegion, place) && (place.country != "" || n.declared != Some(false))
    then n.(declareRegion := q, declared := Some(granted))
    else n
  }

  /** The entry of the command's own kind after the command. */
  function EntryStep(n: Entry, c: Command, place: Place): Entry {
    match c
    case Default(_, value, region) =>
      if value.None? then n else DefaultStep(n, Named(region), Granted(value), place)
    case Declare(_, value, region) => DeclareStep(n, Named(region), Granted(value), place)
    case Update(_, value) => if value.None? then n else n.(updated := Some(Granted(value)))
    case Implicit(_, value) => if n.implied == Some(false) then n else n.(implied := Some(Granted(value)))
  }

  function Step(entries: map<string, Entry>, c: Command, place: Place): map<string, Entry> {
    var n := Stored(entries, c.kind);
    var u := EntryStep(n, c, place);
    if c.kind !in entries && u == NOTHING then entries else entries[c.kind := u]
  }

  function Run(cs: seq<Command>, place: Place): map<string, Entry>
    decreases cs
  {
    if cs == [] then map[] else Step(Run(cs[..|cs| - 1], place), cs[|cs| - 1], place)
  }

  // ---------------------------------------------------------------- what the commands of one kind say

  datatype Setting = Setting(region: Option<string>, granted: bool)

  function Defaults(cs: seq<Command>, kind: string): seq<Setting>
    decreases cs
  {
    if cs == [] then []
    else
      var before := Defaults(cs[..|cs| - 1], kind);
      var c := cs[|cs| - 1];
      if c.Default? && c.kind == kind && c.value.Some? then before + [Setting(Named(c.region), Granted(c.value))]
      else before
  }

  function Declarations(cs: seq<Command>, kind: string): seq<Setting>
    decreases cs
  {
    if cs == [] then []
    else
      var before := Declarations(cs[..|cs| - 1], kind);
      var c := cs[|cs| - 1];
      if c.Declare? && c.kind == kind then before + [Setting(Named(c.region), Granted(c.value))]
      else before
  }

  function Updates(cs: seq<Command>, kind: string): seq<bool>
    decreases cs
  {
    if cs == [] then []
    else
      var before := Updates(cs[..|cs| - 1], kind);
      var c := cs[|cs| - 1];
      if c.Update? && c.kind == kind && c.value.Some? then before + [Granted(c.value)] else before
  }

  function Implicits(cs: seq<Command>, kind: string): seq<bool>
    decreases cs
  {
    if cs == [] then []
    else
      var before := Implicits(cs[..|cs| - 1], kind);
      var c := cs[|cs| - 1];
      if c.Implicit? && c.kind == kind then before + [Granted(c.value)] else before
  }

  /** The last setting that names exactly this region, or none. */
  function LastFor(s: seq<Setting>, region: Option<string>): Option<bool>
    decreases s
  {
    if s == [] then None
    else if s[|s| - 1].region == region then Some(s[|s| - 1].granted)
    else LastFor(s[..|s| - 1], region)
  }

  function OrElse(a: Option<bool>, b: Option<bool>): Option<bool> {
    if a.Some? then a else b
  }

  /** Subdivision before country before no region; the last one within each. */
  function MostSpecific(s: seq<Setting>, place: Place): Option<bool> {
    OrElse(LastFor(s, Some(place.subdivision)), OrElse(LastFor(s, Some(place.country)), LastFor(s, None)))
  }

  /** A denial sticks; otherwise the last answer counts. */
  function Sticky(answers: seq<bool>): Option<bool> {
    if false in answers then Some(false) else if answers == [] then None else Some(true)
  }

  function Answers(s: seq<Setting>): seq<bool> {
    seq(|s|, i requires 0 <= i < |s| => s[i].granted)
  }

  predicate IsLastFor(s: seq<Setting>, region: Option<string>, i: int) {
    0 <= i < |s| && s[i].region == region && forall j :: i < j < |s| ==> s[j].region != region
  }

  /** The last setting naming `region` is the one after which no other does. */
  lemma {:induction false} LastForIsLast(s: seq<Setting>, region: Option<string>)
    ensures LastFor(s, region).None? <==> forall x <- s :: x.region != region
    ensures forall i :: IsLastFor(s, region, i) ==> LastFor(s, region) == Some(s[i].granted)
    decreases s
  {
    if s == [] {
    } else {
      var n := |s| - 1;
      LastForIsLast(s[..n], region);
      assert s == s[..n] + [s[n]];
      forall i | IsLastFor(s, region, i) && i < n
        ensures IsLastFor(s[..n], region, i) && s[n].region != region
      {
      }
    }
  }

  // ---------------------------------------------------------------- known country

  /** Stored region and value for a known place, from all settings so far. */
  ghost predicate Regional(region: Option<string>, value: Option<bool>, s: seq<Setting>, place: Place) {
    && value == MostSpecific(s, place)
    && region == (if LastFor(s, Some(place.subdivision)).Some? then Some(place.subdivision)
                  else if LastFor(s, Some(place.country)).Some? then Some(place.country)
                  else None)
  }

  lemma RegionalStep(region: Option<string>, value: Option<bool>, s: seq<Setting>, x: Setting, place: Place)
    requires Regional(region, value, s, place) && place.country != ""
    ensures if Replaces(x.region, region, place) then Regional(x.region, Some(x.granted), s + [x], place)
            else Regional(region, value, s + [x], place)
  {
    assert (s + [x])[..|s + [x]| - 1] == s;
  }

  // ---------------------------------------------------------------- unknown country

  lemma StickyStep(answers: seq<bool>, x: bool)
    ensures Sticky(answers + [x]) == if Sticky(answers) == Some(false) then Some(false) else Some(x)
  {
    assert (answers + [x])[|answers|] == x;
    if false in answers {
      var i :| 0 <= i < |answers| && !answers[i];
      assert (answers + [x])[i] == false;
    }
  }

  lemma AnswersAppend(s: seq<Setting>, x: Setting)
    ensures Answers(s + [x]) == Answers(s) + [x.granted]
  {
  }

  // ---------------------------------------------------------------- every run

  /** Stored region and value after settings, wherever the page is read. */
  ghost predicate Settled(region: Option<string>, value: Option<bool>, s: seq<Setting>, place: Place) {
    if place.country != "" then Regional(region, value, s, place) else value == Sticky(Answers(s))
  }

  lemma SettledStep(region: Option<string>, value: Option<bool>, s: seq<Setting>, x: Setting, place: Place)
    requires Settled(region, value, s, place)
    ensures if Replaces(x.region, region, place) && (place.country != "" || value != Some(false))
            then Settled(x.region, Some(x.granted), s + [x], place)
            else Settled(region, value, s + [x], place)
  {
    if place.country != "" {
      RegionalStep(region, value, s, x, place);
    } else {
      AnswersAppend(s, x);
      StickyStep(Answers(s), x.granted);
    }
  }

  ghost predicate Says(n: Entry, cs: seq<Command>, kind: string, place: Place) {
    && Settled(n.region, n.byDefault, Defaults(cs, kind), place)
    && Settled(n.declareRegion, n.declared, Declarations(cs, kind), place)
    && n.updated == (var u := Updates(cs, kind); if u == [] then None else Some(u[|u| - 1]))
    && n.implied == Sticky(Implicits(cs, kind))
  }

  lemma {:induction false} RunSays(cs: seq<Command>, place: Place, kind: string)
    ensures Says(Stored(Run(cs, place), kind), cs, kind, place)
    decreases cs
  {
    if cs == [] {
    } else {
      var before, c := cs[..|cs| - 1], cs[|cs| - 1];
      RunSays(before, place, kind);
      var n := Stored(Run(before, place), kind);
      StepSays(n, before, c, place, kind);
      assert before + [c] == cs;
      hide Says, EntryStep;
      StepStores(Run(before, place), c, place, kind);
    }
  }

  lemma StepStores(entries: map<string, Entry>, c: Command, place: Place, kind: string)
    ensures var n := Stored(entries, kind);
            Stored(Step(entries, c, place), kind) == if c.kind == kind then EntryStep(n, c, place) else n
  {
    hide EntryStep;
  }

  /** What one more command adds. */
  lemma OneMore(cs: seq<Command>, c: Command, kind: string)
    ensures var before := Defaults(cs, kind);
            Defaults(cs + [c], kind)
            == if c.Default? && c.kind == kind && c.value.Some?
               then before + [Setting(Named(c.region), Granted(c.value))] else before
    ensures var before := Declarations(cs, kind);
            Declarations(cs + [c], kind)
            == if c.Declare? && c.kind == kind then before + [Setting(Named(c.region), Granted(c.value))] else before
    ensures var x, before := Granted(c.value), Updates(cs, kind);
            Updates(cs + [c], kind) == if c.Update? && c.kind == kind && c.value.Some? then before + [x] else before
    ensures var x, before := Granted(c.value), Implicits(cs, kind);
            Implicits(cs + [c], kind) == if c.Implicit? && c.kind == kind then before + [x] else before
  {
    hide Named, Granted;
    assert (cs + [c])[..|cs + [c]| - 1] == cs;
  }

  lemma StepSays(n: Entry, cs: seq<Command>, c: Command, place: Place, kind: string)
    requires Says(n, cs, kind, place)
    ensures Says(if c.kind == kind then EntryStep(n, c, place) else n, cs + [c], kind, place)
  {
    hide Settled, Replaces, Named, Granted, Sticky, Defaults, Declarations, Updates, Implicits;
    OneMore(cs, c, kind);
    if c.kind == kind {
      match c
      case Default(_, value, region) =>
        SettledStep(n.region, n.byDefault, Defaults(cs, kind), Setting(Named(region), Granted(value)), place);
      case Declare(_, value, region) =>
        SettledStep(n.declareRegion, n.declared, Declarations(cs, kind), Setting(Named(region), Granted(value)), place);
      case Update(_, value) =>
      case Implicit(_, value) =>
        StickyStep(Implicits(cs, kind), Granted(value));
    }
  }

  // ---------------------------------------------------------------- the state that is read

  datatype Consent = Unset | Given | Refused | Implied | NotImplied

  function Explicit(b: bool): Consent {
    if b then Given else Refused
  }

  /** What a reader sees: an update before the default before the declaration before the implicit answer. */
  function StateOf(n: Entry): Consent {
    if n.updated.Some? then Explicit(n.updated.value)
    else if n.byDefault.Some? then Explicit(n.byDefault.value)
    else if n.declared.Some? then Explicit(n.declared.value)
    else if n.implied.Some? then (if n.implied.value then Implied else NotImplied)
    else Unset
  }

  // ---------------------------------------------------------------- main results

  /**
   * In a known country, after any commands for any consent types in any order, the stored default is
   * that of the last command naming the subdivision, else the last naming the country, else the last
   * without a region; and so is the stored declaration.
   */
  lemma LastMostSpecificWins(cs: seq<Command>, place: Place, kind: string)
    requires place.country != ""
    ensures var n := Stored(Run(cs, place), kind);
            && n.byDefault == MostSpecific(Defaults(cs, kind), place)
            && n.declared == MostSpecific(Declarations(cs, kind), place)
  {
    RunSays(cs, place, kind);
  }

  /** In an unknown country every region's command is taken, and the first denial is final. */
  lemma UnknownCountryKeepsDenial(cs: seq<Command>, place: Place, kind: string)
    requires place.country == ""
    ensures var n := Stored(Run(cs, place), kind);
            && (n.byDefault == Some(false) <==> exists x <- Defaults(cs, kind) :: !x.granted)
            && (n.byDefault == Some(true) <==> Defaults(cs, kind) != [] && forall x <- Defaults(cs, kind) :: x.granted)
  {
    RunSays(cs, place, kind);
    var s := Defaults(cs, kind);
    var a := Answers(s);
    if false in a {
      var i :| 0 <= i < |a| && !a[i];
      assert s[i] in s && !s[i].granted;
    }
    if x :| x in s && !x.granted {
      var i :| 0 <= i < |s| && s[i] == x;
      assert !a[i];
    }
  }

  /** What is read after a run, in a known country. */
  lemma StateOfRun(cs: seq<Command>, place: Place, kind: string)
    requires place.country != ""
    ensures var update := Updates(cs, kind);
            var byDefault := MostSpecific(Defaults(cs, kind), place);
            var declared := MostSpecific(Declarations(cs, kind), place);
            var implicit := Implicits(cs, kind);
            StateOf(Stored(Run(cs, place), kind))
            == if update != [] then Explicit(update[|update| - 1])
               else if byDefault.Some? then Explicit(byDefault.value)
               else if declared.Some? then Explicit(declared.value)
               else if implicit == [] then Unset
               else if false in implicit then NotImplied else Implied
  {
    RunSays(cs, place, kind);
  }

  lemma {:induction false} DefaultsSplit(a: seq<Command>, b: seq<Command>, kind: string)
    ensures Defaults(a + b, kind) == Defaults(a, kind) + Defaults(b, kind)
    decreases b
  {
    if b == [] {
      assert a + b == a;
    } else {
      var c := b[|b| - 1];
      assert (a + b)[..|a + b| - 1] == a + b[..|b| - 1] && (a + b)[|a + b| - 1] == c;
      DefaultsSplit(a, b[..|b| - 1], kind);
    }
  }

  lemma {:induction false} LastForSkips(s: seq<Setting>, x: Setting, t: seq<Setting>, region: Option<string>)
    requires x.region != region
    ensures LastFor(s + [x] + t, region) == LastFor(s + t, region)
    decreases t
  {
    if t == [] {
      assert s + t == s && (s + [x] + t)[..|s|] == s;
    } else {
      var u := t[..|t| - 1];
      assert (s + t)[..|s + t| - 1] == s + u && (s + [x] + t)[..|s + [x] + t| - 1] == s + [x] + u;
      LastForSkips(s, x, u, region);
    }
  }

  /** Wherever it stands, a default that names another region does not show. */
  lemma OtherRegionHasNoEffect(before: seq<Command>, c: Command, after: seq<Command>, place: Place, kind: string)
    requires place.country != "" && c.Default?
    requires var q := Named(c.region);
             q.Some? && q.value != place.country && q.value != place.subdivision
    ensures Stored(Run(before + [c] + after, place), kind).byDefault
            == Stored(Run(before + after, place), kind).byDefault
  {
    LastMostSpecificWins(before + [c] + after, place, kind);
    LastMostSpecificWins(before + after, place, kind);
    DefaultsSplit(before + [c], after, kind);
    DefaultsSplit(before, [c], kind);
    DefaultsSplit(before, after, kind);
    var s, t := Defaults(before, kind), Defaults(after, kind);
    if c.kind == kind && c.value.Some? {
      var x := Setting(Named(c.region), Granted(c.value));
      assert [c][..0] == [] && Defaults([c], kind) == [x];
      LastForSkips(s, x, t, Some(place.subdivision));
      LastForSkips(s, x, t, Some(place.country));
      LastForSkips(s, x, t, None);
    } else {
      assert [c][..0] == [] && Defaults([c], kind) == [];
      assert s + [] + t == s + t;
    }
  }

  // ---------------------------------------------------------------- what the words say

  /** The same character, or a small letter and its capital. */
  predicate SameLetter(c: char, capital: char) {
    c == capital || ('A' <= capital <= 'Z' && c as int == capital as int + 32)
  }

  /** The region names the place, which is in capitals, in letters of any case. */
  predicate Names(region: string, place: string) {
    |region| == |place| > 0 && forall i :: 0 <= i < |region| ==> SameLetter(region[i], place[i])
  }

  predicate InCapitals(place: string) {
    forall i :: 0 <= i < |place| ==> !('a' <= place[i] <= 'z')
  }

  lemma NamesIff(region: string, place: string)
    requires InCapitals(place) && place != ""
    ensures Names(region, place) <==> Named(Some(region)) == Some(place)
  {
    if Names(region, place) {
      forall i | 0 <= i < |region|
        ensures Upper(region)[i] == place[i]
      {
        assert SameLetter(region[i], place[i]);
        CapitalOf(region[i], place[i]);
      }
      assert Upper(region) == place;
    }
    if Named(Some(region)) == Some(place) {
      forall i | 0 <= i < |region|
        ensures SameLetter(region[i], place[i])
      {
        assert place[i] == Upper(region)[i];
        CapitalOf(region[i], place[i]);
      }
    }
  }

  lemma CapitalOf(c: char, capital: char)
    requires !('a' <= capital <= 'z')
    ensures SameLetter(c, capital) <==> capital == if 'a' <= c <= 'z' then c - 'a' + 'A' else c
  {
  }

  /** After a run, one more command: what it changes, for every place. */
  lemma OneCommandMore(cs: seq<Command>, c: Command, place: Place, kind: string)
    ensures var n, m := Stored(Run(cs, place), kind), Stored(Run(cs + [c], place), kind);
            && (c.kind != kind ==> m == n)
            && (c.kind == kind && c.Update? ==>
                  StateOf(m)
                  == if c.value.None? then StateOf(n) else if c.value.value == "granted" then Given else Refused)
            && (c.kind == kind && c.Default? && c.value.None? ==> m == n)
            && (c.kind == kind && c.Implicit? && n == NOTHING ==>
                  StateOf(m) == if c.value == Some("granted") then Implied else NotImplied)
  {
    assert (cs + [c])[..|cs + [c]| - 1] == cs;
    StepStores(Run(cs, place), c, place, kind);
  }

  /**
   * In a known place, a default or declaration whose region names the subdivision takes effect at once,
   * in letters of any case; a region that is empty is none; and only the word granted grants.
   */
  lemma OwnRegionTakesEffect(cs: seq<Command>, kind: string, value: string, region: string, place: Place)
    requires place.country != "" && InCapitals(place.subdivision) && Names(region, place.subdivision)
    ensures Stored(Run(cs + [Default(kind, Some(value), Some(region))], place), kind).byDefault
         == Some(value == "granted")
    ensures Stored(Run(cs + [Declare(kind, Some(value), Some(region))], place), kind).declared
         == Some(value == "granted")
    ensures Stored(Run(cs + [Declare(kind, None, Some(region))], place), kind).declared == Some(false)
  {
    NamesIff(region, place.subdivision);
    var a, b := Default(kind, Some(value), Some(region)), Declare(kind, Some(value), Some(region));
    var c := Declare(kind, None, Some(region));
    assert (cs + [a])[..|cs|] == cs && (cs + [b])[..|cs|] == cs && (cs + [c])[..|cs|] == cs;
    StepStores(Run(cs, place), a, place, kind);
    StepStores(Run(cs, place), b, place, kind);
    StepStores(Run(cs, place), c, place, kind);
    hide Run, Upper;
  }

  lemma EmptyRegionIsNone(cs: seq<Command>, kind: string, value: Option<string>, place: Place)
    ensures Run(cs + [Default(kind, value, Some(""))], place) == Run(cs + [Default(kind, value, None)], place)
    ensures Run(cs + [Declare(kind, value, Some(""))], place) == Run(cs + [Declare(kind, value, None)], place)
  {
    assert (cs + [Default(kind, value, Some(""))])[..|cs|] == cs && (cs + [Default(kind, value, None)])[..|cs|] == cs;
    assert (cs + [Declare(kind, value, Some(""))])[..|cs|] == cs && (cs + [Declare(kind, value, None)])[..|cs|] == cs;
  }

  // ---------------------------------------------------------------- the object

  class Registry {
    var entries: map<string, Entry>

    constructor ()
      ensures entries == Run([], Place("", ""))
    {
      entries := map[];
    }

    method Default(kind: string, value: Option<string>, region: Option<string>, country: string, subdivision: string)
      modifies this
      ensures entries == Step(old(entries), Command.Default(kind, value, region),
                              Place(Upper(country), Upper(subdivision)))
    {
      if value.Some? {
        var n := if kind in entries then entries[kind] else NOTHING;
        var p := n.region;
        var q := if region.Some? && region.value != "" then Some(Upper(region.value)) else None;
        var e, f := Upper(country), Upper(subdivision);
        if e == "" || q == Some(f) || (if q == Some(e) then p != Some(f) else q == None && p == None) {
          var u := Entry(q, Some(value == Some("granted")), n.declareRegion, n.declared, n.updated, n.implied);
          if e != "" || n.byDefault != Some(false) {
            entries := entries[kind := u];
          }
        }
      }
      assert entries == Step(old(entries), Command.Default(kind, value, region),
                             Place(Upper(country), Upper(subdivision)));
    }

    method Declare(kind: string, value: Option<string>, region: Option<string>, country: string, subdivision: string)
      modifies this
      ensures entries == Step(old(entries), Command.Declare(kind, value, region),
                              Place(Upper(country), Upper(subdivision)))
    {
      var h := if kind in entries then entries[kind] else NOTHING;
      var l := h.declareRegion;
      var m := if region.Some? && region.value != "" then Some(Upper(region.value)) else None;
      var d, e := Upper(country), Upper(subdivision);
      if d == "" || m == Some(e) || (if m == Some(d) then l != Some(e) else m == None && l == None) {
        var n := Entry(h.region, h.byDefault, m, Some(value == Some("granted")), h.updated, h.implied);
        if d != "" || h.declared != Some(false) {
          entries := entries[kind := n];
        }
      }
      assert entries == Step(old(entries), Command.Declare(kind, value, region),
                             Place(Upper(country), Upper(subdivision)));
    }

    method Update(kind: string, value: Option<string>)
      modifies this
      ensures forall place :: entries == Step(old(entries), Command.Update(kind, value), place)
    {
      if value.Some? {
        var n := if kind in entries then entries[kind] else NOTHING;
        entries := entries[kind := n.(updated := Some(value == Some("granted")))];
      }
      assert forall place :: entries == Step(old(entries), Command.Update(kind, value), place);
    }

    method Implicit(kind: string, value: Option<string>)
      modifies this
      ensures forall place :: entries == Step(old(entries), Command.Implicit(kind, value), place)
    {
      var d := if kind in entries then entries[kind] else NOTHING;
      if d.implied != Some(false) {
        d := d.(implied := Some(value == Some("granted")));
      }
      entries := entries[kind := d];
      assert forall place :: entries == Step(old(entries), Command.Implicit(kind, value), place);
    }
  }
}
