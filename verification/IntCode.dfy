/** The self-delimiting code for a number and a two-bit tag. */
module IntCode {
  import opened Bits
  import opened Prelude

  type Symbol = x: int | 0 <= x < 64

  type Digit = x: int | 0 <= x < 32

  // ---------------------------------------------------------------- the dictionary

  function Dictionary(): (d: string)
    ensures |d| == 64
  {
    "0123456789" + "abcdefghijklmnopqrstuvwxyz" + "ABCDEFGHIJKLMNOPQRSTUVWXYZ" + "-_"
  }

  function Index(c: char): Option<Symbol> {
    if '0' <= c <= '9' then Some((c - '0') as int)
    else if 'a' <= c <= 'z' then Some((c - 'a') as int + 10)
    else if 'A' <= c <= 'Z' then Some((c - 'A') as int + 36)
    else if c == '-' then Some(62)
    else if c == '_' then Some(63)
    else None
  }

  lemma DictionaryIsIndexed(i: nat)
    requires i < 64
    ensures Index(Dictionary()[i]) == Some(i)
  {
    if i < 10 {
      assert Dictionary()[i] == "0123456789"[i];
    } else if i < 36 {
      LowerIsIndexed(i - 10);
    } else if i < 62 {
      UpperIsIndexed(i - 36);
    }
  }

  lemma LowerIsIndexed(i: nat)
    requires i < 26
    ensures Index(Dictionary()[i + 10]) == Some(i + 10)
  {
    assert Dictionary()[i + 10] == "abcdefghijklmnopqrstuvwxyz"[i];
  }

  lemma UpperIsIndexed(i: nat)
    requires i < 26
    ensures Index(Dictionary()[i + 36]) == Some(i + 36)
  {
    assert Dictionary()[i + 36] == "ABCDEFGHIJKLMNOPQRSTUVWXYZ"[i];
  }

  // ---------------------------------------------------------------- code words

  /** The three leading bits. */
  function Lead(a: nat): (l: nat)
    ensures l <= 7
  {
    if a > 7 then Lead(a / 32) else a
  }

  /** The groups of five bits after them, highest first. */
  function Digits(a: nat): seq<Digit> {
    if a > 7 then Digits(a / 32) + [a % 32] else []
  }

  /** Every digit but the last one carries the flag that more follow. */
  function Flagged(ds: seq<Digit>): (r: seq<Symbol>)
    ensures |r| == |ds|
  {
    if ds == [] then []
    else
      var d: int := ds[0];
      [if |ds| > 1 then d + 32 else d] + Flagged(ds[1..])
  }

  /** A first symbol of leading bits, flag and tag, and the digits. */
  function Word(lead: nat, b: nat, ds: seq<Digit>): seq<Symbol>
    requires lead <= 7 && b < 4
  {
    [4 * lead + (if ds == [] then 0 else 32) + b] + Flagged(ds)
  }

  function Spell(v: seq<Symbol>): (t: string)
    ensures |t| == |v|
  {
    seq(|v|, i requires 0 <= i < |v| => Dictionary()[v[i]])
  }

  function Code(a: nat, b: nat): string
    requires b < 4
  {
    Spell(Word(Lead(a), b, Digits(a)))
  }

  // ---------------------------------------------------------------- reading it back

  datatype Parsed = Parsed(a: nat, b: nat, rest: string)

  function More(a: nat, b: nat, t: string): Option<Parsed>
    decreases t
  {
    if t == "" || Index(t[0]).None? then None
    else
      var w := Index(t[0]).value;
      var next := a * 32 + w % 32;
      if w >= 32 then More(next, b, t[1..]) else Some(Parsed(next, b, t[1..]))
  }

  function Parse(t: string): Option<Parsed> {
    if t == "" || Index(t[0]).None? then None
    else
      var v := Index(t[0]).value;
      if v >= 32 then More(v / 4 % 8, v % 4, t[1..]) else Some(Parsed(v / 4, v % 4, t[1..]))
  }

  /** The number with these digits after `a`. */
  function Value(a: nat, ds: seq<Digit>): nat
    decreases ds
  {
    if ds == [] then a else Value(a * 32 + ds[0], ds[1..])
  }

  lemma {:induction false} ValueAppend(a: nat, ds: seq<Digit>, d: Digit)
    ensures Value(a, ds + [d]) == Value(a, ds) * 32 + d
    decreases ds
  {
    if ds == [] {
    } else {
      assert (ds + [d])[1..] == ds[1..] + [d];
      ValueAppend(a * 32 + ds[0], ds[1..], d);
    }
  }

  lemma {:induction false} DigitsHaveValue(a: nat)
    ensures Value(Lead(a), Digits(a)) == a
    decreases a
  {
    if a <= 7 {
    } else {
      DigitsHaveValue(a / 32);
      ValueAppend(Lead(a / 32), Digits(a / 32), a % 32);
    }
  }

  lemma SpellFirst(v: seq<Symbol>, rest: string)
    requires v != []
    ensures var t := Spell(v) + rest;
            Index(t[0]) == Some(v[0]) && t[1..] == Spell(v[1..]) + rest
  {
    DictionaryIsIndexed(v[0]);
    hide Dictionary, Index;
    assert Spell(v)[1..] == Spell(v[1..]);
  }

  lemma {:induction false} MoreReads(a: nat, b: nat, ds: seq<Digit>, rest: string)
    requires ds != []
    ensures More(a, b, Spell(Flagged(ds)) + rest) == Some(Parsed(Value(a, ds), b, rest))
    decreases ds
  {
    hide Index, Spell;
    var v := Flagged(ds);
    SpellFirst(v, rest);
    assert v[1..] == Flagged(ds[1..]);
    if |ds| > 1 {
      MoreReads(a * 32 + ds[0], b, ds[1..], rest);
    } else {
      assert Spell([]) + rest == rest;
    }
  }

  // ---------------------------------------------------------------- main results

  lemma FirstIsRead(t: string, v: Symbol, rest: string)
    requires t != "" && Index(t[0]) == Some(v) && t[1..] == rest
    ensures v >= 32 ==> Parse(t) == More(v / 4 % 8, v % 4, rest)
    ensures v < 32 ==> Parse(t) == Some(Parsed(v / 4, v % 4, rest))
  {
    hide Index, More;
  }

  /** A first symbol with these leading bits and these digits after it are read back. */
  lemma WordIsRead(lead: nat, b: nat, ds: seq<Digit>, rest: string)
    requires lead <= 7 && b < 4
    ensures Parse(Spell(Word(lead, b, ds)) + rest) == Some(Parsed(Value(lead, ds), b, rest))
  {
    var v := Word(lead, b, ds);
    SpellFirst(v, rest);
    assert v[1..] == Flagged(ds);
    assert v[0] == 4 * lead + (if ds == [] then 0 else 32) + b;
    hide Index, Spell, Flagged, Value, Parse, Word, More;
    var t := Spell(v) + rest;
    FirstIsRead(t, v[0], Spell(Flagged(ds)) + rest);
    LeadParts(lead, b);
    if ds == [] {
      NoDigits();
      NoMore(lead);
      assert "" + rest == rest;
    } else {
      MoreReads(lead, b, ds, rest);
    }
  }

  /** Whatever follows a code word, a reader recovers the number, the tag and what follows. */
  lemma ParseUndoesCode(a: nat, b: nat, rest: string)
    requires b < 4
    ensures Parse(Code(a, b) + rest) == Some(Parsed(a, b, rest))
  {
    DigitsHaveValue(a);
    WordIsRead(Lead(a), b, Digits(a), rest);
  }

  lemma NoMore(a: nat)
    ensures Value(a, []) == a
  {
  }

  lemma LeadParts(lead: nat, b: nat)
    requires lead <= 7 && b < 4
    ensures (4 * lead + b) / 4 == lead && (4 * lead + b) % 4 == b
    ensures (4 * lead + 32 + b) / 4 % 8 == lead && (4 * lead + 32 + b) % 4 == b
  {
  }

  /** No code word begins another one. */
  lemma CodeIsPrefixFree(a: nat, b: nat, c: nat, d: nat)
    requires b < 4 && d < 4 && Code(a, b) <= Code(c, d)
    ensures a == c && b == d
  {
    hide Parse, Code;
    var rest := Code(c, d)[|Code(a, b)|..];
    assert Code(c, d) == Code(a, b) + rest && Code(c, d) == Code(c, d) + "";
    ParseUndoesCode(a, b, rest);
    ParseUndoesCode(c, d, "");
  }

  function CodeAll(pairs: seq<(nat, nat)>): string
    requires forall p <- pairs :: p.1 < 4
  {
    if pairs == [] then "" else Code(pairs[0].0, pairs[0].1) + CodeAll(pairs[1..])
  }

  /** A text of code words can be cut into words in one way only. */
  lemma {:induction false} OneReading(u: seq<(nat, nat)>, v: seq<(nat, nat)>)
    requires (forall p <- u :: p.1 < 4) && (forall p <- v :: p.1 < 4)
    requires CodeAll(u) == CodeAll(v)
    ensures u == v
    decreases u
  {
    hide Code, Parse;
    if u != [] && v != [] {
      ParseUndoesCode(u[0].0, u[0].1, CodeAll(u[1..]));
      ParseUndoesCode(v[0].0, v[0].1, CodeAll(v[1..]));
      OneReading(u[1..], v[1..]);
      assert u == [u[0]] + u[1..] && v == [v[0]] + v[1..];
    } else if u != [] {
      ParseUndoesCode(u[0].0, u[0].1, CodeAll(u[1..]));
      NothingParses();
    } else if v != [] {
      ParseUndoesCode(v[0].0, v[0].1, CodeAll(v[1..]));
      NothingParses();
    }
  }

  lemma NothingParses()
    ensures Parse("") == None
  {
  }

  // ---------------------------------------------------------------- the code

  lemma NoDigits()
    ensures Spell(Flagged([])) == ""
  {
  }

  const NOT_ENCODED := "[object Object]"

  /** The low 32 bits of the number. */
  function Low(number: nat): (l: nat)
    ensures l < TWO32
  {
    number % TWO32
  }

  /** The number whose leading bits and digits are written: from 2^31 on the shift drops the high bits. */
  function LeadOf(number: nat): (l: nat)
    ensures l <= 7
  {
    if number < TWO31 then Lead(number) else Lead(Low(number) / 32)
  }

  function DigitsOf(number: nat): seq<Digit> {
    if number < TWO31 then Digits(number) else Digits(Low(number) / 32) + [Low(number) % 32]
  }

  /** Whether the first shift gives a negative number. */
  predicate TurnsNegative(number: nat) {
    number >= TWO31 && Low(number) >= TWO31
  }

  /** What the code returns. */
  function Encoded(number: nat, b: nat): string
    requires b < 4
  {
    if TurnsNegative(number) then NOT_ENCODED + Spell([Low(number) % 32])
    else Spell(Word(LeadOf(number), b, DigitsOf(number)))
  }

  /** What the code returns can be read back if and only if the number is below 2^31. */
  lemma EncodedIsReadIff(number: nat, b: nat, rest: string)
    requires b < 4
    ensures Parse(Encoded(number, b) + rest) == Some(Parsed(number, b, rest)) <==> number < TWO31
  {
    if number < TWO31 {
      ParseUndoesCode(number, b, rest);
    } else if TurnsNegative(number) {
      var t := Encoded(number, b) + rest;
      assert t[0] == '[' && Index(t[0]) == None;
    } else {
      var low := Low(number);
      WordIsRead(LeadOf(number), b, DigitsOf(number), rest);
      DigitsHaveValue(low / 32);
      ValueAppend(Lead(low / 32), Digits(low / 32), low % 32);
      assert low / 32 * 32 + low % 32 == low;
    }
  }

  // ---------------------------------------------------------------- the loop

  lemma FlagDigit(digit: Digit, done: seq<Digit>)
    ensures [Dictionary()[if done == [] then digit else digit + 32]] + Spell(Flagged(done))
            == Spell(Flagged([digit] + done))
  {
    hide Dictionary;
    assert ([digit] + done)[1..] == done;
  }

  lemma Flag(e: Digit)
    ensures Or(e, 32) == e + 32
  {
    SmallPowers();
    Join(1, e, 5, 32);
    ShiftUp(1, 5, 32);
    OrCommutes(e, 32);
  }

  /** What the variables hold before each turn of the loop. */
  ghost predicate InLoop(number: nat, a: int, done: seq<Digit>) {
    if done == [] then a == number
    else if TurnsNegative(number) then a == (Low(number) - TWO32) / 32 && done == [Low(number) % 32]
    else 0 <= a < TWO31 && Lead(a) == LeadOf(number) && DigitsOf(number) == Digits(a) + done
  }

  lemma TurnBits(a: int)
    requires a > 7
    ensures And(Unsigned(a), 31) == Unsigned(a) % 32 && JsSar(a, 5) == Wrap(a) / 32 && Wrap(a) / 32 < a
  {
    SmallPowers();
    Mask(Unsigned(a), 31, 5, 32);
  }

  lemma SmallTurn(number: nat, a: int, done: seq<Digit>)
    requires InLoop(number, a, done) && 7 < a < TWO31
    ensures InLoop(number, a / 32, [a % 32] + done)
  {
    NothingDone(number, a, done);
    Regroup(Digits(a / 32), a % 32, done);
  }

  lemma LargeTurn(number: nat)
    requires number >= TWO31
    ensures InLoop(number, Wrap(number) / 32, [Unsigned(number) % 32])
  {
  }

  /** One turn takes off the low five bits and shifts. */
  lemma Turn(number: nat, a: int, done: seq<Digit>)
    requires InLoop(number, a, done) && a > 7
    ensures var digit := Unsigned(a) % 32;
            && And(Unsigned(a), 31) == digit && JsSar(a, 5) == Wrap(a) / 32
            && InLoop(number, Wrap(a) / 32, [digit] + done)
            && Wrap(a) / 32 < a
  {
    TurnBits(a);
    if a < TWO31 {
      SmallIsItself(a);
      hide *;
      SmallTurn(number, a, done);
    } else {
      assert a == number && [Unsigned(a) % 32] + done == [Unsigned(a) % 32];
      hide *;
      LargeTurn(number);
    }
  }

  lemma NothingDone(number: nat, a: int, done: seq<Digit>)
    requires InLoop(number, a, done) && 0 <= a < TWO31
    ensures !TurnsNegative(number) && Lead(a) == LeadOf(number) && DigitsOf(number) == Digits(a) + done
  {
    if done == [] {
      assert Digits(a) + [] == Digits(a);
    }
  }

  lemma Regroup(a: seq<Digit>, d: Digit, b: seq<Digit>)
    ensures a + [d] + b == a + ([d] + b)
  {
  }

  // ---------------------------------------------------------------- the first symbol

  lemma SmallIsItself(x: nat)
    requires x < TWO31
    ensures Unsigned(x) == x && Wrap(x) == x
  {
  }

  lemma LeadBits(a: nat, flag: nat, b: nat)
    requires a <= 7 && b < 4 && (flag == 0 || flag == 32)
    ensures Shl(a, 2) == 4 * a && Or(4 * a, 32) == 4 * a + 32 && Or(4 * a + flag, b) == 4 * a + flag + b
  {
    SmallPowers();
    hide Or, Shl, Pow2;
    ShiftUp(a, 2, 4);
    Flag(4 * a);
    ShiftUp(a + flag / 4, 2, 4);
    Join(a + flag / 4, b, 2, 4);
  }

  lemma LeadSymbol(a: nat, flag: nat, b: nat)
    requires a <= 7 && b < 4 && (flag == 0 || flag == 32)
    ensures JsShl(a, 2) == 4 * a && JsOr(4 * a, 32) == 4 * a + 32 && JsOr(4 * a + flag, b) == 4 * a + flag + b
  {
    hide Or, Shl, Unsigned, Wrap;
    LeadBits(a, flag, b);
    SmallIsItself(a);
    SmallIsItself(4 * a);
    SmallIsItself(4 * a + 32);
    SmallIsItself(4 * a + flag);
    SmallIsItself(32);
    SmallIsItself(b);
    SmallIsItself(4 * a + flag + b);
  }

  lemma NegativeSymbol(a: int, b: nat)
    requires -0x400_0000 <= a < 0 && b < 4
    ensures JsOr(JsOr(JsShl(a, 2), 32), b) < 0
  {
    hide Or, JsOr, JsShl, Wrap;
    ShiftStaysNegative(a);
    WrapKeepsSign(JsShl(a, 2));
    OrKeepsSign(JsShl(a, 2), 32);
    WrapKeepsSign(JsOr(JsShl(a, 2), 32));
    OrKeepsSign(JsOr(JsShl(a, 2), 32), b);
  }

  lemma ShiftStaysNegative(a: int)
    requires -0x400_0000 <= a < 0
    ensures JsShl(a, 2) < 0
  {
    SmallPowers();
    assert Unsigned(a) == a + TWO32;
    assert Shl(Unsigned(a), 2) == 4 * a + TWO32;
  }

  lemma WrapKeepsSign(x: Int32)
    ensures x < 0 ==> Wrap(x) < 0
  {
  }

  /** The character for a symbol; anything else becomes an object whose text is no code. */
  function Character(v: int): string {
    if 0 <= v < 64 then [Dictionary()[v]] else NOT_ENCODED
  }

  method Encode(number: nat, b: nat) returns (c: string)
    requires b < 4
    ensures c == Encoded(number, b)
  {
    hide Dictionary, And, Or, JsOr, JsShl, JsSar, Spell, Flagged, InLoop, Encoded, Wrap;
    var a: int := number;
    c := "";
    var d := true;
    ghost var done: seq<Digit> := [];
    NoDigits();
    Start(number);
    while a > 7
      invariant d == (done == []) && c == Spell(Flagged(done)) && InLoop(number, a, done)
      decreases if a < 0 then 0 else a
    {
      Turn(number, a, done);
      ghost var digit := Unsigned(a) % 32;
      FlagDigit(digit, done);
      var e := And(Unsigned(a), 31);
      a := JsSar(a, 5);
      if d {
        d := false;
      } else {
        Flag(e);
        e := Or(e, 32);
      }
      c := Character(e) + c;
      done := [digit] + done;
    }
    End(number, a, done, b);
    a := JsShl(a, 2);
    if !d {
      a := JsOr(a, 32);
    }
    c := Character(JsOr(a, b)) + c;
  }

  lemma Start(number: nat)
    ensures InLoop(number, number, [])
  {
  }

  lemma AtTheEnd(number: nat, a: int, done: seq<Digit>)
    requires InLoop(number, a, done) && a <= 7
    ensures a >= 0 ==> a <= 7 && a == LeadOf(number) && done == DigitsOf(number) && !TurnsNegative(number)
    ensures a < 0 ==> TurnsNegative(number) && -0x400_0000 <= a && done == [Low(number) % 32]
  {
    if a >= 0 {
      NothingDone(number, a, done);
      FewDigits(a);
      assert [] + done == done;
    }
  }

  /** When the loop ends the first symbol completes what is returned. */
  lemma End(number: nat, a: int, done: seq<Digit>, b: nat)
    requires InLoop(number, a, done) && a <= 7 && b < 4
    ensures var first := if done == [] then JsShl(a, 2) else JsOr(JsShl(a, 2), 32);
            Character(JsOr(first, b)) + Spell(Flagged(done)) == Encoded(number, b)
  {
    hide *;
    AtTheEnd(number, a, done);
    if a >= 0 {
      LeadSymbol(a, if done == [] then 0 else 32, b);
      WordSpelled(LeadOf(number), b, done);
      NotNegative(number, b);
    } else {
      NegativeEnd(number, a, b);
    }
  }

  lemma NegativeEnd(number: nat, a: int, b: nat)
    requires TurnsNegative(number) && -0x400_0000 <= a < 0 && b < 4
    ensures Character(JsOr(JsOr(JsShl(a, 2), 32), b)) + Spell(Flagged([Low(number) % 32])) == Encoded(number, b)
  {
    hide JsOr, JsShl, Spell, Flagged;
    NegativeSymbol(a, b);
    OneDigit(Low(number) % 32);
  }

  lemma NotNegative(number: nat, b: nat)
    requires b < 4 && !TurnsNegative(number)
    ensures Encoded(number, b) == Spell(Word(LeadOf(number), b, DigitsOf(number)))
  {
  }

  lemma WordSpelled(lead: nat, b: nat, ds: seq<Digit>)
    requires lead <= 7 && b < 4
    ensures Spell(Word(lead, b, ds)) == Character(4 * lead + (if ds == [] then 0 else 32) + b) + Spell(Flagged(ds))
  {
    hide Dictionary, Flagged;
    assert Word(lead, b, ds)[1..] == Flagged(ds);
  }

  lemma FewDigits(a: nat)
    requires a <= 7
    ensures Lead(a) == a && Digits(a) == []
  {
  }

  lemma OneDigit(digit: Digit)
    ensures Flagged([digit]) == [digit]
  {
  }
}
