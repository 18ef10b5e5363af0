/** Feature flags: recorded by name and number, reported as a web-safe bit string. */
module Features {
  import opened Base64
  import opened Bits

  // ---------------------------------------------------------------- recording

  /** A list whose element `b` has been set; elements in between are unset. */
  function SetAt(flags: seq<bool>, b: nat): (r: seq<bool>)
    ensures |r| == (if b < |flags| then |flags| else b + 1)
    ensures forall i :: 0 <= i < |r| ==> (r[i] <==> i == b || (i < |flags| && flags[i]))
  {
    if b < |flags| then flags[b := true] else flags + seq(b - |flags|, i => false) + [true]
  }

  function Flags(all: map<string, seq<bool>>, a: string): seq<bool> {
    if a in all then all[a] else []
  }

  function RecordStep(all: map<string, seq<bool>>, a: string, b: nat): map<string, seq<bool>> {
    all[a := SetAt(Flags(all, a), b)]
  }

  function RecordAll(calls: seq<(string, nat)>): map<string, seq<bool>>
    decreases calls
  {
    if calls == [] then map[]
    else RecordStep(RecordAll(calls[..|calls| - 1]), calls[|calls| - 1].0, calls[|calls| - 1].1)
  }

  // ---------------------------------------------------------------- packing

  /** The number whose bits these are, lowest first. */
  function Little(bits: seq<bool>): nat {
    if bits == [] then 0 else (if bits[0] then 1 else 0) + 2 * Little(bits[1..])
  }

  /** Bytes of eight flags; a last byte of zero is not written. */
  function Packed(flags: seq<bool>): seq<Byte>
    decreases |flags|
  {
    ByteFits(flags);
    if |flags| <= 8 then (if Little(flags) > 0 then [Little(flags)] else [])
    else [Little(flags[..8])] + Packed(flags[8..])
  }

  lemma ByteFits(flags: seq<bool>)
    ensures |flags| <= 8 ==> Little(flags) < 256
    ensures |flags| > 8 ==> Little(flags[..8]) < 256
  {
    WordSize();
    if |flags| > 8 {
      LittleIsSmall(flags[..8]);
    } else {
      LittleIsSmall(flags);
      PowerGrows(|flags|, 8);
    }
  }

  /** Bit `i` of a number. */
  predicate Bit(x: nat, i: nat)
    decreases i
  {
    if i == 0 then x % 2 == 1 else Bit(x / 2, i - 1)
  }

  /** Bit `i` of a byte string; bits past its end are not set. */
  predicate BitOf(bytes: seq<Word>, i: nat) {
    i / 8 < |bytes| && Bit(bytes[i / 8], i % 8)
  }

  lemma {:induction false} LittleBits(bits: seq<bool>, i: nat)
    ensures Bit(Little(bits), i) <==> i < |bits| && bits[i]
    decreases bits
  {
    if bits == [] {
      ZeroHasNoBits(i);
    } else if i > 0 {
      LittleBits(bits[1..], i - 1);
    }
  }

  lemma {:induction false} ZeroHasNoBits(i: nat)
    ensures !Bit(0, i)
    decreases i
  {
    if i <= 0 {
    } else {
      ZeroHasNoBits(i - 1);
    }
  }

  lemma {:induction false} LittleIsSmall(bits: seq<bool>)
    ensures Little(bits) < Pow2(|bits|)
    decreases bits
  {
    if bits == [] {
    } else {
      LittleIsSmall(bits[1..]);
    }
  }

  lemma {:induction false} LittleAppend(bits: seq<bool>, x: bool)
    ensures Little(bits + [x]) == Little(bits) + (if x then Pow2(|bits|) else 0)
    decreases bits
  {
    if bits == [] {
    } else {
      assert (bits + [x])[1..] == bits[1..] + [x];
      LittleAppend(bits[1..], x);
    }
  }

  lemma {:induction false} PowerGrows(m: nat, n: nat)
    requires m <= n
    ensures Pow2(m) <= Pow2(n)
    decreases n - m
  {
    if m >= n {
    } else {
      PowerGrows(m + 1, n);
    }
  }

  /** Bit `i` of the packed bytes is flag `i`. */
  lemma {:induction false} PackedBits(flags: seq<bool>, i: nat)
    ensures (i / 8 < |Packed(flags)| && Bit(Packed(flags)[i / 8], i % 8)) <==> (i < |flags| && flags[i])
    decreases |flags|
  {
    if |flags| > 8 {
      if i < 8 {
        LittleBits(flags[..8], i);
      } else {
        EightLess(i);
        PackedBits(flags[8..], i - 8);
      }
    } else if i < 8 {
      LittleBits(flags, i);
      ZeroHasNoBits(i);
    }
  }

  lemma EightLess(i: nat)
    requires i >= 8
    ensures (i - 8) / 8 == i / 8 - 1 && (i - 8) % 8 == i % 8
  {
  }

  // ---------------------------------------------------------------- reporting

  function Report(flags: seq<bool>): string {
    TrimDots(Encode(Packed(flags)))
  }

  lemma {:induction false} RecordedFlags(calls: seq<(string, nat)>, a: string, i: nat)
    ensures i < |Flags(RecordAll(calls), a)| && Flags(RecordAll(calls), a)[i] <==> (a, i) in calls
    decreases calls
  {
    if calls == [] {
    } else {
      var before, c := calls[..|calls| - 1], calls[|calls| - 1];
      RecordedFlags(before, a, i);
      assert calls == before + [c];
    }
  }

  /** Decoding a report gives a bit string whose bit `i` is set exactly when feature `i` was recorded. */
  lemma ReportShowsRecorded(calls: seq<(string, nat)>, a: string)
    ensures var r := Decode(Report(Flags(RecordAll(calls), a)));
            r.Ok? && forall i: nat :: BitOf(r.value, i) <==> (a, i) in calls
  {
    var flags := Flags(RecordAll(calls), a);
    var s := Packed(flags);
    RoundTrip(s);
    forall i: nat
      ensures BitOf(s, i) <==> (a, i) in calls
    {
      PackedBits(flags, i);
      RecordedFlags(calls, a, i);
    }
  }

  lemma {:induction false} LastByteIsUsed(flags: seq<bool>)
    requires Packed(flags) != [] && flags[|flags| - 1]
    ensures var n := |Packed(flags)|; 8 * (n - 1) < |flags| <= 8 * n
    decreases |flags|
  {
    if |flags| > 8 {
      var more := flags[8..];
      assert more[|more| - 1] == flags[|flags| - 1];
      if Packed(more) == [] {
        LittleBits(more, |more| - 1);
        ZeroHasNoBits(|more| - 1);
      } else {
        LastByteIsUsed(more);
      }
    }
  }

  lemma {:induction false} LastFlagIsSet(calls: seq<(string, nat)>, a: string)
    ensures var flags := Flags(RecordAll(calls), a); flags != [] ==> flags[|flags| - 1]
    decreases calls
  {
    if calls == [] {
    } else {
      LastFlagIsSet(calls[..|calls| - 1], a);
    }
  }

  /** A report holds no dot, and its last byte shows a feature that was recorded: it is as short as it can be. */
  lemma ReportIsShortest(calls: seq<(string, nat)>, a: string)
    ensures var flags := Flags(RecordAll(calls), a);
            var n := |Packed(flags)|;
            && '.' !in Report(flags)
            && Decode(Report(flags)).Ok? && |Decode(Report(flags)).value| == n
            && (n > 0 ==> exists i: nat :: i / 8 == n - 1 && (a, i) in calls)
  {
    var flags := Flags(RecordAll(calls), a);
    var s := Packed(flags);
    RoundTrip(s);
    TrimmedHasNoDot(s);
    hide Packed, Encode, TrimDots, Decode, RecordAll, Flags;
    if s != [] {
      NothingPacked();
      LastFlagIsSet(calls, a);
      LastByteIsUsed(flags);
      RecordedFlags(calls, a, |flags| - 1);
      InLastByte(|flags|, |s|);
    }
  }

  lemma NothingPacked()
    ensures Packed([]) == []
  {
  }

  lemma InLastByte(flags: nat, bytes: nat)
    requires 0 < flags && 8 * (bytes - 1) < flags <= 8 * bytes
    ensures (flags - 1) / 8 == bytes - 1
  {
  }

  // ---------------------------------------------------------------- the code

  lemma ReportNothing()
    ensures Report([]) == ""
  {
    assert Packed([]) == [] && Symbols([]) == [];
  }

  lemma Begin(b: seq<bool>)
    ensures Little([]) == 0 && b[0..0] == [] && [] + Packed(b[0..]) == Packed(b)
  {
    assert b[0..] == b;
  }

  lemma FullByte(b: seq<bool>, k: nat, c: seq<Byte>, d: Byte)
    requires k + 8 < |b| && d == Little(b[k..k + 8]) && c + Packed(b[k..]) == Packed(b)
    ensures c + [d] + Packed(b[k + 8..]) == Packed(b) && b[k + 8..k + 8] == [] && Little([]) == 0
  {
    PackedStep(b[k..]);
    NoBits();
    hide Packed, Little;
    NextEight(b, k);
    Regroup(c, [d], Packed(b[k + 8..]));
  }

  lemma NextEight(b: seq<bool>, k: nat)
    requires k + 8 < |b|
    ensures b[k..][..8] == b[k..k + 8] && b[k..][8..] == b[k + 8..]
  {
  }

  lemma NoBits()
    ensures Little([]) == 0
  {
  }

  lemma PackedStep(b: seq<bool>)
    requires |b| > 8
    ensures Little(b[..8]) < 256 && Packed(b) == [Little(b[..8])] + Packed(b[8..])
  {
    ByteFits(b);
  }

  lemma LastByte(b: seq<bool>, k: nat, c: seq<Byte>, d: Byte)
    requires k <= |b| <= k + 8 && d == Little(b[k..|b|]) && c + Packed(b[k..]) == Packed(b)
    ensures Packed(b) == if d > 0 then c + [d] else c
  {
    assert b[k..|b|] == b[k..];
  }

  /** Setting the next bit of the byte. */
  lemma NextFlag(b: seq<bool>, k: nat, e: nat, d: Byte)
    requires k % 8 == 0 && k <= e < k + 8 && e < |b| && d == Little(b[k..e])
    ensures Little(b[k..e + 1]) == (if b[e] then Or(d, Shl(1, e % 8)) else d)
    ensures Little(b[k..e + 1]) < 256
  {
    var j := e - k;
    InByte(k, j);
    assert b[k..e + 1] == b[k..e] + [b[e]];
    LittleAppend(b[k..e], b[e]);
    LittleIsSmall(b[k..e]);
    LittleIsSmall(b[k..e + 1]);
    PowerGrows(j + 1, 8);
    WordSize();
    hide Little, Pow2, Or, Shl;
    Join(1, d, j, Pow2(j));
    OrCommutes(d, Shl(1, j));
  }

  lemma InByte(k: nat, j: nat)
    requires k % 8 == 0 && j < 8
    ensures (k + j) % 8 == j
  {
  }

  class Recorder {
    var features: map<string, seq<bool>>

    constructor ()
      ensures features == RecordAll([])
    {
      features := map[];
    }

    method Record(a: string, b: nat)
      modifies this
      ensures features == RecordStep(old(features), a, b)
    {
      if a !in features {
        features := features[a := []];
      }
      features := features[a := SetAt(features[a], b)];
    }

    method PackFlags(b: seq<bool>) returns (c: seq<Byte>)
      requires b != []
      ensures c == Packed(b)
    {
      hide Little, Packed, Pow2, Or, Shl;
      c := [];
      var d: Word, e := 0, 0;
      ghost var k := 0;
      Begin(b);
      while e < |b|
        invariant 0 <= k <= e <= |b| && e - k <= 8 && k == 8 * |c| && (e > 0 ==> e > k)
        invariant d == Little(b[k..e]) < 256
        invariant c + Packed(b[k..]) == Packed(b)
        decreases |b| - e
      {
        if e % 8 == 0 && e > 0 {
          assert e == k + 8;
          FullByte(b, k, c, d);
          c := c + [d];
          d := 0;
          k := e;
        }
        NextFlag(b, k, e, d);
        if b[e] {
          d := Or(d, Shl(1, e % 8));
        }
        e := e + 1;
      }
      LastByte(b, k, c, d);
      if d > 0 {
        c := c + [d];
      }
    }

    method ReportFeatures(a: string, codec: Codec) returns (t: string)
      requires codec.Valid()
      modifies codec
      ensures codec.Valid() && t == Report(Flags(features, a))
    {
      var b := if a in features then features[a] else [];
      if b == [] {
        ReportNothing();
        return "";
      }
      var c := PackFlags(b);
      var e := codec.EncodeBytes(c);
      t := TrimDots(e);
    }
  }
}
