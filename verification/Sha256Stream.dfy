/** The streaming SHA-256 object: a block buffer, the hash registers, and `update`. */
module Sha256Stream {
  import opened Bits
  import opened Prelude
  import opened Sha256

  // ---------------------------------------------------------------- specification

  /** The hash after all full blocks of a message. */
  function Absorb(v: Registers, m: seq<Byte>): Registers
    decreases |m|
  {
    if |m| < 64 then v else Absorb(Compress(v, m[..64]), m[64..])
  }

  /** What the full blocks leave over. */
  function Tail(m: seq<Byte>): (t: seq<Byte>)
    ensures |t| == |m| % 64
    decreases |m|
  {
    if |m| < 64 then m else Tail(m[64..])
  }

  /** What the object holds: hash, buffered bytes, bytes so far. */
  datatype Snapshot = Snapshot(hash: Registers, tail: seq<Byte>, total: nat)

  const START := Snapshot(InitialHash(), [], 0)

  /** An update that is given these bytes. */
  function Feed(s: Snapshot, bytes: seq<Byte>): Snapshot {
    Snapshot(Absorb(s.hash, s.tail + bytes), Tail(s.tail + bytes), s.total + |bytes|)
  }

  function FeedAll(s: Snapshot, chunks: seq<seq<Byte>>): Snapshot
    decreases chunks
  {
    if chunks == [] then s else FeedAll(Feed(s, chunks[0]), chunks[1..])
  }

  function Concat(chunks: seq<seq<Byte>>): seq<Byte>
    decreases chunks
  {
    if chunks == [] then [] else chunks[0] + Concat(chunks[1..])
  }

  // ---------------------------------------------------------------- what is fed

  /** An element of an array given to `update`: a whole number, or anything else. */
  datatype Item = Whole(n: int) | Other

  datatype Input = Text(codes: seq<bv16>) | Items(items: seq<Item>) | Neither

  function LowByte(c: bv16): Byte {
    (c as int) % 256
  }

  predicate IsByte(i: Item) {
    i.Whole? && 0 <= i.n <= 255
  }

  /** A text's characters count modulo 256, and past its end as 0. */
  function TextBytes(codes: seq<bv16>, n: nat): (b: seq<Byte>)
    ensures |b| == n
  {
    seq(n, i requires 0 <= i < n => if i < |codes| then LowByte(codes[i]) else 0)
  }

  /** The elements before the first that is no byte, at most `n`. */
  function ItemBytes(items: seq<Item>, n: nat): (b: seq<Byte>)
    ensures |b| <= n && |b| <= |items|
    ensures forall i :: 0 <= i < |b| ==> items[i] == Whole(b[i])
    ensures |b| < n ==> |b| == |items| || !IsByte(items[|b|])
    decreases n
  {
    if n == 0 || items == [] || !IsByte(items[0]) then [] else [items[0].n] + ItemBytes(items[1..], n - 1)
  }

  lemma TextByteAt(codes: seq<bv16>, n: nat, c: nat)
    requires c < n
    ensures TextBytes(codes, n)[c] == if c < |codes| then LowByte(codes[c]) else 0
  {
  }

  /** A look at the element in place `c`, when all before it are bytes, tells whether it is put in. */
  lemma ItemByteAt(items: seq<Item>, n: nat, c: nat)
    requires c < n && c <= |ItemBytes(items, n)|
    ensures c >= |items| || !IsByte(items[c]) ==> c == |ItemBytes(items, n)|
    ensures c < |items| && IsByte(items[c])
            ==> items[c].Whole? && c < |ItemBytes(items, n)| && ItemBytes(items, n)[c] == items[c].n
  {
    hide ItemBytes;
  }

  /** The bytes an update of length `n` puts in before it ends or gives up. */
  function Bytes(input: Input, n: nat): seq<Byte> {
    match input
    case Text(codes) => TextBytes(codes, n)
    case Items(items) => ItemBytes(items, n)
    case Neither => []
  }

  function Size(input: Input): nat {
    match input
    case Text(codes) => |codes|
    case Items(items) => |items|
    case Neither => 0
  }

  /** The buffer after bytes have been put in from place `d` on, round and round. */
  function Overwrite(block: Block, d: nat, bytes: seq<Byte>): Block
    requires d < 64
    decreases bytes
  {
    if bytes == [] then block
    else
      var n := |bytes| - 1;
      Overwrite(block, d, bytes[..n])[(d + n) % 64 := bytes[n]]
  }

  // ---------------------------------------------------------------- the object's arrays as words

  ghost predicate ConstantsAgree(c: seq<Int32>) {
    |c| == 64 && forall i :: 0 <= i < 64 ==> Unsigned(c[i]) == RoundConstants()[i]
  }

  function ToRegisters(r: seq<Int32>): Registers
    requires |r| == 8
  {
    Registers(Unsigned(r[0]), Unsigned(r[1]), Unsigned(r[2]), Unsigned(r[3]),
              Unsigned(r[4]), Unsigned(r[5]), Unsigned(r[6]), Unsigned(r[7]))
  }

  lemma RegistersWrap(p: Registers, r: seq<Int32>)
    requires |r| == 8
    requires r == [Wrap(p.a), Wrap(p.b), Wrap(p.c), Wrap(p.d), Wrap(p.e), Wrap(p.f), Wrap(p.g), Wrap(p.h)]
    ensures ToRegisters(r) == p
  {
    hide Wrap;
    WrapIsUnsigned(p.a);
    WrapIsUnsigned(p.b);
    WrapIsUnsigned(p.c);
    WrapIsUnsigned(p.d);
    WrapIsUnsigned(p.e);
    WrapIsUnsigned(p.f);
    WrapIsUnsigned(p.g);
    WrapIsUnsigned(p.h);
  }

  /** The first `n` words are those of the block's message schedule. */
  ghost predicate IsSchedule(c: seq<Int32>, b: seq<Byte>, n: nat) {
    |c| == 64 && |b| == 64 && n <= 64 && forall t :: 0 <= t < n ==> Unsigned(c[t]) == Schedule(b, t)
  }

  lemma NoWords(c: seq<Int32>, b: seq<Byte>)
    requires |c| == 64 && |b| == 64
    ensures IsSchedule(c, b, 0)
  {
  }

  lemma FirstWords(before: seq<Int32>, c: seq<Int32>, b: Block, t: nat)
    requires t < 16 && IsSchedule(before, b, t)
    requires c == before[t := JsWord(b[4 * t], b[4 * t + 1], b[4 * t + 2], b[4 * t + 3])]
    ensures IsSchedule(c, b, t + 1)
  {
    hide JsWord, BigEndian;
    WordsAgree(b[4 * t], b[4 * t + 1], b[4 * t + 2], b[4 * t + 3]);
  }

  lemma NextWord(before: seq<Int32>, c: seq<Int32>, b: Block, t: nat)
    requires 16 <= t < 64 && IsSchedule(before, b, t)
    requires c == before[t := JsAdd(JsAdd(before[t - 16], JsSmall0(before[t - 15])),
                                    JsAdd(before[t - 7], JsSmall1(before[t - 2])))]
    ensures IsSchedule(c, b, t + 1)
  {
    hide Add, JsAdd, Unsigned, JsSmall0, JsSmall1, SmallSigma0, SmallSigma1;
    var c16, h, c7, l := before[t - 16], before[t - 15], before[t - 7], before[t - 2];
    SmallAgree(h);
    SmallAgree(l);
    SumWraps(c16, JsSmall0(h));
    SumWraps(c7, JsSmall1(l));
    SumWraps(JsAdd(c16, JsSmall0(h)), JsAdd(c7, JsSmall1(l)));
    AddGroups(Unsigned(c16), Unsigned(JsSmall0(h)), Unsigned(c7), Unsigned(JsSmall1(l)), 0);
  }

  function Words8(m: Int32, n: Int32, p: Int32, q: Int32, r: Int32, u: Int32, v: Int32, t: Int32): Registers {
    Registers(Unsigned(m), Unsigned(n), Unsigned(p), Unsigned(q), Unsigned(r), Unsigned(u), Unsigned(v), Unsigned(t))
  }

  /** One turn of the code's round loop is one round. */
  lemma RoundAgrees(m: Int32, n: Int32, p: Int32, q: Int32, r: Int32, u: Int32, v: Int32, t: Int32, k: Int32, w: Int32)
    ensures var y := JsAdd(JsBig0(m), JsMaj(m, n, p));
            var z := JsAdd(JsAdd(t, JsBig1(r)), JsAdd(JsAdd(JsCh(r, u, v), k), w));
            Words8(JsAdd(z, y), m, n, p, JsAdd(q, z), r, u, v)
            == Round(Words8(m, n, p, q, r, u, v, t), Unsigned(k), Unsigned(w))
  {
    hide Add, JsAdd, Unsigned, JsBig0, JsBig1, JsMaj, JsCh, BigSigma0, BigSigma1, Ch, Maj;
    BigAgree(m);
    BigAgree(r);
    ChoicesAgree(m, n, p);
    ChoicesAgree(r, u, v);
    var y := JsAdd(JsBig0(m), JsMaj(m, n, p));
    var z := JsAdd(JsAdd(t, JsBig1(r)), JsAdd(JsAdd(JsCh(r, u, v), k), w));
    SumWraps(JsBig0(m), JsMaj(m, n, p));
    SumWraps(t, JsBig1(r));
    SumWraps(JsCh(r, u, v), k);
    SumWraps(JsAdd(JsCh(r, u, v), k), w);
    SumWraps(JsAdd(t, JsBig1(r)), JsAdd(JsAdd(JsCh(r, u, v), k), w));
    SumWraps(z, y);
    SumWraps(q, z);
    AddGroups(Unsigned(t), BigSigma1(Unsigned(r)), Ch(Unsigned(r), Unsigned(u), Unsigned(v)), Unsigned(k), Unsigned(w));
  }

  lemma NextRound(h: Registers, b: Block, before: Registers, k: seq<Int32>, c: seq<Int32>, w: nat, after: Registers)
    requires w < 64 && ConstantsAgree(k) && IsSchedule(c, b, 64)
    requires before == Rounds(h, b, w) && after == Round(before, Unsigned(k[w]), Unsigned(c[w]))
    ensures after == Rounds(h, b, w + 1)
  {
    hide Round, Unsigned, RoundConstants, Schedule;
  }

  lemma NoRounds(f: seq<Int32>, b: Block)
    requires |f| == 8
    ensures Words8(f[0], f[1], f[2], f[3], f[4], f[5], f[6], f[7]) == Rounds(ToRegisters(f), b, 0)
  {
  }

  /** Adding the working variables to the registers finishes the step. */
  lemma FinishAgrees(f: seq<Int32>, b: Block, m: Int32, n: Int32, p: Int32, q: Int32, r: Int32, u: Int32, v: Int32,
                     t: Int32)
    requires |f| == 8 && Words8(m, n, p, q, r, u, v, t) == Rounds(ToRegisters(f), b, 64)
    ensures ToRegisters([JsAdd(f[0], m), JsAdd(f[1], n), JsAdd(f[2], p), JsAdd(f[3], q),
                         JsAdd(f[4], r), JsAdd(f[5], u), JsAdd(f[6], v), JsAdd(f[7], t)])
         == Compress(ToRegisters(f), b)
  {
    hide Add, JsAdd, Unsigned, Rounds;
    SumWraps(f[0], m);
    SumWraps(f[1], n);
    SumWraps(f[2], p);
    SumWraps(f[3], q);
    SumWraps(f[4], r);
    SumWraps(f[5], u);
    SumWraps(f[6], v);
    SumWraps(f[7], t);
  }

  // ---------------------------------------------------------------- properties of the specification

  /** Absorbing more goes on from the hash and the tail. */
  lemma {:induction false} AbsorbMore(v: Registers, m: seq<Byte>, more: seq<Byte>)
    ensures Absorb(v, m + more) == Absorb(Absorb(v, m), Tail(m) + more)
    ensures Tail(m + more) == Tail(Tail(m) + more)
    decreases |m|
  {
    hide Compress;
    if |m| < 64 {
    } else {
      assert (m + more)[64..] == m[64..] + more && (m + more)[..64] == m[..64];
      AbsorbMore(Compress(v, m[..64]), m[64..], more);
    }
  }

  /** One more byte either joins the tail or completes the block that is compressed. */
  lemma AbsorbByte(v: Registers, m: seq<Byte>, x: Byte)
    ensures |Tail(m)| < 63 ==> Absorb(v, m + [x]) == Absorb(v, m) && Tail(m + [x]) == Tail(m) + [x]
    ensures |Tail(m)| == 63 ==> Absorb(v, m + [x]) == Compress(Absorb(v, m), Tail(m) + [x]) && Tail(m + [x]) == []
  {
    hide Absorb, Tail, Compress;
    AbsorbMore(v, m, [x]);
    OneMore(Absorb(v, m), Tail(m) + [x]);
  }

  lemma OneMore(v: Registers, t: seq<Byte>)
    requires |t| <= 64
    ensures |t| < 64 ==> Absorb(v, t) == v && Tail(t) == t
    ensures |t| == 64 ==> Absorb(v, t) == Compress(v, t) && Tail(t) == []
  {
    hide Compress;
    if |t| == 64 {
      assert t[..64] == t && t[64..] == [];
    }
  }

  /** The state a message leads to when it is fed in one piece. */
  function After(m: seq<Byte>): Snapshot {
    Snapshot(Absorb(InitialHash(), m), Tail(m), |m|)
  }

  lemma FeedAfter(m: seq<Byte>, more: seq<Byte>)
    ensures Feed(After(m), more) == After(m + more)
  {
    AbsorbMore(InitialHash(), m, more);
  }

  lemma {:induction false} FeedAllAfter(m: seq<Byte>, chunks: seq<seq<Byte>>)
    ensures FeedAll(After(m), chunks) == After(m + Concat(chunks))
    decreases chunks
  {
    hide After, Feed;
    if chunks == [] {
      assert m + Concat(chunks) == m;
    } else {
      FeedAfter(m, chunks[0]);
      FeedAllAfter(m + chunks[0], chunks[1..]);
      assert m + chunks[0] + Concat(chunks[1..]) == m + Concat(chunks);
    }
  }

  /**
   * However a message is split into updates, the hash is the fold of the compression step over the
   * full 64-byte blocks of the whole, the buffer holds its tail, and the count is its length.
   */
  lemma SplitDoesNotMatter(chunks: seq<seq<Byte>>)
    ensures var m := Concat(chunks);
            FeedAll(START, chunks) == Snapshot(Absorb(InitialHash(), m), Tail(m), |m|)
  {
    FeedAllAfter([], chunks);
    assert [] + Concat(chunks) == Concat(chunks);
  }

  /** The blocks are consecutive: block `k` of a message is its bytes from `64 k`. */
  lemma {:induction false} TailIsSuffix(m: seq<Byte>)
    ensures Tail(m) == m[|m| - |m| % 64..]
    decreases |m|
  {
    if |m| < 64 {
    } else {
      TailIsSuffix(m[64..]);
    }
  }

  lemma NextByte(v: Registers, t: seq<Byte>, bytes: seq<Byte>, c: nat)
    requires c < |bytes|
    ensures var m := t + bytes[..c];
            && |Tail(m)| < 64
            && (|Tail(m)| < 63 ==> Absorb(v, t + bytes[..c + 1]) == Absorb(v, m)
                                   && Tail(t + bytes[..c + 1]) == Tail(m) + [bytes[c]])
            && (|Tail(m)| == 63 ==> Absorb(v, t + bytes[..c + 1]) == Compress(Absorb(v, m), Tail(m) + [bytes[c]])
                                    && Tail(t + bytes[..c + 1]) == [])
  {
    hide Absorb, Tail, Compress;
    AbsorbByte(v, t + bytes[..c], bytes[c]);
    assert t + bytes[..c + 1] == t + bytes[..c] + [bytes[c]];
  }

  // ---------------------------------------------------------------- rejected updates

  /** The number of the last of `n` bytes that is put into place `p`, if the first one is. */
  function LastInto(d: nat, n: nat, p: nat): (i: nat)
    requires (p - d) % 64 < n
    ensures i < n
  {
    var r := (p - d) % 64;
    r + 64 * ((n - 1 - r) / 64)
  }

  /** A place holds the last byte put into it. */
  lemma {:induction false} OverwriteAt(block: Block, d: nat, bytes: seq<Byte>, p: nat)
    requires d < 64 && p < 64
    ensures Overwrite(block, d, bytes)[p]
         == if (p - d) % 64 < |bytes| then bytes[LastInto(d, |bytes|, p)] else block[p]
    decreases bytes
  {
    if bytes == [] {
    } else {
      var n := |bytes| - 1;
      OverwriteAt(block, d, bytes[..n], p);
      LastIntoNext(d, n, p);
    }
  }

  lemma OverwriteNext(block: Block, d: nat, bytes: seq<Byte>, c: nat)
    requires d < 64 && c < |bytes|
    ensures Overwrite(block, d, bytes[..c + 1]) == Overwrite(block, d, bytes[..c])[(d + c) % 64 := bytes[c]]
    ensures ((d + c) % 64 + 1) % 64 == (d + c + 1) % 64
  {
    NextPlace(d + c);
    OverwriteLast(block, d, bytes[..c + 1]);
    hide Overwrite;
    assert bytes[..c + 1][..c] == bytes[..c];
  }

  lemma OverwriteLast(block: Block, d: nat, bytes: seq<Byte>)
    requires d < 64 && bytes != []
    ensures var n := |bytes| - 1;
            Overwrite(block, d, bytes) == Overwrite(block, d, bytes[..n])[(d + n) % 64 := bytes[n]]
  {
  }

  lemma NextPlace(n: nat)
    ensures (n % 64 + 1) % 64 == (n + 1) % 64
  {
  }

  lemma LastIntoNext(d: nat, n: nat, p: nat)
    requires d < 64 && p < 64
    ensures (d + n) % 64 == p ==> (p - d) % 64 < n + 1 && LastInto(d, n + 1, p) == n
    ensures (d + n) % 64 != p && (p - d) % 64 < n + 1 ==> (p - d) % 64 < n && LastInto(d, n + 1, p) == LastInto(d, n, p)
  {
    var r := (p - d) % 64;
    assert (d + n) % 64 == p <==> n % 64 == r;
    SameRound(n, r);
  }

  /** Counting one further begins a new round of 64 exactly at the remainder. */
  lemma SameRound(n: nat, r: nat)
    requires r < 64
    ensures n % 64 == r ==> r <= n && r + 64 * ((n - r) / 64) == n
    ensures n % 64 != r && r <= n ==> r < n && (n - r) / 64 == (n - 1 - r) / 64
  {
  }

  /**
   * A rejected update leaves the buffered tail as it was exactly when every byte of the tail that it
   * wrote over was written over with itself.
   */
  lemma TailSurvivesIff(block: Block, d: nat, bytes: seq<Byte>)
    requires d < 64
    ensures Overwrite(block, d, bytes)[..d] == block[..d]
            <==> forall p: nat :: p < d && 64 - d + p < |bytes| ==> bytes[LastInto(d, |bytes|, p)] == block[p]
  {
    var after := Overwrite(block, d, bytes);
    forall p: nat | p < d
      ensures after[p] == if 64 - d + p < |bytes| then bytes[LastInto(d, |bytes|, p)] else block[p]
    {
      PlaceBefore(d, p);
      hide Overwrite, LastInto;
      OverwriteAt(block, d, bytes, p);
    }
    hide Overwrite, LastInto;
    SamePrefix(after, block, d);
  }

  lemma PlaceBefore(d: nat, p: nat)
    requires p < d < 64
    ensures (p - d) % 64 == 64 - d + p
  {
  }

  lemma SamePrefix(a: seq<Byte>, b: seq<Byte>, d: nat)
    requires d <= |a| && d <= |b|
    ensures a[..d] == b[..d] <==> forall p: nat :: p < d ==> a[p] == b[p]
  {
    assert forall p: nat :: p < d ==> a[..d][p] == a[p] && b[..d][p] == b[p];
  }

  /**
   * One byte is held, then an array of sixty-four others and something that is no byte is rejected:
   * another byte is held.
   */
  lemma RejectionReplacesTail(block: Block, x: Byte, y: Byte)
    requires block[0] == x != y
    ensures var items := seq(64, i => Whole(y)) + [Other];
            var bytes := Bytes(Items(items), |items|);
            && bytes == seq(64, i => y) && |bytes| < |items|
            && Overwrite(block, 1, bytes)[..1] == [y] != block[..1]
  {
    var items := seq(64, i => Whole(y)) + [Other];
    var bytes := ItemBytes(items, |items|);
    assert items[64] == Other;
    assert forall i :: 0 <= i < 64 ==> items[i] == Whole(y);
    assert |bytes| == 64;
    OverwriteAt(block, 1, bytes, 0);
    assert Overwrite(block, 1, bytes)[..1] == [y];
  }

  // ---------------------------------------------------------------- the object

  class Hasher {
    const blockBytes: array<Byte>
    var buffered: nat
    var total: nat
    var registers: array<Int32>
    const schedule: array<Int32>
    const constants: array<Int32>

    /** The arrays have their sizes and the constants their values. */
    ghost predicate Shape()
      reads this, blockBytes, registers, schedule, constants
    {
      && blockBytes.Length == 64 && registers.Length == 8 && schedule.Length == 64 && constants.Length == 64
      && registers != schedule && registers != constants && schedule != constants
      && buffered < 64
      && ConstantsAgree(constants[..])
    }

    ghost function Words(): Registers
      reads this, registers
      requires registers.Length == 8
    {
      ToRegisters(registers[..])
    }

    ghost function Held(): Snapshot
      reads this, blockBytes, registers
      requires registers.Length == 8 && blockBytes.Length == 64 && buffered < 64
    {
      Snapshot(Words(), blockBytes[..buffered], total)
    }

    constructor ()
      ensures Shape() && Held() == START
      ensures fresh(blockBytes) && fresh(registers) && fresh(schedule) && fresh(constants)
    {
      blockBytes := new Byte[64](i => 0);
      schedule := new Int32[64](i => 0);
      registers := new Int32[8](i => 0);
      var k := RoundConstants();
      constants := new Int32[64](i requires 0 <= i < 64 => Wrap(k[i]));
      buffered, total := 0, 0;
      new;
      forall i | 0 <= i < 64
        ensures Unsigned(constants[i]) == k[i]
      {
        WrapIsUnsigned(k[i]);
      }
      Reset();
    }

    method Reset()
      requires Shape()
      modifies this`buffered, this`total, this`registers
      ensures Shape() && Held() == START && fresh(registers)
    {
      buffered, total := 0, 0;
      var p := InitialHash();
      hide Wrap, InitialHash, ConstantsAgree;
      registers := new Int32[8] [Wrap(p.a), Wrap(p.b), Wrap(p.c), Wrap(p.d), Wrap(p.e), Wrap(p.f), Wrap(p.g),
                                 Wrap(p.h)];
      RegistersWrap(p, registers[..]);
    }

    /** The first part of the compression step: the message schedule. */
    method Prepare()
      requires Shape()
      modifies schedule
      ensures IsSchedule(schedule[..], blockBytes[..], 64)
    {
      assert blockBytes.Length == 64 && schedule.Length == 64;
      hide *;
      ReadWords();
      var c := schedule;
      var f := 16;
      while f < 64
        invariant 16 <= f <= 64
        invariant IsSchedule(c[..], blockBytes[..], f)
      {
        ghost var before := c[..];
        var h, l := c[f - 15], c[f - 2];
        c[f] := JsAdd(JsAdd(c[f - 16], JsSmall0(h)), JsAdd(c[f - 7], JsSmall1(l)));
        NextWord(before, c[..], blockBytes[..], f);
        f := f + 1;
      }
    }

    method ReadWords()
      requires blockBytes.Length == 64 && schedule.Length == 64
      modifies schedule
      ensures IsSchedule(schedule[..], blockBytes[..], 16)
    {
      hide *;
      var b, c := blockBytes, schedule;
      var d, e := 0, 0;
      NoWords(c[..], b[..]);
      while e < b.Length
        invariant 0 <= d <= 16 && e == 4 * d
        invariant IsSchedule(c[..], b[..], d)
      {
        ghost var before := c[..];
        c[d] := JsWord(b[e], b[e + 1], b[e + 2], b[e + 3]);
        FirstWords(before, c[..], b[..], d);
        d := d + 1;
        e := d * 4;
      }
    }

    /** The compression step on the full buffer: section 6.2.2 of FIPS 180-4. */
    method CompressBlock()
      requires Shape()
      modifies schedule, registers
      ensures Shape() && Words() == Compress(old(Words()), blockBytes[..])
    {
      Prepare();
      assert registers.Length == 8 && blockBytes.Length == 64;
      assert ConstantsAgree(constants[..]);
      hide *;
      var f := registers;
      ghost var b := blockBytes[..];
      var m, n, p, q, r, u, v, t := RoundLoop(f, constants, schedule, b);
      ghost var before := f[..];
      AddTo(f, m, n, p, q, r, u, v, t);
      FinishAgrees(before, b, m, n, p, q, r, u, v, t);
    }

    static method AddTo(f: array<Int32>, m: Int32, n: Int32, p: Int32, q: Int32, r: Int32, u: Int32, v: Int32, t: Int32)
      requires f.Length == 8
      modifies f
      ensures f[..] == old([JsAdd(f[0], m), JsAdd(f[1], n), JsAdd(f[2], p), JsAdd(f[3], q),
                            JsAdd(f[4], r), JsAdd(f[5], u), JsAdd(f[6], v), JsAdd(f[7], t)])
    {
      hide JsAdd;
      f[0] := JsAdd(f[0], m);
      f[1] := JsAdd(f[1], n);
      f[2] := JsAdd(f[2], p);
      f[3] := JsAdd(f[3], q);
      f[4] := JsAdd(f[4], r);
      f[5] := JsAdd(f[5], u);
      f[6] := JsAdd(f[6], v);
      f[7] := JsAdd(f[7], t);
    }

    /** The sixty-four rounds on local variables. */
    static method RoundLoop(f: array<Int32>, k: array<Int32>, c: array<Int32>, ghost b: Block)
      returns (m: Int32, n: Int32, p: Int32, q: Int32, r: Int32, u: Int32, v: Int32, t: Int32)
      requires f.Length == 8 && ConstantsAgree(k[..]) && IsSchedule(c[..], b, 64)
      ensures Words8(m, n, p, q, r, u, v, t) == Rounds(ToRegisters(f[..]), b, 64)
    {
      assert k.Length == 64 && c.Length == 64;
      hide *;
      ghost var h := ToRegisters(f[..]);
      m, n, p, q, r, u, v, t := f[0], f[1], f[2], f[3], f[4], f[5], f[6], f[7];
      NoRounds(f[..], b);
      ghost var now := Words8(m, n, p, q, r, u, v, t);
      var w := 0;
      while w < 64
        invariant 0 <= w <= 64
        invariant now == Words8(m, n, p, q, r, u, v, t) == Rounds(h, b, w)
      {
        RoundAgrees(m, n, p, q, r, u, v, t, k[w], c[w]);
        ghost var before := now;
        var y := JsAdd(JsBig0(m), JsMaj(m, n, p));
        var z := JsAdd(JsAdd(t, JsBig1(r)), JsAdd(JsAdd(JsCh(r, u, v), k[w]), c[w]));
        t := v;
        v := u;
        u := r;
        r := JsAdd(q, z);
        q := p;
        p := n;
        n := m;
        m := JsAdd(z, y);
        now := Words8(m, n, p, q, r, u, v, t);
        NextRound(h, b, before, k[..], c[..], w, now);
        w := w + 1;
      }
    }

    /** Puts one byte into the buffer; a full buffer is compressed. */
    method Put(d: nat, x: Byte) returns (next: nat)
      requires Shape() && d < 64
      modifies blockBytes, schedule, registers
      ensures Shape() && next < 64
      ensures blockBytes[..] == old(blockBytes[..])[d := x]
      ensures if d == 63 then next == 0 && Words() == Compress(old(Words()), old(blockBytes[..d]) + [x])
              else next == d + 1 && blockBytes[..next] == old(blockBytes[..d]) + [x] && Words() == old(Words())
    {
      hide Compress, ConstantsAgree;
      blockBytes[d] := x;
      assert blockBytes[..d + 1] == old(blockBytes[..d]) + [x];
      next := d + 1;
      if next == blockBytes.Length {
        assert blockBytes[..] == blockBytes[..d + 1];
        CompressBlock();
        next := 0;
      }
    }

    /** The buffer and the registers after feeding `bytes` to the tail `t` and the hash `v`. */
    ghost predicate Fed(v: Registers, t: seq<Byte>, bytes: seq<Byte>, d: nat)
      reads this, blockBytes, registers, schedule, constants
    {
      Shape() && d < 64 && blockBytes[..d] == Tail(t + bytes) && Words() == Absorb(v, t + bytes)
    }

    /** Puts the byte that follows the first `c` of `bytes`. */
    method PutNext(d: nat, x: Byte, ghost v: Registers, ghost t: seq<Byte>, ghost block: Block, ghost start: nat,
                   ghost bytes: seq<Byte>, ghost c: nat)
      returns (next: nat)
      requires start < 64 && c < |bytes| && bytes[c] == x
      requires Fed(v, t, bytes[..c], d) && Written(block, start, bytes[..c], d)
      modifies blockBytes, schedule, registers
      ensures Fed(v, t, bytes[..c + 1], next) && Written(block, start, bytes[..c + 1], next)
    {
      hide Absorb, Tail, Compress, ConstantsAgree, ToRegisters, Overwrite;
      NextByte(v, t, bytes, c);
      OverwriteNext(block, start, bytes, c);
      next := Put(d, x);
      assert blockBytes[..next] == blockBytes[..][..next];
    }

    ghost predicate Written(block: Block, start: nat, bytes: seq<Byte>, d: nat)
      requires start < 64
      reads blockBytes
    {
      blockBytes[..] == Overwrite(block, start, bytes) && d == (start + |bytes|) % 64
    }

    lemma FedShape(v: Registers, t: seq<Byte>, bytes: seq<Byte>, d: nat)
      requires Fed(v, t, bytes, d)
      ensures blockBytes.Length == 64 && d < 64
    {
      hide Absorb, Tail, ConstantsAgree, ToRegisters;
    }

    lemma NothingWritten(d: nat)
      requires blockBytes.Length == 64 && d < 64
      ensures Written(blockBytes[..], d, [], d)
    {
      assert Overwrite(blockBytes[..], d, []) == blockBytes[..];
    }

    method FeedText(codes: seq<bv16>, n: nat, ghost v: Registers, ghost t: seq<Byte>) returns (d: nat)
      requires Fed(v, t, [], buffered)
      modifies blockBytes, schedule, registers
      ensures Fed(v, t, TextBytes(codes, n), d)
      ensures Written(old(blockBytes[..]), buffered, TextBytes(codes, n), d)
    {
      hide *;
      FedShape(v, t, [], buffered);
      ghost var bytes, block := TextBytes(codes, n), blockBytes[..];
      assert bytes[..0] == [];
      NothingWritten(buffered);
      var c := 0;
      d := buffered;
      while c < n
        invariant 0 <= c <= n && buffered == old(buffered)
        invariant Fed(v, t, bytes[..c], d) && Written(block, buffered, bytes[..c], d)
      {
        TextByteAt(codes, n, c);
        d := PutNext(d, if c < |codes| then LowByte(codes[c]) else 0, v, t, block, buffered, bytes, c);
        c := c + 1;
      }
      assert bytes[..c] == bytes;
    }

    method FeedItems(items: seq<Item>, n: nat, ghost v: Registers, ghost t: seq<Byte>) returns (d: nat, ok: bool)
      requires Fed(v, t, [], buffered)
      modifies blockBytes, schedule, registers
      ensures Fed(v, t, ItemBytes(items, n), d) && ok == (|ItemBytes(items, n)| == n)
      ensures Written(old(blockBytes[..]), buffered, ItemBytes(items, n), d)
    {
      hide *;
      FedShape(v, t, [], buffered);
      ghost var bytes, block := ItemBytes(items, n), blockBytes[..];
      assert bytes[..0] == [];
      NothingWritten(buffered);
      var c := 0;
      d := buffered;
      while c < n
        invariant 0 <= c <= n && c <= |bytes| && buffered == old(buffered)
        invariant Fed(v, t, bytes[..c], d) && Written(block, buffered, bytes[..c], d)
      {
        ItemByteAt(items, n, c);
        if c >= |items| || !IsByte(items[c]) {
          assert bytes[..c] == bytes;
          return d, false;
        }
        d := PutNext(d, items[c].n, v, t, block, buffered, bytes, c);
        c := c + 1;
      }
      assert bytes[..c] == bytes;
      ok := true;
    }

    method FeedInput(input: Input, n: nat, ghost v: Registers, ghost t: seq<Byte>) returns (d: nat, ok: bool)
      requires Fed(v, t, [], buffered)
      modifies blockBytes, schedule, registers
      ensures Fed(v, t, Bytes(input, n), d) && ok == (!input.Neither? && |Bytes(input, n)| == n)
      ensures Written(old(blockBytes[..]), buffered, Bytes(input, n), d)
    {
      assert blockBytes.Length == 64 && buffered < 64;
      hide Fed, TextBytes, ItemBytes, Written, Overwrite;
      match input
      case Text(codes) =>
        d := FeedText(codes, n, v, t);
        ok := true;
      case Items(items) =>
        d, ok := FeedItems(items, n, v, t);
      case Neither =>
        d, ok := buffered, false;
        NothingWritten(buffered);
    }

    /**
     * Feeds a text or an array of bytes. An element that is no byte ends the call with an error: the
     * buffered count and the total are then those of before, while the blocks that were completed on
     * the way are already in the hash; so the object is unharmed if none was.
     */
    method Update(input: Input, length: Option<nat>) returns (ok: bool)
      requires Shape()
      modifies this`buffered, this`total, blockBytes, schedule, registers
      ensures Shape()
      ensures var n := if length.Some? then length.value else Size(input);
              var bytes := Bytes(input, n);
              && ok == (!input.Neither? && |bytes| == n)
              && (ok ==> Held() == Feed(old(Held()), bytes))
              && (!ok ==> buffered == old(buffered) && total == old(total)
                          && Words() == Absorb(old(Words()), old(blockBytes[..buffered]) + bytes))
              && (!ok && old(buffered) + |bytes| < 64 ==> Held() == old(Held()))
              && blockBytes[..] == Overwrite(old(blockBytes[..]), old(buffered), bytes)
    {
      hide Absorb, Tail, ConstantsAgree, ToRegisters, Bytes, Overwrite, Size;
      var n := if length.Some? then length.value else Size(input);
      ghost var bytes, t, v := Bytes(input, n), blockBytes[..buffered], Words();
      NothingFed();
      var d;
      d, ok := FeedInput(input, n, v, t);
      if ok {
        buffered := d;
        total := total + n;
      } else if |t| + |bytes| < 64 {
        NoBlockFed(v, t, bytes, d);
      }
    }

    lemma NothingFed()
      requires Shape()
      ensures Fed(Words(), blockBytes[..buffered], [], buffered)
    {
      hide Absorb, Tail, ConstantsAgree, ToRegisters;
      var t := blockBytes[..buffered];
      OneMore(Words(), t);
      assert t + [] == t;
    }

    /** As long as no block is complete the hash and the tail are where they were. */
    lemma NoBlockFed(v: Registers, t: seq<Byte>, bytes: seq<Byte>, d: nat)
      requires Fed(v, t, bytes, d) && |t| + |bytes| < 64
      ensures Words() == v && |t| < 64 == blockBytes.Length && blockBytes[..|t|] == t
    {
      hide Absorb, Tail, ConstantsAgree, ToRegisters;
      OneMore(v, t + bytes);
      assert blockBytes[..|t|] == blockBytes[..d][..|t|];
    }
  }

  /**
   * On a fresh object: one byte is fed, and an array of sixty-four others and something that is no byte
   * is rejected. The object now holds another byte than the one that was fed.
   */
  method OneByteThenRejected(x: Byte, y: Byte) returns (h: Hasher)
    requires x != y
    ensures fresh(h) && h.Shape() && h.Held().tail == [y] != Feed(START, [x]).tail
    ensures h.Held().total == Feed(START, [x]).total
  {
    hide Bytes, Absorb, Feed, Overwrite, ToRegisters, ConstantsAgree;
    h := new Hasher();
    OneByteIsHeld(x);
    var first := h.Update(Items([Whole(x)]), None);
    assert first && h.Held() == Feed(START, [x]);
    ghost var block := h.blockBytes[..];
    assert block[..1] == [x] && block[0] == block[..1][0];
    RejectionReplacesTail(block, x, y);
    var second := h.Update(Items(seq(64, i => Whole(y)) + [Other]), None);
  }

  lemma OneByteIsHeld(x: Byte)
    ensures Bytes(Items([Whole(x)]), 1) == [x] && Feed(START, [x]).tail == [x] && Feed(START, [x]).total == 1
  {
    OneMore(InitialHash(), [x]);
    assert [] + [x] == [x];
  }
}
