/** The delta instruction format: size varints, sparse little-endian fields, copies and inserts. */
module DeltaFormat {
  import opened Common

  datatype DeltaStatus = OK | NODATA | NOROOM | BADFMT | FAIL

  // ---------- size varints ----------

  const U64 := 0x1_0000_0000_0000_0000

  function Pow2(n: nat): (p: nat)
    ensures p > 0
  {
    if n == 0 then 1 else 2 * Pow2(n - 1)
  }

  /** A drained value and what is left of the stream. */
  datatype Drained = Drained(st: DeltaStatus, val: nat, rest: seq<Byte>)

  /** Seven bits a byte, low first; bits shifted past 64 are lost. */
  function DrainSize(from: seq<Byte>, shift: nat, val: nat): Drained {
    if from == [] then Drained(NODATA, 0, [])
    else if shift >= 64 then Drained(BADFMT, 0, [])
    else
      var v := val + (from[0] % 128) * Pow2(shift) % U64;
      if from[0] < 128 then Drained(OK, v, from[1..]) else DrainSize(from[1..], shift + 7, v)
  }

  /** The loop that drains a size. */
  method DrainSizeLoop(from: seq<Byte>) returns (d: Drained)
    ensures d == DrainSize(from, 0, 0)
  {
    var rest, val: nat, shift: nat := from, 0, 0;
    while true
      invariant DrainSize(rest, shift, val) == DrainSize(from, 0, 0)
      decreases |rest|
    {
      if rest == [] {
        return Drained(NODATA, 0, []);
      }
      var c := rest[0];
      if shift >= 64 {
        return Drained(BADFMT, 0, []);
      }
      val := val + (c % 128) * Pow2(shift) % U64;
      rest := rest[1..];
      if c < 128 {
        return Drained(OK, val, rest);
      }
      shift := shift + 7;
    }
  }

  function SizeBytes(n: nat): seq<Byte> {
    if n < 128 then [n] else [n % 128 + 128] + SizeBytes(n / 128)
  }

  /** The loop that feeds a size. */
  method FeedSize(out: seq<Byte>, size: nat) returns (out': seq<Byte>)
    ensures out' == out + SizeBytes(size)
  {
    out' := out;
    var n := size;
    while true
      invariant out' + SizeBytes(n) == out + SizeBytes(size)
      decreases n
    {
      var c := n % 128;
      var m := n / 128;
      FeedStep(out', n);
      if m > 0 {
        out' := out' + [c + 128];
      } else {
        out' := out' + [c];
        break;
      }
      n := m;
    }
  }

  lemma FeedStep(out: seq<Byte>, n: nat)
    ensures n / 128 > 0 ==> out + SizeBytes(n) == out + [n % 128 + 128] + SizeBytes(n / 128)
    ensures n / 128 == 0 ==> out + SizeBytes(n) == out + [n % 128]
  {
  }

  lemma Pow2Of64()
    ensures Pow2(64) == U64 && Pow2(7) == 128
  {
    hide Pow2;
    Pow2Of8();
    Pow2Add(8, 8);
    Pow2Add(16, 16);
    Pow2Add(32, 32);
  }

  lemma Pow2Of8()
    ensures Pow2(8) == 256 && Pow2(7) == 128
  {
    assert Pow2(4) == 16;
    Pow2Add(4, 4);
    Pow2Add(4, 3);
  }

  lemma {:induction false} Pow2Big(n: nat)
    requires n >= 64
    ensures Pow2(n) >= U64
  {
    hide Pow2;
    Pow2Of64();
    Pow2Add(64, n - 64);
    AtLeast(Pow2(n - 64), Pow2(64));
  }

  lemma {:induction false} Pow2Add(a: nat, b: nat)
    ensures Pow2(a + b) == Pow2(a) * Pow2(b)
  {
    if a > 0 {
      Pow2Add(a - 1, b);
      TwiceAbove(Pow2(a - 1), Pow2(b));
    }
  }

  lemma SplitSeven(n: nat, p: nat)
    ensures (n % 128) * p + (n / 128) * (p * 128) == n * p
  {
    assert n == n % 128 + 128 * (n / 128);
    Distribute(n % 128, n / 128, p);
  }

  lemma Distribute(lo: nat, hi: nat, p: nat)
    ensures (lo + 128 * hi) * p == lo * p + hi * (p * 128)
  {
  }

  lemma AtLeast(n: nat, p: nat)
    requires n >= 1
    ensures n * p >= p
  {
  }

  lemma MulMono(a: nat, b: nat, p: nat)
    requires a <= b
    ensures a * p <= b * p
  {
  }

  lemma DrainOne(c: Byte, tail: seq<Byte>, shift: nat, val: nat)
    requires shift < 64 && (c % 128) * Pow2(shift) < U64
    ensures var v := val + (c % 128) * Pow2(shift);
      DrainSize([c] + tail, shift, val) == if c < 128 then Drained(OK, v, tail) else DrainSize(tail, shift + 7, v)
  {
    hide Pow2;
    assert ([c] + tail)[1..] == tail;
    Unfold([c] + tail, shift, val);
  }

  lemma Unfold(from: seq<Byte>, shift: nat, val: nat)
    requires from != [] && shift < 64 && (from[0] % 128) * Pow2(shift) < U64
    ensures var v := val + (from[0] % 128) * Pow2(shift);
      DrainSize(from, shift, val)
      == if from[0] < 128 then Drained(OK, v, from[1..]) else DrainSize(from[1..], shift + 7, v)
  {
    SmallMod((from[0] % 128) * Pow2(shift));
  }

  lemma SmallMod(x: nat)
    requires x < U64
    ensures x % U64 == x
  {
  }

  /** Draining a fed size gives the size back and stops right after it. */
  lemma {:induction false} SizeRoundTrip(n: nat, shift: nat, val: nat, rest: seq<Byte>)
    requires val + n * Pow2(shift) < U64 && (shift == 0 || n > 0)
    ensures DrainSize(SizeBytes(n) + rest, shift, val) == Drained(OK, val + n * Pow2(shift), rest)
    decreases n
  {
    hide Pow2, DrainSize;
    var p := Pow2(shift);
    if shift >= 64 {
      Pow2Big(shift);
      AtLeast(n, p);
    }
    var lo, hi := n % 128, n / 128;
    MulMono(lo, n, p);
    if n < 128 {
      DrainOne(n, rest, shift, val);
    } else {
      SplitSeven(n, p);
      Pow2Of64();
      Pow2Add(shift, 7);
      assert (lo + 128) % 128 == lo;
      assert SizeBytes(n) + rest == [lo + 128] + (SizeBytes(hi) + rest);
      DrainOne(lo + 128, SizeBytes(hi) + rest, shift, val);
      SizeRoundTrip(hi, shift + 7, val + lo * p, rest);
    }
  }

  lemma SizeReads(n: nat, rest: seq<Byte>)
    requires n < U64
    ensures DrainSize(SizeBytes(n) + rest, 0, 0) == Drained(OK, n, rest)
  {
    hide DrainSize, SizeBytes;
    SizeRoundTrip(n, 0, 0, rest);
    assert Pow2(0) == 1;
  }

  // ---------- sparse little-endian fields ----------

  function Pow256(n: nat): nat {
    if n == 0 then 1 else 256 * Pow256(n - 1)
  }

  /** The non-zero bytes of the low `n`, low first. */
  function Spread(v: nat, n: nat): seq<Byte> {
    if n == 0 then []
    else (if v % 256 != 0 then [v % 256] else []) + Spread(v / 256, n - 1)
  }

  /** Which of the `n` bytes are present, as bits. */
  function Flags(v: nat, n: nat): nat {
    if n == 0 then 0 else (if v % 256 != 0 then 1 else 0) + 2 * Flags(v / 256, n - 1)
  }

  /** Reads the bytes the low `n` bits of `cmd` announce. */
  function Gather(cmd: nat, n: nat, from: seq<Byte>): (r: Drained)
    ensures |r.rest| <= |from|
  {
    if n == 0 then Drained(OK, 0, from)
    else if cmd % 2 == 0 then
      var d := Gather(cmd / 2, n - 1, from);
      d.(val := 256 * d.val)
    else if from == [] then Drained(NODATA, 0, [])
    else
      var d := Gather(cmd / 2, n - 1, from[1..]);
      d.(val := from[0] + 256 * d.val)
  }

  lemma {:induction false} FlagsBound(v: nat, n: nat)
    ensures Flags(v, n) < Pow2(n)
  {
    if n > 0 {
      FlagsBound(v / 256, n - 1);
    }
  }

  /** The low `n` bits of `cmd` announce the non-zero bytes of `v`. */
  ghost predicate Announces(cmd: nat, v: nat, n: nat) {
    n == 0 || (cmd % 2 == (if v % 256 != 0 then 1 else 0) && Announces(cmd / 2, v / 256, n - 1))
  }

  /** Whatever the command bits above them. */
  lemma {:induction false} FlagsAnnounce(v: nat, n: nat, above: nat)
    ensures Announces(Flags(v, n) + Pow2(n) * above, v, n)
    decreases n
  {
    if n > 0 {
      FlagsAnnounce(v / 256, n - 1, above);
      TwiceAbove(Pow2(n - 1), above);
      Halve(if v % 256 != 0 then 1 else 0, Flags(v / 256, n - 1) + Pow2(n - 1) * above);
    }
  }

  /** A spread field is gathered back by any command announcing it. */
  lemma {:induction false} SpreadRoundTrip(cmd: nat, v: nat, n: nat, rest: seq<Byte>)
    requires v < Pow256(n) && Announces(cmd, v, n)
    ensures Gather(cmd, n, Spread(v, n) + rest) == Drained(OK, v, rest)
    decreases n
  {
    if n == 0 {
      assert Spread(v, n) + rest == rest;
    } else {
      var tail := Spread(v / 256, n - 1) + rest;
      SpreadRoundTrip(cmd / 2, v / 256, n - 1, rest);
      if v % 256 != 0 {
        assert Spread(v, n) + rest == [v % 256] + tail;
        assert ([v % 256] + tail)[1..] == tail;
      } else {
        assert Spread(v, n) + rest == tail;
      }
    }
  }

  lemma TwiceAbove(p: nat, above: nat)
    ensures 2 * p * above == 2 * (p * above)
  {
  }

  lemma Halve(bit: nat, half: nat)
    requires bit < 2
    ensures (bit + 2 * half) / 2 == half && (bit + 2 * half) % 2 == bit
  {
  }
}
