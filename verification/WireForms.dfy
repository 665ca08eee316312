/** What the delta and pack formats are byte by byte, said by position and apart from the functions that read them. */
module WireForms {
  import opened Common
  import opened DeltaFormat
  import opened DeltaCodec
  import opened PackFormat

  // ---------- a copy's fields ----------

  /** A field byte that may be left out. */
  function Shown(b: Option<Byte>): seq<Byte> {
    if b.Some? then [b.value] else []
  }

  function Worth(b: Option<Byte>): nat {
    if b.Some? then b.value else 0
  }

  function Flag(b: Option<Byte>): nat {
    if b.Some? then 1 else 0
  }

  /** Four offset bytes, then three size bytes, each there or left out. */
  datatype Fields = Fields(o0: Option<Byte>, o1: Option<Byte>, o2: Option<Byte>, o3: Option<Byte>,
                           s0: Option<Byte>, s1: Option<Byte>, s2: Option<Byte>)

  /** The command byte: the high bit, one bit for each offset byte, low first, one for each size byte. */
  function CmdOf(f: Fields): (c: Byte) {
    0x80 + (Flag(f.o0) + 2 * Flag(f.o1) + 4 * Flag(f.o2) + 8 * Flag(f.o3))
    + 16 * (Flag(f.s0) + 2 * Flag(f.s1) + 4 * Flag(f.s2))
  }

  function OffOf(f: Fields): nat {
    Worth(f.o0) + 0x100 * Worth(f.o1) + 0x1_0000 * Worth(f.o2) + 0x100_0000 * Worth(f.o3)
  }

  /** No size at all means 0x10000. */
  function SizeOf(f: Fields): nat {
    var n := Worth(f.s0) + 0x100 * Worth(f.s1) + 0x1_0000 * Worth(f.s2);
    if n == 0 then 0x1_0000 else n
  }

  function OffBytes(f: Fields): seq<Byte> {
    Shown(f.o0) + (Shown(f.o1) + (Shown(f.o2) + Shown(f.o3)))
  }

  function LenBytes(f: Fields): seq<Byte> {
    Shown(f.s0) + (Shown(f.s1) + Shown(f.s2))
  }

  lemma GatherOne(b: Option<Byte>, half: nat, n: nat, from: seq<Byte>, d: DeltaFormat.Drained)
    requires n > 0 && Gather(half, n - 1, from) == d
    ensures Gather(Flag(b) + 2 * half, n, Shown(b) + from) == d.(val := Worth(b) + 256 * d.val)
  {
    Halve(Flag(b), half);
    if b.Some? {
      assert (Shown(b) + from)[1..] == from;
    } else {
      assert Shown(b) + from == from;
    }
  }

  lemma GatherNone(cmd: nat, from: seq<Byte>)
    ensures Gather(cmd, 0, from) == DeltaFormat.Drained(OK, 0, from)
  {
  }

  lemma GatherOff(f: Fields, above: nat, from: seq<Byte>)
    ensures Gather(Flag(f.o0) + 2 * Flag(f.o1) + 4 * Flag(f.o2) + 8 * Flag(f.o3) + 16 * above, 4, OffBytes(f) + from)
         == DeltaFormat.Drained(OK, OffOf(f), from)
  {
    hide Gather, Flag, Shown, Worth;
    GatherNone(above, from);
    var t3 := Shown(f.o3) + from;
    var t2 := Shown(f.o2) + t3;
    var t1 := Shown(f.o1) + t2;
    GatherOne(f.o3, above, 1, from, DeltaFormat.Drained(OK, 0, from));
    GatherOne(f.o2, Flag(f.o3) + 2 * above, 2, t3, DeltaFormat.Drained(OK, Worth(f.o3), from));
    GatherOne(f.o1, Flag(f.o2) + 2 * (Flag(f.o3) + 2 * above), 3, t2,
              DeltaFormat.Drained(OK, Worth(f.o2) + 256 * Worth(f.o3), from));
    GatherOne(f.o0, Flag(f.o1) + 2 * (Flag(f.o2) + 2 * (Flag(f.o3) + 2 * above)), 4, t1,
              DeltaFormat.Drained(OK, Worth(f.o1) + 256 * (Worth(f.o2) + 256 * Worth(f.o3)), from));
    assert OffBytes(f) + from == Shown(f.o0) + t1;
  }

  lemma GatherLen(f: Fields, above: nat, from: seq<Byte>)
    ensures Gather(Flag(f.s0) + 2 * Flag(f.s1) + 4 * Flag(f.s2) + 8 * above, 3, LenBytes(f) + from)
         == DeltaFormat.Drained(OK, Worth(f.s0) + 0x100 * Worth(f.s1) + 0x1_0000 * Worth(f.s2), from)
  {
    hide Gather, Flag, Shown, Worth;
    GatherNone(above, from);
    var t2 := Shown(f.s2) + from;
    var t1 := Shown(f.s1) + t2;
    GatherOne(f.s2, above, 1, from, DeltaFormat.Drained(OK, 0, from));
    GatherOne(f.s1, Flag(f.s2) + 2 * above, 2, t2, DeltaFormat.Drained(OK, Worth(f.s2), from));
    GatherOne(f.s0, Flag(f.s1) + 2 * (Flag(f.s2) + 2 * above), 3, t1,
              DeltaFormat.Drained(OK, Worth(f.s1) + 256 * Worth(f.s2), from));
    assert LenBytes(f) + from == Shown(f.s0) + t1;
  }

  /** A copy whose fields read so plays so. */
  lemma CopyStep(cmd: Byte, from: seq<Byte>, mid: seq<Byte>, rest: seq<Byte>, off: nat, n: nat, base: seq<Byte>,
          limit: nat, out: seq<Byte>)
    requires cmd >= 0x80 && Gather(cmd, 4, from) == DeltaFormat.Drained(OK, off, mid)
    requires Gather(cmd / 16, 3, mid) == DeltaFormat.Drained(OK, n, rest)
    ensures var sz := if n == 0 then 0x1_0000 else n;
      Play([cmd] + from, base, limit, out)
      == if off + sz > |base| || |out| + sz > limit then Outcome(BADFMT, out)
         else Play(rest, base, limit, out + base[off..off + sz])
  {
    hide Gather;
    PlayFirst(cmd, from, base, limit, out);
  }

  lemma CmdParts(low: nat, high: nat)
    requires low < 16 && high < 8
    ensures var c := 0x80 + low + 16 * high;
      c == low + 16 * (high + 8) && c / 16 == high + 8 * 1
  {
  }

  /** Any copy, whatever of it is left out: offset bytes first, low byte first, then size bytes. */
  lemma CopyWire(f: Fields, rest: seq<Byte>, base: seq<Byte>, limit: nat, out: seq<Byte>)
    ensures var off, sz := OffOf(f), SizeOf(f);
      Play([CmdOf(f)] + (OffBytes(f) + (LenBytes(f) + rest)), base, limit, out)
      == if off + sz > |base| || |out| + sz > limit then Outcome(BADFMT, out)
         else Play(rest, base, limit, out + base[off..off + sz])
  {
    hide Play, Gather, Shown, Worth, OffBytes, LenBytes;
    var low := Flag(f.o0) + 2 * Flag(f.o1) + 4 * Flag(f.o2) + 8 * Flag(f.o3);
    var high := Flag(f.s0) + 2 * Flag(f.s1) + 4 * Flag(f.s2);
    var from := LenBytes(f) + rest;
    var n := Worth(f.s0) + 0x100 * Worth(f.s1) + 0x1_0000 * Worth(f.s2);
    GatherOff(f, high + 8, from);
    GatherLen(f, 1, rest);
    CmdParts(low, high);
    CopyStep(CmdOf(f), OffBytes(f) + from, from, rest, OffOf(f), n, base, limit, out);
  }

  /** All seven bytes there. */
  lemma CopyInFull(o0: Byte, o1: Byte, o2: Byte, o3: Byte, s0: Byte, s1: Byte, s2: Byte, rest: seq<Byte>,
          base: seq<Byte>, limit: nat, out: seq<Byte>)
    requires s0 + 0x100 * s1 + 0x1_0000 * s2 > 0
    ensures var off, sz := o0 + 0x100 * o1 + 0x1_0000 * o2 + 0x100_0000 * o3, s0 + 0x100 * s1 + 0x1_0000 * s2;
      off + sz <= |base| && |out| + sz <= limit ==>
        Play([0xff, o0, o1, o2, o3, s0, s1, s2] + rest, base, limit, out)
        == Play(rest, base, limit, out + base[off..off + sz])
  {
    hide Play;
    var f := Fields(Some(o0), Some(o1), Some(o2), Some(o3), Some(s0), Some(s1), Some(s2));
    CopyWire(f, rest, base, limit, out);
    assert [CmdOf(f)] + (OffBytes(f) + (LenBytes(f) + rest)) == [0xff, o0, o1, o2, o3, s0, s1, s2] + rest;
  }

  /** None of them: the first 0x10000 bytes of the base. */
  lemma CopyBare(rest: seq<Byte>, base: seq<Byte>, limit: nat, out: seq<Byte>)
    ensures |base| >= 0x1_0000 && |out| + 0x1_0000 <= limit ==>
      Play([0x80] + rest, base, limit, out) == Play(rest, base, limit, out + base[..0x1_0000])
  {
    hide Play;
    var f := Fields(None, None, None, None, None, None, None);
    CopyWire(f, rest, base, limit, out);
    assert [CmdOf(f)] + (OffBytes(f) + (LenBytes(f) + rest)) == [0x80] + rest;
    if |base| >= 0x1_0000 {
      assert base[0..0x1_0000] == base[..0x1_0000];
    }
  }

  /** How many field bytes a command byte announces. */
  function Announced(cmd: nat, n: nat): nat {
    if n == 0 then 0 else cmd % 2 + Announced(cmd / 2, n - 1)
  }

  lemma {:induction false} GatherTakes(cmd: nat, n: nat, from: seq<Byte>)
    ensures var d := Gather(cmd, n, from);
      if |from| < Announced(cmd, n) then d.st == NODATA
      else d.st == OK && |d.rest| == |from| - Announced(cmd, n)
    decreases n
  {
    if n > 0 {
      if cmd % 2 == 0 {
        GatherTakes(cmd / 2, n - 1, from);
      } else if from != [] {
        GatherTakes(cmd / 2, n - 1, from[1..]);
      }
    }
  }

  /** A copy cut short. */
  lemma CopyTorn(cmd: Byte, from: seq<Byte>, base: seq<Byte>, limit: nat, out: seq<Byte>)
    requires cmd >= 0x80 && |from| < Announced(cmd, 4) + Announced(cmd / 16, 3)
    ensures Play([cmd] + from, base, limit, out) == Outcome(NODATA, out)
  {
    hide Gather, Announced;
    GatherTakes(cmd, 4, from);
    GatherTakes(cmd / 16, 3, Gather(cmd, 4, from).rest);
    PlayFirst(cmd, from, base, limit, out);
  }

  /** An insert: its command byte is how many bytes follow; a zero command byte is none at all. */
  lemma InsertWire(n: Byte, data: seq<Byte>, rest: seq<Byte>, base: seq<Byte>, limit: nat, out: seq<Byte>)
    requires n < 0x80
    ensures n == 0 ==> Play([n] + rest, base, limit, out) == Outcome(BADFMT, out)
    ensures n > 0 && |rest| < n ==> Play([n] + rest, base, limit, out) == Outcome(BADFMT, out)
    ensures n > 0 && |data| == n ==>
      Play([n] + (data + rest), base, limit, out)
      == if |out| + n > limit then Outcome(BADFMT, out) else Play(rest, base, limit, out + data)
  {
    PlayFirst(n, rest, base, limit, out);
    if n > 0 && |data| == n {
      PlayFirst(n, data + rest, base, limit, out);
      assert (data + rest)[..n] == data && (data + rest)[n..] == rest;
    }
  }

  /** A zero byte of a number is left out. */
  function Sparse(b: Byte): Option<Byte> {
    if b == 0 then None else Some(b)
  }

  /** The copy the encoder writes: no zero byte among its fields, and 0x10000 as no size at all. */
  lemma CopySparse(off: nat, sz: nat)
    requires off < 0x1_0000_0000 && 0 < sz <= COPY_MAX
    ensures var n := if sz == 0x1_0000 then 0 else sz;
      var f := Fields(Sparse(off % 256), Sparse(off / 0x100 % 256), Sparse(off / 0x1_0000 % 256),
                      Sparse(off / 0x100_0000 % 256),
                      Sparse(n % 256), Sparse(n / 0x100 % 256), Sparse(n / 0x1_0000 % 256));
      CopyBytes(off, sz) == [CmdOf(f)] + (OffBytes(f) + LenBytes(f)) && OffOf(f) == off && SizeOf(f) == sz
  {
    hide Spread, Flags;
    var n := SizeField(sz);
    var f := Fields(Sparse(off % 256), Sparse(off / 0x100 % 256), Sparse(off / 0x1_0000 % 256),
                    Sparse(off / 0x100_0000 % 256),
                    Sparse(n % 256), Sparse(n / 0x100 % 256), Sparse(n / 0x1_0000 % 256));
    Quarters(off);
    Quarters(n);
    SpreadFour(off);
    SpreadThree(n);
    CopyCmdByte(off, sz);
  }

  lemma Quarters(v: nat)
    ensures v / 256 / 256 == v / 0x1_0000 && v / 256 / 256 / 256 == v / 0x100_0000
    ensures v / 256 == v / 0x100
    ensures v < 0x1_0000_0000 ==>
      v == v % 256 + 0x100 * (v / 0x100 % 256) + 0x1_0000 * (v / 0x1_0000 % 256) + 0x100_0000 * (v / 0x100_0000 % 256)
  {
  }

  lemma SpreadStep(v: nat, n: nat)
    requires n > 0
    ensures Spread(v, n) == Shown(Sparse(v % 256)) + Spread(v / 256, n - 1)
    ensures Flags(v, n) == Flag(Sparse(v % 256)) + 2 * Flags(v / 256, n - 1)
  {
  }

  lemma SpreadNone(v: nat)
    ensures Spread(v, 0) == [] && Flags(v, 0) == 0
  {
  }

  lemma SpreadFour(v: nat)
    ensures var a, b, c, d := Sparse(v % 256), Sparse(v / 256 % 256), Sparse(v / 256 / 256 % 256),
        Sparse(v / 256 / 256 / 256 % 256);
      && Spread(v, 4) == Shown(a) + (Shown(b) + (Shown(c) + Shown(d)))
      && Flags(v, 4) == Flag(a) + 2 * Flag(b) + 4 * Flag(c) + 8 * Flag(d)
  {
    hide Spread, Flags, Flag, Shown, Sparse;
    var four: nat := 4;
    SpreadStep(v, four);
    SpreadStep(v / 256, four - 1);
    SpreadStep(v / 256 / 256, four - 2);
    SpreadStep(v / 256 / 256 / 256, four - 3);
    SpreadNone(v / 256 / 256 / 256 / 256);
    var d := Shown(Sparse(v / 256 / 256 / 256 % 256));
    assert d + [] == d;
  }

  lemma SpreadThree(v: nat)
    ensures var a, b, c := Sparse(v % 256), Sparse(v / 256 % 256), Sparse(v / 256 / 256 % 256);
      && Spread(v, 3) == Shown(a) + (Shown(b) + Shown(c))
      && Flags(v, 3) == Flag(a) + 2 * Flag(b) + 4 * Flag(c)
  {
    hide Spread, Flags, Flag, Shown, Sparse;
    var three: nat := 3;
    SpreadStep(v, three);
    SpreadStep(v / 256, three - 1);
    SpreadStep(v / 256 / 256, three - 2);
    SpreadNone(v / 256 / 256 / 256);
    var c := Shown(Sparse(v / 256 / 256 % 256));
    assert c + [] == c;
  }

  // ---------- size groups ----------

  /** All but the last byte say that more follow. */
  ghost predicate Chained(bs: seq<Byte>) {
    bs != [] && bs[|bs| - 1] < 128 && forall k | 0 <= k < |bs| - 1 :: bs[k] >= 128
  }

  /** Seven bits a byte, the `k`th byte's shifted by `shift + 7k`; what is shifted past 64 bits is lost. */
  ghost function Groups(bs: seq<Byte>, shift: nat): nat {
    if bs == [] then 0
    else Groups(bs[..|bs| - 1], shift) + (bs[|bs| - 1] % 128) * Pow2(shift + 7 * (|bs| - 1)) % U64
  }

  lemma {:induction false} GroupsFront(bs: seq<Byte>, shift: nat)
    requires bs != []
    ensures Groups(bs, shift) == (bs[0] % 128) * Pow2(shift) % U64 + Groups(bs[1..], shift + 7)
    decreases |bs|
  {
    hide Pow2;
    var n := |bs| - 1;
    if n > 0 {
      GroupsFront(bs[..n], shift);
      assert bs[..n][1..] == bs[1..][..n - 1];
      assert shift + 7 * n == shift + 7 + 7 * (n - 1);
    } else {
      assert bs[..0] == [] && bs[1..] == [];
    }
  }

  /** A size: the groups in order, low first, up to the first byte that ends them. */
  lemma {:induction false} SizeWire(bs: seq<Byte>, rest: seq<Byte>, shift: nat, val: nat)
    requires Chained(bs) && shift + 7 * (|bs| - 1) < 64
    ensures DrainSize(bs + rest, shift, val) == DeltaFormat.Drained(OK, val + Groups(bs, shift), rest)
    decreases |bs|
  {
    hide Pow2, Groups;
    GroupsFront(bs, shift);
    var from, tail := bs + rest, bs[1..];
    assert from[1..] == tail + rest;
    if |bs| == 1 {
      GroupsNone(shift + 7);
      assert tail == [] && tail + rest == rest;
    } else {
      SizeWire(tail, rest, shift + 7, val + (bs[0] % 128) * Pow2(shift) % U64);
    }
  }

  lemma GroupsNone(shift: nat)
    ensures Groups([], shift) == 0
  {
  }

  /** More than ten groups are no size, and neither is a stream that ends among them. */
  lemma {:induction false} SizeEnds(bs: seq<Byte>, shift: nat, val: nat)
    requires forall k | 0 <= k < |bs| :: bs[k] >= 128
    ensures var d := DrainSize(bs, shift, val);
      d.st == if bs != [] && shift + 7 * (|bs| - 1) >= 64 then BADFMT else NODATA
    decreases |bs|
  {
    hide Pow2;
    if bs != [] && shift < 64 {
      SizeEnds(bs[1..], shift + 7, val + (bs[0] % 128) * Pow2(shift) % U64);
    }
  }

  // ---------- a record's header ----------

  lemma {:induction false} GroupsWire(bs: seq<Byte>, rest: seq<Byte>, shift: nat, size: nat)
    requires Chained(bs) && shift + 7 * (|bs| - 1) < 64
    ensures DrainGroups(bs + rest, true, shift, size) == Read(Ok, size + Groups(bs, shift), rest)
    decreases |bs|
  {
    hide Pow2, Groups;
    GroupsFront(bs, shift);
    var from, tail := bs + rest, bs[1..];
    assert from[1..] == tail + rest && from[0] == bs[0];
    if |bs| == 1 {
      GroupsNone(shift + 7);
      assert tail == [] && tail + rest == rest;
    } else {
      GroupsWire(tail, rest, shift + 7, size + (bs[0] % 128) * Pow2(shift) % U64);
    }
  }

  /** The type is bits 6 to 4 of the first byte; the size starts with its low four bits and goes on seven a byte. */
  lemma HeaderWire(c: Byte, bs: seq<Byte>, rest: seq<Byte>)
    requires if c < 128 then bs == [] else Chained(bs) && |bs| <= 9
    ensures DrainVarint([c] + (bs + rest)) == TypeSize(Ok, c / 16 % 8, c % 16 + Groups(bs, 4), rest)
  {
    hide Groups, DrainGroups;
    assert ([c] + (bs + rest))[1..] == bs + rest;
    if c < 128 {
      GroupsNone(4);
      assert bs + rest == rest;
      NoneRead(rest, c % 16);
    } else {
      GroupsWire(bs, rest, 4, c % 16);
    }
  }

  lemma NoneRead(from: seq<Byte>, size: nat)
    ensures DrainGroups(from, false, 4, size) == Read(Ok, size, from)
  {
  }

  /** Groups without an end: too many of them, or torn. */
  lemma {:induction false} GroupsEnd(bs: seq<Byte>, shift: nat, size: nat)
    requires forall k | 0 <= k < |bs| :: bs[k] >= 128
    ensures DrainGroups(bs, true, shift, size).st == if shift + 7 * |bs| >= 64 then BadFormat else NoData
    decreases |bs|
  {
    hide Pow2;
    if bs != [] && shift < 64 {
      GroupsEnd(bs[1..], shift + 7, size + (bs[0] % 128) * Pow2(shift) % U64);
    }
  }

  // ---------- a base offset ----------

  /** Seven bits a byte, high byte first, and one more for every byte but the last: it counts on from where the
    * shorter ones end. */
  ghost function Counted(bs: seq<Byte>): nat {
    if bs == [] then 0
    else (bs[0] % 128 + if |bs| > 1 then 1 else 0) * Pow2(7 * (|bs| - 1)) + Counted(bs[1..])
  }

  lemma {:induction false} CountedLast(bs: seq<Byte>, c: Byte)
    requires bs != []
    ensures Counted(bs + [c]) == (Counted(bs) + 1) * 128 + c % 128
    decreases |bs|
  {
    hide Pow2;
    var all := bs + [c];
    assert all[1..] == bs[1..] + [c];
    var n := |bs| - 1;
    Pow2Of64();
    Pow2Add(7 * n, 7);
    if n == 0 {
      PowNone();
      assert all[1..] == [c] && [c][1..] == [] && bs[1..] == [];
    } else {
      CountedLast(bs[1..], c);
      Regroup(bs[0] % 128 + 1, Pow2(7 * n));
    }
  }

  lemma PowNone()
    ensures Pow2(0) == 1
  {
  }

  lemma Regroup(x: nat, p: nat)
    ensures x * (p * 128) == x * p * 128
  {
  }

  /** Prefixes count for less. */
  lemma {:induction false} OfsGoesOn(head: seq<Byte>, tail: seq<Byte>, rest: seq<Byte>)
    requires head != [] && tail != [] && Chained(head + tail) && Counted(head + tail) < U64
    ensures DrainOfsFrom(tail + rest, true, Counted(head)) == Read(Ok, Counted(head + tail), rest)
    decreases |tail|
  {
    hide Counted, Chained;
    var c, more := tail[0], tail[1..];
    assert (tail + rest)[1..] == more + rest;
    assert head + [c] + more == head + tail;
    CountedLast(head, c);
    CountedGrows(head + [c], more);
    ChainedAt(head, tail);
    if more == [] {
      assert head + [c] == head + tail && more + rest == rest;
    } else {
      OfsGoesOn(head + [c], more, rest);
    }
  }

  lemma ChainedAt(head: seq<Byte>, tail: seq<Byte>)
    requires tail != [] && Chained(head + tail)
    ensures tail[0] >= 128 <==> |tail| > 1
  {
    assert (head + tail)[|head|] == tail[0];
  }

  lemma {:induction false} CountedGrows(head: seq<Byte>, tail: seq<Byte>)
    requires head != []
    ensures Counted(head) <= Counted(head + tail)
    decreases |tail|
  {
    hide Counted;
    if tail == [] {
      assert head + tail == head;
    } else {
      CountedLast(head, tail[0]);
      CountedGrows(head + [tail[0]], tail[1..]);
      assert head + [tail[0]] + tail[1..] == head + tail;
    }
  }

  /** A base offset, by position. */
  lemma OfsWire(bs: seq<Byte>, rest: seq<Byte>)
    requires Chained(bs) && Counted(bs) < U64
    ensures DrainOfs(bs + rest) == Read(Ok, Counted(bs), rest)
  {
    hide Counted, DrainOfsFrom;
    CountedOne(bs[0]);
    var tail := bs[1..];
    assert (bs + rest)[1..] == tail + rest && bs == [bs[0]] + tail;
    assert (bs + rest)[0] == bs[0];
    if tail == [] {
      assert bs == [bs[0]] && tail + rest == rest;
      OfsDone(rest, bs[0] % 128);
    } else {
      OfsGoesOn([bs[0]], tail, rest);
    }
  }

  lemma CountedOne(c: Byte)
    ensures Counted([c]) == c % 128
  {
    PowNone();
    assert [c][1..] == [];
  }

  lemma OfsDone(from: seq<Byte>, ofs: nat)
    ensures DrainOfsFrom(from, false, ofs) == Read(Ok, ofs, from)
  {
  }

  /** A record's whole header: an offset delta's base offset behind the size, a named one's hash, or nothing. */
  lemma ObjHdrWire(c: Byte, bs: seq<Byte>, os: seq<Byte>, ref: seq<Byte>, rest: seq<Byte>)
    requires if c < 128 then bs == [] else Chained(bs) && |bs| <= 9
    requires Chained(os) && Counted(os) < U64 && |ref| == SHA_LEN
    ensures var typ, size := c / 16 % 8, c % 16 + Groups(bs, 4);
      && (typ == 6 ==> DrainObjHdr([c] + (bs + (os + rest))) == Header(Ok, typ, size, Counted(os), [], rest))
      && (typ == 7 ==> DrainObjHdr([c] + (bs + (ref + rest))) == Header(Ok, typ, size, 0, ref, rest))
      && (typ < 6 ==> DrainObjHdr([c] + (bs + rest)) == Header(Ok, typ, size, 0, [], rest))
  {
    hide DrainVarint, DrainOfs, Groups, Counted, Chained;
    HeaderWire(c, bs, os + rest);
    HeaderWire(c, bs, ref + rest);
    HeaderWire(c, bs, rest);
    OfsWire(os, rest);
    assert (ref + rest)[..SHA_LEN] == ref && (ref + rest)[SHA_LEN..] == rest;
  }

  // ---------- whole deltas ----------

  lemma SizeSmall(n: Byte, rest: seq<Byte>)
    requires n < 128
    ensures DrainSize([n] + rest, 0, 0) == DeltaFormat.Drained(OK, n, rest)
  {
    PowNone();
    assert ([n] + rest)[1..] == rest;
    assert (n % 128) * Pow2(0) % U64 == n;
  }

  /** A delta: the base's size, the result's, the instructions.  The first size is read and not looked at. */
  lemma MeaningWire(m: Byte, n: Byte, ops: seq<Byte>, base: seq<Byte>, room: nat)
    requires m < 128 && n < 128
    ensures Meaning([m, n] + ops, base, room) == if room < n then Outcome(NOROOM, []) else Play(ops, base, n, [])
  {
    hide DrainSize, Play;
    assert [m, n] + ops == [m] + ([n] + ops);
    SizeSmall(m, [n] + ops);
    SizeSmall(n, ops);
  }

  /** Offset 4, size 2: the fifth and the sixth byte of the base. */
  lemma CopyInput()
    ensures Meaning([8, 2, 0x91, 4, 2], [1, 2, 3, 4, 5, 6, 7, 8], 2) == Outcome(OK, [5, 6])
  {
    hide Meaning, Play;
    var base: seq<Byte> := [1, 2, 3, 4, 5, 6, 7, 8];
    var ops: seq<Byte> := [0x91, 4, 2];
    MeaningWire(8, 2, ops, base, 2);
    assert [8, 2] + ops == [8, 2, 0x91, 4, 2];
    var f := Fields(Some(4), None, None, None, Some(2), None, None);
    CopyWire(f, [], base, 2, []);
    assert [CmdOf(f)] + (OffBytes(f) + (LenBytes(f) + [])) == ops;
    PlayEnd(base, [5, 6]);
    assert [] + base[4..6] == [5, 6];
  }
}
