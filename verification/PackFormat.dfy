/** Pack record headers: the type-and-size varint, the offset varint, and the base reference. */
module PackFormat {
  import opened Common
  import opened DeltaFormat

  datatype PackStatus = Ok | PackFail | BadFormat | BadObject | BadDelta | NoBase | NoData | NoRoom | More

  const COMMIT := 1
  const TREE := 2
  const BLOB := 3
  const TAG := 4
  const OFS_DELTA := 6
  const REF_DELTA := 7

  const SHA_LEN := 20

  // ---------- the type-and-size varint ----------

  /** A drained value and what is left. */
  datatype Read = Read(st: PackStatus, val: nat, rest: seq<Byte>)

  /** The size groups after the first byte. */
  function DrainGroups(from: seq<Byte>, more: bool, shift: nat, size: nat): Read {
    if !more then Read(Ok, size, from)
    else if shift >= 64 then Read(BadFormat, 0, [])
    else if from == [] then Read(NoData, 0, [])
    else DrainGroups(from[1..], from[0] >= 128, shift + 7, size + (from[0] % 128) * Pow2(shift) % U64)
  }

  datatype TypeSize = TypeSize(st: PackStatus, typ: nat, size: nat, rest: seq<Byte>)

  /** Type in bits 6..4 of the first byte, size in bits 3..0 and then seven bits a byte. */
  function DrainVarint(from: seq<Byte>): TypeSize {
    if from == [] then TypeSize(NoData, 0, 0, [])
    else
      var r := DrainGroups(from[1..], from[0] >= 128, 4, from[0] % 16);
      if r.st != Ok then TypeSize(r.st, 0, 0, []) else TypeSize(Ok, from[0] / 16 % 8, r.val, r.rest)
  }

  method DrainVarintLoop(from: seq<Byte>) returns (r: TypeSize)
    ensures r == DrainVarint(from)
  {
    if from == [] {
      return TypeSize(NoData, 0, 0, []);
    }
    var c, rest := from[0], from[1..];
    var typ: nat, size: nat, shift: nat := c / 16 % 8, c % 16, 4;
    while c >= 128
      invariant DrainGroups(rest, c >= 128, shift, size) == DrainGroups(from[1..], from[0] >= 128, 4, from[0] % 16)
      decreases |rest|, c
    {
      if shift >= 64 {
        return TypeSize(BadFormat, 0, 0, []);
      }
      if rest == [] {
        return TypeSize(NoData, 0, 0, []);
      }
      c, rest := rest[0], rest[1..];
      size := size + (c % 128) * Pow2(shift) % U64;
      shift := shift + 7;
    }
    r := TypeSize(Ok, typ, size, rest);
  }

  function GroupBytes(size: nat): seq<Byte> {
    if size == 0 then []
    else [size % 128 + (if size / 128 > 0 then 128 else 0)] + GroupBytes(size / 128)
  }

  function HeaderBytes(typ: nat, size: nat): seq<Byte>
    requires typ < 8
  {
    [16 * typ + size % 16 + (if size / 16 > 0 then 128 else 0)] + GroupBytes(size / 16)
  }

  method FeedObjHdr(out: seq<Byte>, typ: nat, size: nat) returns (out': seq<Byte>)
    requires typ < 8
    ensures out' == out + HeaderBytes(typ, size)
  {
    var n: nat := size / 16;
    out' := out + [16 * typ + size % 16 + (if n > 0 then 128 else 0)];
    ghost var first := out';
    while n > 0
      invariant out' + GroupBytes(n) == first + GroupBytes(size / 16)
    {
      var c: nat := n % 128;
      var m: nat := n / 128;
      if m > 0 {
        c := c + 128;
      }
      assert out' + ([c] + GroupBytes(m)) == out' + [c] + GroupBytes(m);
      out' := out' + [c];
      n := m;
    }
    assert out' + GroupBytes(0) == out';
    HeaderShape(out, typ, size);
  }

  lemma HeaderShape(out: seq<Byte>, typ: nat, size: nat)
    requires typ < 8
    ensures out + [16 * typ + size % 16 + (if size / 16 > 0 then 128 else 0)] + GroupBytes(size / 16)
         == out + HeaderBytes(typ, size)
  {
  }

  lemma GroupOne(c: Byte, tail: seq<Byte>, shift: nat, size: nat)
    requires shift < 64 && (c % 128) * Pow2(shift) < U64
    ensures DrainGroups([c] + tail, true, shift, size)
         == DrainGroups(tail, c >= 128, shift + 7, size + (c % 128) * Pow2(shift))
  {
    assert ([c] + tail)[1..] == tail;
    SmallMod((c % 128) * Pow2(shift));
  }

  lemma {:induction false} GroupsRoundTrip(n: nat, shift: nat, size: nat, rest: seq<Byte>)
    requires size + n * Pow2(shift) < U64
    ensures DrainGroups(GroupBytes(n) + rest, n > 0, shift, size) == Read(Ok, size + n * Pow2(shift), rest)
    decreases n
  {
    hide Pow2, DrainGroups, GroupBytes;
    var p := Pow2(shift);
    if n == 0 {
      NoGroups(shift, size, rest);
    } else {
      if shift >= 64 {
        Pow2Big(shift);
        AtLeast(n, p);
      }
      var lo, hi := n % 128, n / 128;
      var c: Byte := lo + if hi > 0 then 128 else 0;
      MulMono(lo, n, p);
      SplitSeven(n, p);
      Pow2Of64();
      Pow2Add(shift, 7);
      GroupFirst(n, rest);
      assert c % 128 == lo;
      GroupOne(c, GroupBytes(hi) + rest, shift, size);
      GroupsRoundTrip(hi, shift + 7, size + lo * p, rest);
    }
  }

  lemma NoGroups(shift: nat, size: nat, rest: seq<Byte>)
    ensures DrainGroups(GroupBytes(0) + rest, false, shift, size) == Read(Ok, size + 0 * Pow2(shift), rest)
  {
    assert GroupBytes(0) + rest == rest;
  }

  lemma GroupFirst(n: nat, rest: seq<Byte>)
    requires n > 0
    ensures GroupBytes(n) + rest == [n % 128 + (if n / 128 > 0 then 128 else 0)] + (GroupBytes(n / 128) + rest)
  {
  }

  /** A fed header drains to its type and size, up to the last byte. */
  lemma HeaderRoundTrip(typ: nat, size: nat, rest: seq<Byte>)
    requires typ < 8 && size < U64
    ensures DrainVarint(HeaderBytes(typ, size) + rest) == TypeSize(Ok, typ, size, rest)
  {
    hide DrainGroups, GroupBytes, Pow2;
    var n := size / 16;
    var c: Byte := 16 * typ + size % 16 + if n > 0 then 128 else 0;
    assert Pow2(4) == 16 by {
      Pow2Of4();
    }
    assert HeaderBytes(typ, size) + rest == [c] + (GroupBytes(n) + rest);
    assert ([c] + (GroupBytes(n) + rest))[1..] == GroupBytes(n) + rest;
    FirstByte(typ, size % 16, n > 0);
    GroupsRoundTrip(n, 4, size % 16, rest);
  }

  lemma Pow2Of4()
    ensures Pow2(4) == 16
  {
  }

  lemma FirstByte(typ: nat, low: nat, more: bool)
    requires typ < 8 && low < 16
    ensures var c := 16 * typ + low + if more then 128 else 0;
      c / 16 % 8 == typ && c % 16 == low && (c >= 128 <==> more)
  {
  }

  // ---------- the offset varint ----------

  const OFS_MAX := 0x1ff_ffff_ffff_ffff          // the largest u64, shifted right by 7

  function DrainOfsFrom(from: seq<Byte>, more: bool, ofs: nat): Read {
    if !more then Read(Ok, ofs, from)
    else if ofs >= OFS_MAX then Read(BadFormat, 0, [])
    else if from == [] then Read(NoData, 0, [])
    else DrainOfsFrom(from[1..], from[0] >= 128, (ofs + 1) * 128 + from[0] % 128)
  }

  /** High group first, each higher group one less than its value. */
  function DrainOfs(from: seq<Byte>): Read {
    if from == [] then Read(NoData, 0, [])
    else DrainOfsFrom(from[1..], from[0] >= 128, from[0] % 128)
  }

  method DrainOfsLoop(from: seq<Byte>) returns (r: Read)
    ensures r == DrainOfs(from)
  {
    if from == [] {
      return Read(NoData, 0, []);
    }
    var c, rest := from[0], from[1..];
    var ofs: nat := c % 128;
    while c >= 128
      invariant DrainOfsFrom(rest, c >= 128, ofs) == DrainOfs(from)
      decreases |rest|, c
    {
      if ofs >= OFS_MAX {
        return Read(BadFormat, 0, []);
      }
      if rest == [] {
        return Read(NoData, 0, []);
      }
      c, rest := rest[0], rest[1..];
      ofs := (ofs + 1) * 128 + c % 128;
    }
    r := Read(Ok, ofs, rest);
  }

  /** The continued groups of `v`, high first. */
  function OfsHigh(v: nat): seq<Byte> {
    (if v < 128 then [] else OfsHigh(v / 128 - 1)) + [128 + v % 128]
  }

  function OfsBytes(val: nat): seq<Byte> {
    (if val < 128 then [] else OfsHigh(val / 128 - 1)) + [val % 128]
  }

  function Reversed(s: seq<Byte>): seq<Byte> {
    if s == [] then [] else Reversed(s[1..]) + [s[0]]
  }

  lemma {:induction false} ReversedConcat(a: seq<Byte>, b: seq<Byte>)
    ensures Reversed(a + b) == Reversed(b) + Reversed(a)
  {
    if a == [] {
      assert a + b == b;
    } else {
      assert (a + b)[1..] == a[1..] + b;
      ReversedConcat(a[1..], b);
    }
  }

  lemma HighFirst(u: nat, tmp: seq<Byte>)
    ensures (if u < 128 then [] else OfsHigh(u / 128 - 1)) + Reversed(tmp + [128 + u % 128])
         == OfsHigh(u) + Reversed(tmp)
  {
    hide Reversed;
    var c: Byte := 128 + u % 128;
    ReversedConcat(tmp, [c]);
    ReversedOne(c);
    var h := if u < 128 then [] else OfsHigh(u / 128 - 1);
    assert h + ([c] + Reversed(tmp)) == h + [c] + Reversed(tmp);
  }

  lemma ReversedOne(c: Byte)
    ensures Reversed([c]) == [c]
  {
  }

  /** The groups of an offset, low to high; each higher group is decremented first. */
  method OfsGroups(val: nat) returns (tmp: seq<Byte>)
    ensures Reversed(tmp) == OfsBytes(val)
  {
    hide OfsHigh, Reversed;
    tmp := [val % 128];
    ReversedOne(val % 128);
    var v: nat := val / 128;
    while v != 0
      invariant (if v == 0 then [] else OfsHigh(v - 1)) + Reversed(tmp) == OfsBytes(val)
      decreases v
    {
      var u: nat := v - 1;
      HighFirst(u, tmp);
      tmp := tmp + [128 + u % 128];
      v := u / 128;
    }
    assert [] + Reversed(tmp) == Reversed(tmp);
  }

  lemma LastFirst(tmp: seq<Byte>)
    requires tmp != []
    ensures Reversed(tmp) == [tmp[|tmp| - 1]] + Reversed(tmp[..|tmp| - 1])
  {
    hide Reversed;
    var m, g := tmp[..|tmp| - 1], tmp[|tmp| - 1];
    assert tmp == m + [g];
    ReversedConcat(m, [g]);
    ReversedOne(g);
  }

  /** The groups are emitted high to low. */
  method FeedOfs(out: seq<Byte>, val: nat) returns (out': seq<Byte>)
    ensures out' == out + OfsBytes(val)
  {
    hide OfsBytes;
    var tmp := OfsGroups(val);
    out' := out;
    while tmp != []
      invariant out' + Reversed(tmp) == out + OfsBytes(val)
      decreases |tmp|
    {
      LastFirst(tmp);
      var m, g := tmp[..|tmp| - 1], tmp[|tmp| - 1];
      assert out' + ([g] + Reversed(m)) == out' + [g] + Reversed(m);
      out' := out' + [g];
      tmp := m;
    }
  }

  lemma OfsOne(c: Byte, tail: seq<Byte>, ofs: nat)
    requires ofs < OFS_MAX
    ensures DrainOfsFrom([c] + tail, true, ofs) == DrainOfsFrom(tail, c >= 128, (ofs + 1) * 128 + c % 128)
  {
    assert ([c] + tail)[1..] == tail;
  }

  lemma {:induction false} OfsHighDrains(v: nat, tail: seq<Byte>)
    requires v < OFS_MAX
    ensures DrainOfs(OfsHigh(v) + tail) == DrainOfsFrom(tail, true, v)
    decreases v
  {
    hide DrainOfsFrom;
    var c: Byte := 128 + v % 128;
    if v < 128 {
      assert OfsHigh(v) + tail == [c] + tail;
      assert ([c] + tail)[1..] == tail;
    } else {
      var u := v / 128 - 1;
      assert OfsHigh(v) + tail == OfsHigh(u) + ([c] + tail);
      OfsHighDrains(u, [c] + tail);
      OfsOne(c, tail, u);
    }
  }

  /** A fed offset drains to itself, for every 64-bit value. */
  lemma OfsRoundTrip(val: nat, rest: seq<Byte>)
    requires val < U64
    ensures DrainOfs(OfsBytes(val) + rest) == Read(Ok, val, rest)
  {
    hide OfsHigh;
    var c: Byte := val % 128;
    if val < 128 {
      assert OfsBytes(val) + rest == [c] + rest;
      assert ([c] + rest)[1..] == rest;
    } else {
      var u := val / 128 - 1;
      assert OfsBytes(val) + rest == OfsHigh(u) + ([c] + rest);
      OfsHighDrains(u, [c] + rest);
      OfsOne(c, rest, u);
    }
  }

  // ---------- record headers ----------

  /** A parsed header: what the record is, and the packed bytes after it. */
  datatype Header = Header(st: PackStatus, typ: nat, size: nat, ofs: nat, ref: seq<Byte>, rest: seq<Byte>)

  function DrainObjHdr(from: seq<Byte>): Header {
    var v := DrainVarint(from);
    if v.st != Ok then Header(v.st, 0, 0, 0, [], [])
    else if v.typ == OFS_DELTA then
      var o := DrainOfs(v.rest);
      if o.st != Ok then Header(o.st, 0, 0, 0, [], []) else Header(Ok, v.typ, v.size, o.val, [], o.rest)
    else if v.typ == REF_DELTA then
      if |v.rest| < SHA_LEN then Header(BadFormat, 0, 0, 0, [], [])
      else Header(Ok, v.typ, v.size, 0, v.rest[..SHA_LEN], v.rest[SHA_LEN..])
    else Header(Ok, v.typ, v.size, 0, [], v.rest)
  }

  method DrainObjHdrSteps(from: seq<Byte>) returns (h: Header)
    ensures h == DrainObjHdr(from)
  {
    var v := DrainVarintLoop(from);
    if v.st != Ok {
      return Header(v.st, 0, 0, 0, [], []);
    }
    if v.typ == OFS_DELTA {
      var o := DrainOfsLoop(v.rest);
      if o.st != Ok {
        return Header(o.st, 0, 0, 0, [], []);
      }
      return Header(Ok, v.typ, v.size, o.val, [], o.rest);
    } else if v.typ == REF_DELTA {
      if |v.rest| < SHA_LEN {
        return Header(BadFormat, 0, 0, 0, [], []);
      }
      return Header(Ok, v.typ, v.size, 0, v.rest[..SHA_LEN], v.rest[SHA_LEN..]);
    }
    h := Header(Ok, v.typ, v.size, 0, [], v.rest);
  }
}
