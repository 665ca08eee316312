/** Resolving a record through its delta chain, across packs, in two caller-owned buffers. */
module PackResolve {
  import opened Common
  import opened DeltaFormat
  import opened DeltaCodec
  import opened PackFormat

  // ---------- what lies outside ----------

  /** An inflate's outcome: the bytes, and how many packed bytes it used. */
  datatype Inflated = Inflated(st: PackStatus, bytes: seq<Byte>, used: nat)

  datatype Zlib = Zlib(inflate: (seq<Byte>, nat) -> Inflated, deflate: seq<Byte> -> seq<Byte>)

  ghost predicate InflatesBack(z: Zlib, x: seq<Byte>, rest: seq<Byte>) {
    z.inflate(z.deflate(x) + rest, |x|) == Inflated(Ok, x, |z.deflate(x)|)
  }

  ghost predicate InflatesExactly(z: Zlib, from: seq<Byte>, n: nat) {
    var i := z.inflate(from, n);
    i.st == Ok ==> |i.bytes| == n && i.used <= |from|
  }

  /** A stream ends where it ends, whatever follows it. */
  ghost predicate InflatesAlone(z: Zlib, from: seq<Byte>, n: nat, more: seq<Byte>) {
    z.inflate(from, n).st == Ok ==> z.inflate(from + more, n) == z.inflate(from, n)
  }

  /** Deflate and inflate are exact inverses over self-delimiting streams. */
  ghost predicate GoodZlib(z: Zlib) {
    && (forall x: seq<Byte>, rest: seq<Byte> :: InflatesBack(z, x, rest))
    && (forall from: seq<Byte>, n: nat :: InflatesExactly(z, from, n))
    && (forall from: seq<Byte>, n: nat, more: seq<Byte> :: InflatesAlone(z, from, n, more))
  }

  /** A record: which pack, and where in it. */
  datatype Loc = Loc(pack: seq<Byte>, off: nat)

  datatype Found = Found(st: PackStatus, loc: Loc)

  /** The codec, and the finder for sha-addressed bases, if there is one. */
  datatype Store = Store(z: Zlib, find: Option<seq<Byte> -> Found>)

  const CHAIN_MAX := 256

  // ---------- the meaning of a record ----------

  datatype Obj = Obj(st: PackStatus, typ: nat, bytes: seq<Byte>)

  function Bad(st: PackStatus): Obj {
    Obj(st, 0, [])
  }

  predicate IsBase(typ: nat) {
    COMMIT <= typ <= TAG
  }

  function HeaderAt(loc: Loc): Header {
    if loc.off < |loc.pack| then DrainObjHdr(loc.pack[loc.off..]) else Header(PackFail, 0, 0, 0, [], [])
  }

  /** Where a delta record's base is. */
  function BaseLoc(sto: Store, loc: Loc, h: Header): Found {
    if h.typ == OFS_DELTA then
      if h.ofs == 0 || h.ofs > loc.off then Found(PackFail, loc) else Found(Ok, Loc(loc.pack, loc.off - h.ofs))
    else if h.typ == REF_DELTA then
      if sto.find.None? then Found(NoBase, loc)
      else
        var f := sto.find.value(h.ref);
        if f.st != Ok then f else if f.loc.pack == [] then Found(NoBase, loc) else f
    else Found(PackFail, loc)
  }

  function StatusOf(st: DeltaStatus): PackStatus {
    match st
    case OK => Ok
    case NODATA => NoData
    case NOROOM => NoRoom
    case BADFMT => BadDelta
    case FAIL => BadDelta
  }

  /** The room the caller gave: for a base object, and for a delta and its result. */
  datatype Room = Room(base: nat, half: nat)

  function Whole(sto: Store, room: Room, h: Header): Obj {
    if h.size > room.base then Bad(NoRoom)
    else
      var i := sto.z.inflate(h.rest, h.size);
      if i.st != Ok then Bad(i.st) else Obj(Ok, h.typ, i.bytes)
  }

  /** A delta record over its resolved base. */
  function Patched(sto: Store, room: Room, h: Header, o: Obj): Obj {
    if o.st != Ok then o
    else if h.size > room.half then Bad(NoRoom)
    else
      var i := sto.z.inflate(h.rest, h.size);
      if i.st != Ok then Bad(i.st)
      else
        var r := Meaning(i.bytes, o.bytes, room.half);
        if r.st != OK then Bad(StatusOf(r.st)) else Obj(Ok, o.typ, r.out)
  }

  /** What a record means, by recursion along its bases: inflate a base object, or apply a delta to the
    * meaning of its base, through at most `hops` deltas. */
  function Meant(sto: Store, room: Room, loc: Loc, hops: nat): Obj
    decreases hops
  {
    var h := HeaderAt(loc);
    if h.st != Ok then Bad(h.st)
    else if IsBase(h.typ) then Whole(sto, room, h)
    else if hops == 0 then Bad(PackFail)
    else
      var b := BaseLoc(sto, loc, h);
      if b.st != Ok then Bad(b.st)
      else Patched(sto, room, h, Meant(sto, room, b.loc, hops - 1))
  }

  // ---------- the two buffers ----------

  /** A stretch of one of the two buffers. */
  datatype Region = Region(inBase: bool, off: nat, len: nat)

  predicate Apart(a: Region, b: Region) {
    a.inBase != b.inBase || a.off + a.len <= b.off || b.off + b.len <= a.off
  }

  ghost function Holding(base: array<Byte>, delta: array<Byte>, r: Region): seq<Byte>
    reads base, delta
  {
    var a := if r.inBase then base[..] else delta[..];
    if r.off + r.len <= |a| then a[r.off..r.off + r.len] else []
  }

  lemma HoldingIs(base: array<Byte>, delta: array<Byte>, r: Region)
    requires r.off + r.len <= if r.inBase then base.Length else delta.Length
    ensures Holding(base, delta, r) == if r.inBase then base[r.off..r.off + r.len] else delta[r.off..r.off + r.len]
  {
  }

  method Put(a: array<Byte>, at: nat, bytes: seq<Byte>)
    requires at + |bytes| <= a.Length
    modifies a
    ensures a[at..at + |bytes|] == bytes
    ensures a[..at] == old(a[..at]) && a[at + |bytes|..] == old(a[at + |bytes|..])
  {
    for k := 0 to |bytes|
      invariant a[at..at + k] == bytes[..k]
      invariant a[..at] == old(a[..at]) && a[at + k..] == old(a[at + k..])
    {
      a[at + k] := bytes[k];
      assert a[at..at + k + 1] == a[at..at + k] + [bytes[k]];
    }
  }

  // ---------- the chase ----------

  ghost predicate LocsOk(chain: seq<Loc>) {
    forall k | 0 <= k < |chain| :: chain[k].off < |chain[k].pack|
  }

  /** The hops' deltas applied from the last to the first. */
  ghost function Climb(sto: Store, room: Room, chain: seq<Loc>, o: Obj): Obj {
    if chain == [] then o
    else
      var n := |chain| - 1;
      Climb(sto, room, chain[..n], Patched(sto, room, HeaderAt(chain[n]), o))
  }

  lemma {:induction false} ClimbBad(sto: Store, room: Room, chain: seq<Loc>, o: Obj)
    requires o.st != Ok
    ensures Climb(sto, room, chain, o) == o
  {
    if chain != [] {
      ClimbBad(sto, room, chain[..|chain| - 1], o);
    }
  }

  lemma ClimbSnoc(sto: Store, room: Room, chain: seq<Loc>, loc: Loc, o: Obj)
    ensures Climb(sto, room, chain + [loc], o) == Climb(sto, room, chain, Patched(sto, room, HeaderAt(loc), o))
  {
    assert (chain + [loc])[..|chain|] == chain;
  }

  /** Chases a record down to a base object, recording every hop, and inflates the base. */
  method Chase(sto: Store, start: Loc, base: array<Byte>, ghost room: Room)
      returns (st: PackStatus, chain: seq<Loc>, typ: nat, outsz: nat)
    requires GoodZlib(sto.z) && room.base == base.Length
    modifies base
    ensures |chain| <= CHAIN_MAX && LocsOk(chain)
    ensures st != Ok ==> Meant(sto, room, start, CHAIN_MAX) == Bad(st)
    ensures st == Ok ==> outsz <= base.Length
    ensures st == Ok ==> Meant(sto, room, start, CHAIN_MAX) == Climb(sto, room, chain, Obj(Ok, typ, base[..outsz]))
  {
    hide Patched, HeaderAt, GoodZlib;
    var cur := start;
    chain, typ, outsz := [], 0, 0;
    while true
      invariant |chain| <= CHAIN_MAX && LocsOk(chain)
      invariant Meant(sto, room, start, CHAIN_MAX)
           == Climb(sto, room, chain, Meant(sto, room, cur, CHAIN_MAX - |chain|))
      decreases CHAIN_MAX - |chain|
    {
      HeaderInside(cur);
      if cur.off >= |cur.pack| {
        ClimbBad(sto, room, chain, Bad(PackFail));
        return PackFail, chain, typ, outsz;
      }
      var h := DrainObjHdrSteps(cur.pack[cur.off..]);
      if h.st != Ok {
        ClimbBad(sto, room, chain, Bad(h.st));
        return h.st, chain, typ, outsz;
      }
      if IsBase(h.typ) {
        if h.size > base.Length {
          ClimbBad(sto, room, chain, Bad(NoRoom));
          return NoRoom, chain, typ, outsz;
        }
        var i := sto.z.inflate(h.rest, h.size);
        if i.st != Ok {
          ClimbBad(sto, room, chain, Bad(i.st));
          return i.st, chain, typ, outsz;
        }
        InflatedSize(sto.z, h.rest, h.size);
        Put(base, 0, i.bytes);
        assert base[..h.size] == i.bytes;
        return Ok, chain, h.typ, h.size;
      }
      if |chain| >= CHAIN_MAX {
        ClimbBad(sto, room, chain, Bad(PackFail));
        return PackFail, chain, typ, outsz;
      }
      var b := BaseLoc(sto, cur, h);
      if b.st != Ok {
        ClimbBad(sto, room, chain, Bad(b.st));
        return b.st, chain, typ, outsz;
      }
      ClimbSnoc(sto, room, chain, cur, Meant(sto, room, b.loc, CHAIN_MAX - |chain| - 1));
      chain, cur := chain + [cur], b.loc;
    }
  }

  lemma HeaderInside(loc: Loc)
    ensures HeaderAt(loc)
         == if loc.off < |loc.pack| then DrainObjHdr(loc.pack[loc.off..]) else Header(PackFail, 0, 0, 0, [], [])
  {
  }

  lemma InflatedSize(z: Zlib, from: seq<Byte>, n: nat)
    requires GoodZlib(z) && z.inflate(from, n).st == Ok
    ensures |z.inflate(from, n).bytes| == n && z.inflate(from, n).used <= |from|
  {
    assert InflatesExactly(z, from, n);
  }

  // ---------- bottom up ----------

  /** A played delta never outgrows its announced size. */
  lemma {:induction false} PlayBound(delta: seq<Byte>, base: seq<Byte>, limit: nat, out: seq<Byte>)
    requires Play(delta, base, limit, out).st == OK
    ensures |Play(delta, base, limit, out).out| == limit
    decreases |delta|
  {
    if delta != [] {
      if delta[0] >= 128 {
        var o := Gather(delta[0], 4, delta[1..]);
        var z := Gather(delta[0] / 16, 3, o.rest);
        var sz := if z.val == 0 then 0x10000 else z.val;
        PlayBound(z.rest, base, limit, out + base[o.val..o.val + sz]);
      } else {
        var from := delta[1..];
        PlayBound(from[delta[0]..], base, limit, out + from[..delta[0]]);
      }
    }
  }

  lemma MeaningBound(delta: seq<Byte>, base: seq<Byte>, room: nat)
    requires Meaning(delta, base, room).st == OK
    ensures |Meaning(delta, base, room).out| <= room
  {
    var r := DrainSize(DrainSize(delta, 0, 0).rest, 0, 0);
    PlayBound(r.rest, base, r.val, []);
  }

  /** The last result is in one buffer, the next one goes to the other. */
  predicate Placed(src: Region, dst: Region, baseLen: nat, half: nat) {
    if src.inBase then src.off == 0 && src.len <= baseLen && dst == Region(false, half, half)
    else src.off == half && src.len <= half && dst == Region(true, 0, half)
  }

  lemma HopAt(chain: seq<Loc>, i: nat)
    requires LocsOk(chain) && i < |chain|
    ensures chain[i].off < |chain[i].pack| && HeaderAt(chain[i]) == DrainObjHdr(chain[i].pack[chain[i].off..])
    ensures chain[..i + 1] == chain[..i] + [chain[i]]
  {
  }

  /** Instructions go to the lower half, which holds no result. */
  method LoadDelta(base: array<Byte>, delta: array<Byte>, bytes: seq<Byte>, ghost src: Region, ghost dst: Region)
    requires base != delta && Placed(src, dst, base.Length, delta.Length / 2) && |bytes| <= delta.Length / 2
    modifies delta
    ensures delta[0..|bytes|] == bytes && Holding(base, delta, src) == old(Holding(base, delta, src))
    ensures Apart(Region(false, 0, |bytes|), src) && Apart(Region(false, 0, |bytes|), dst) && Apart(src, dst)
  {
    ghost var before := delta[..];
    Put(delta, 0, bytes);
    if !src.inBase {
      assert delta[..][|bytes|..] == before[|bytes|..];
      UpperKept(before, delta[..], |bytes|, src.off, src.len);
    }
  }

  lemma UpperKept(a: seq<Byte>, b: seq<Byte>, k: nat, off: nat, len: nat)
    requires k <= off && off + len <= |a| == |b| && a[k..] == b[k..]
    ensures a[off..off + len] == b[off..off + len]
  {
    assert a[off..off + len] == a[k..][off - k..off - k + len];
    assert b[off..off + len] == b[k..][off - k..off - k + len];
  }

  method StoreResult(base: array<Byte>, delta: array<Byte>, dst: Region, bytes: seq<Byte>)
    requires base != delta && |bytes| <= dst.len
    requires dst.off + dst.len <= if dst.inBase then base.Length else delta.Length
    modifies base, delta
    ensures Holding(base, delta, Region(dst.inBase, dst.off, |bytes|)) == bytes
  {
    if dst.inBase {
      Put(base, dst.off, bytes);
      assert base[..][dst.off..dst.off + |bytes|] == bytes;
    } else {
      Put(delta, dst.off, bytes);
      assert delta[..][dst.off..dst.off + |bytes|] == bytes;
    }
  }

  /** Resolves the record at `offset`: exactly its recursive meaning, error for error.  The result alternates
    * between the base buffer and the upper half of the delta buffer, so a step never writes what it reads. */
  method Resolve(sto: Store, pack: seq<Byte>, offset: nat, base: array<Byte>, delta: array<Byte>)
      returns (st: PackStatus, out: Region, typ: nat)
    requires GoodZlib(sto.z) && base != delta && base.Length >= delta.Length / 2
    modifies base, delta
    ensures var o := Meant(sto, Room(base.Length, delta.Length / 2), Loc(pack, offset), CHAIN_MAX);
      && st == o.st
      && (st == Ok ==> typ == o.typ && Holding(base, delta, out) == o.bytes)
    ensures st == Ok ==> out.off + out.len <= if out.inBase then base.Length else delta.Length
  {
    hide Meant, Climb, GoodZlib, LocsOk, Meaning, HeaderAt;
    var half: nat := delta.Length / 2;
    ghost var room := Room(base.Length, half);
    out := Region(true, 0, 0);
    var chain: seq<Loc>, outsz: nat;
    st, chain, typ, outsz := Chase(sto, Loc(pack, offset), base, room);
    if st != Ok {
      return;
    }
    var src, dst := Region(true, 0, outsz), Region(false, half, half);
    assert Holding(base, delta, src) == base[..outsz];
    var i: nat := |chain|;
    assert chain[..i] == chain;
    while i > 0
      invariant i <= |chain|
      invariant Placed(src, dst, base.Length, half)
      invariant Meant(sto, room, Loc(pack, offset), CHAIN_MAX)
           == Climb(sto, room, chain[..i], Obj(Ok, typ, Holding(base, delta, src)))
    {
      i := i - 1;
      ghost var o := Obj(Ok, typ, Holding(base, delta, src));
      HopAt(chain, i);
      ClimbSnoc(sto, room, chain[..i], chain[i], o);
      var h := DrainObjHdrSteps(chain[i].pack[chain[i].off..]);
      if h.size > half {
        ClimbBad(sto, room, chain[..i], Bad(NoRoom));
        return NoRoom, out, typ;
      }
      var d := sto.z.inflate(h.rest, h.size);
      if d.st != Ok {
        ClimbBad(sto, room, chain[..i], Bad(d.st));
        return d.st, out, typ;
      }
      InflatedSize(sto.z, h.rest, h.size);
      LoadDelta(base, delta, d.bytes, src, dst);
      var bsl := if src.inBase then base[src.off..src.off + src.len] else delta[src.off..src.off + src.len];
      assert bsl == Holding(base, delta, src);
      var r := Apply(delta[0..h.size], bsl, half);
      if r.st != OK {
        ClimbBad(sto, room, chain[..i], Bad(StatusOf(r.st)));
        return StatusOf(r.st), out, typ;
      }
      MeaningBound(d.bytes, bsl, half);
      StoreResult(base, delta, dst, r.out);
      src := Region(dst.inBase, dst.off, |r.out|);
      dst := if dst.inBase then Region(false, half, half) else Region(true, 0, half);
    }
    assert Climb(sto, room, chain[..0], Obj(Ok, typ, Holding(base, delta, src)))
        == Obj(Ok, typ, Holding(base, delta, src)) by {
      ClimbNone(sto, room, Obj(Ok, typ, Holding(base, delta, src)));
    }
    out := src;
  }

  lemma ClimbNone(sto: Store, room: Room, o: Obj)
    ensures Climb(sto, room, [], o) == o
  {
  }
}
