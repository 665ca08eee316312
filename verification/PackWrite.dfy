/** Writing a record into a pack log, and what later appends leave alone. */
module PackWrite {
  import opened Common
  import opened DeltaFormat
  import opened DeltaCodec
  import opened PackFormat
  import opened PackResolve

  // ---------- appending never changes an earlier record ----------

  lemma {:induction false} GroupsExtend(from: seq<Byte>, more: bool, shift: nat, size: nat, tail: seq<Byte>)
    requires DrainGroups(from, more, shift, size).st == Ok
    ensures DrainGroups(from + tail, more, shift, size)
         == Read(Ok, DrainGroups(from, more, shift, size).val, DrainGroups(from, more, shift, size).rest + tail)
    decreases |from|
  {
    if more {
      assert (from + tail)[1..] == from[1..] + tail;
      GroupsExtend(from[1..], from[0] >= 128, shift + 7, size + (from[0] % 128) * Pow2(shift) % U64, tail);
    }
  }

  lemma VarintExtend(from: seq<Byte>, tail: seq<Byte>)
    requires DrainVarint(from).st == Ok
    ensures var v := DrainVarint(from); DrainVarint(from + tail) == TypeSize(Ok, v.typ, v.size, v.rest + tail)
  {
    hide DrainGroups;
    assert (from + tail)[1..] == from[1..] + tail;
    GroupsExtend(from[1..], from[0] >= 128, 4, from[0] % 16, tail);
  }

  lemma {:induction false} OfsFromExtend(from: seq<Byte>, more: bool, ofs: nat, tail: seq<Byte>)
    requires DrainOfsFrom(from, more, ofs).st == Ok
    ensures DrainOfsFrom(from + tail, more, ofs)
         == Read(Ok, DrainOfsFrom(from, more, ofs).val, DrainOfsFrom(from, more, ofs).rest + tail)
    decreases |from|
  {
    if more {
      assert (from + tail)[1..] == from[1..] + tail;
      OfsFromExtend(from[1..], from[0] >= 128, (ofs + 1) * 128 + from[0] % 128, tail);
    }
  }

  lemma OfsExtend(from: seq<Byte>, tail: seq<Byte>)
    requires DrainOfs(from).st == Ok
    ensures DrainOfs(from + tail) == Read(Ok, DrainOfs(from).val, DrainOfs(from).rest + tail)
  {
    hide DrainOfsFrom;
    assert (from + tail)[1..] == from[1..] + tail;
    OfsFromExtend(from[1..], from[0] >= 128, from[0] % 128, tail);
  }

  lemma HdrExtend(from: seq<Byte>, tail: seq<Byte>)
    requires DrainObjHdr(from).st == Ok
    ensures DrainObjHdr(from + tail) == DrainObjHdr(from).(rest := DrainObjHdr(from).rest + tail)
  {
    hide DrainVarint, DrainOfs;
    var v := DrainVarint(from);
    VarintExtend(from, tail);
    if v.typ == OFS_DELTA {
      OfsExtend(v.rest, tail);
    } else if v.typ == REF_DELTA {
      assert (v.rest + tail)[..SHA_LEN] == v.rest[..SHA_LEN];
      assert (v.rest + tail)[SHA_LEN..] == v.rest[SHA_LEN..] + tail;
    }
  }

  /** A header with more bytes after it. */
  lemma HeaderExtend(pack: seq<Byte>, off: nat, tail: seq<Byte>)
    requires HeaderAt(Loc(pack, off)).st == Ok
    ensures var h := HeaderAt(Loc(pack, off)); HeaderAt(Loc(pack + tail, off)) == h.(rest := h.rest + tail)
  {
    hide DrainObjHdr;
    HdrExtend(pack[off..], tail);
    assert (pack + tail)[off..] == pack[off..] + tail;
  }

  lemma InflateExtend(z: Zlib, from: seq<Byte>, n: nat, tail: seq<Byte>)
    requires GoodZlib(z) && z.inflate(from, n).st == Ok
    ensures z.inflate(from + tail, n) == z.inflate(from, n)
  {
    assert InflatesAlone(z, from, n, tail);
  }

  /** A resolvable record means the same after any append to its pack. */
  lemma {:induction false} MeantExtend(sto: Store, room: Room, pack: seq<Byte>, off: nat, hops: nat, tail: seq<Byte>)
    requires GoodZlib(sto.z) && Meant(sto, room, Loc(pack, off), hops).st == Ok
    ensures Meant(sto, room, Loc(pack + tail, off), hops) == Meant(sto, room, Loc(pack, off), hops)
    decreases hops
  {
    hide GoodZlib, DrainObjHdr, Meaning, HeaderAt;
    var h := HeaderAt(Loc(pack, off));
    HeaderExtend(pack, off, tail);
    InflateExtend(sto.z, h.rest, h.size, tail);
    if !IsBase(h.typ) && h.typ == OFS_DELTA {
      MeantExtend(sto, room, pack, off - h.ofs, hops - 1, tail);
    }
  }

  /** More hops allowed, same meaning. */
  lemma {:induction false} MeantMore(sto: Store, room: Room, loc: Loc, n: nat, m: nat)
    requires n <= m && Meant(sto, room, loc, n).st == Ok
    ensures Meant(sto, room, loc, m) == Meant(sto, room, loc, n)
    decreases n
  {
    hide DrainObjHdr, Meaning, HeaderAt;
    var h := HeaderAt(loc);
    if !IsBase(h.typ) {
      MeantMore(sto, room, BaseLoc(sto, loc, h).loc, n - 1, m - 1);
    }
  }

  // ---------- writing a record ----------

  function RawBytes(z: Zlib, typ: nat, content: seq<Byte>): seq<Byte>
    requires typ < 8
  {
    HeaderBytes(typ, |content|) + z.deflate(content)
  }

  function OfsRecord(z: Zlib, delta: seq<Byte>, back: nat): seq<Byte> {
    HeaderBytes(OFS_DELTA, |delta|) + OfsBytes(back) + z.deflate(delta)
  }

  /** Appends one object: an offset delta against an earlier base when one is given and the delta is smaller,
    * else the whole content. */
  method FeedObj(z: Zlib, log: seq<Byte>, typ: nat, content: seq<Byte>, base: seq<Byte>, curOff: nat, baseOff: nat)
      returns (log': seq<Byte>, isDelta: bool, ghost delta: seq<Byte>)
    requires IsBase(typ) && |base| < 0x1_0000_0000 && |content| < U64
    ensures isDelta <==> base != [] && baseOff < curOff && |Encoded(base, content)| < |content|
    ensures !isDelta ==> log' == log + RawBytes(z, typ, content)
    ensures isDelta ==> WritesDelta(z, log, log', content, base, curOff - baseOff, delta)
  {
    hide HeaderBytes, OfsBytes, Encoded, Meaning;
    if base != [] && baseOff < curOff {
      var st, d := Encode(base, content, []);
      if st == OK && |d| < |content| {
        var hdr := FeedObjHdr([], OFS_DELTA, |d|);
        var ofs := FeedOfs([], curOff - baseOff);
        log' := log + hdr + ofs + z.deflate(d);
        delta := d;
        assert delta[0..] == delta;
        assert [] + HeaderBytes(OFS_DELTA, |delta|) == HeaderBytes(OFS_DELTA, |delta|);
        assert [] + OfsBytes(curOff - baseOff) == OfsBytes(curOff - baseOff);
        Join4(log, hdr, ofs, z.deflate(delta));
        assert WritesDelta(z, log, log', content, base, curOff - baseOff, delta);
        isDelta := true;
        return;
      }
    }
    var hdr := FeedObjHdr([], typ, |content|);
    assert [] + HeaderBytes(typ, |content|) == HeaderBytes(typ, |content|);
    log' := log + (hdr + z.deflate(content));
    isDelta, delta := false, [];
  }

  lemma Join4(a: seq<Byte>, b: seq<Byte>, c: seq<Byte>, d: seq<Byte>)
    ensures a + b + c + d == a + (b + c + d)
  {
  }

  /** What was appended is an offset delta, smaller than the content, and it means the content. */
  ghost predicate WritesDelta(z: Zlib, log: seq<Byte>, log': seq<Byte>, content: seq<Byte>, base: seq<Byte>, back: nat,
          delta: seq<Byte>) {
    && log' == log + OfsRecord(z, delta, back) && |delta| < |content|
    && forall room: nat | room >= |content| :: Meaning(delta, base, room) == Outcome(OK, content)
  }

  lemma FedRawHeader(z: Zlib, log: seq<Byte>, typ: nat, content: seq<Byte>)
    requires IsBase(typ) && |content| < U64
    ensures HeaderAt(Loc(log + RawBytes(z, typ, content), |log|))
         == Header(Ok, typ, |content|, 0, [], z.deflate(content))
  {
    hide DrainVarint, DrainOfs, HeaderBytes;
    var pack := log + RawBytes(z, typ, content);
    assert pack[|log|..] == HeaderBytes(typ, |content|) + z.deflate(content);
    HeaderRoundTrip(typ, |content|, z.deflate(content));
    HeaderNotEmpty(typ, |content|);
  }

  lemma HeaderNotEmpty(typ: nat, size: nat)
    requires typ < 8
    ensures HeaderBytes(typ, size) != []
  {
  }

  lemma FedDeltaHeader(z: Zlib, log: seq<Byte>, delta: seq<Byte>, back: nat)
    requires |delta| < U64 && back < U64
    ensures HeaderAt(Loc(log + OfsRecord(z, delta, back), |log|))
         == Header(Ok, OFS_DELTA, |delta|, back, [], z.deflate(delta))
  {
    hide DrainVarint, DrainOfs, HeaderBytes, OfsBytes;
    var pack := log + OfsRecord(z, delta, back);
    var tail := OfsBytes(back) + z.deflate(delta);
    assert pack[|log|..] == HeaderBytes(OFS_DELTA, |delta|) + tail;
    HeaderRoundTrip(OFS_DELTA, |delta|, tail);
    OfsRoundTrip(back, z.deflate(delta));
    HeaderNotEmpty(OFS_DELTA, |delta|);
  }

  lemma InflateFed(z: Zlib, x: seq<Byte>)
    requires GoodZlib(z)
    ensures z.inflate(z.deflate(x), |x|) == Inflated(Ok, x, |z.deflate(x)|)
  {
    assert InflatesBack(z, x, []);
    assert z.deflate(x) + [] == z.deflate(x);
  }

  /** A raw record reads back as its type and content. */
  lemma RawReadsBack(sto: Store, room: Room, log: seq<Byte>, typ: nat, content: seq<Byte>, hops: nat)
    requires GoodZlib(sto.z) && IsBase(typ) && |content| < U64 && |content| <= room.base
    ensures Meant(sto, room, Loc(log + RawBytes(sto.z, typ, content), |log|), hops) == Obj(Ok, typ, content)
  {
    hide GoodZlib, HeaderAt, RawBytes;
    FedRawHeader(sto.z, log, typ, content);
    InflateFed(sto.z, content);
  }

  /** A delta record reads back as the content, with the type of its base, whatever type was asked for;
    * the base may sit at most one hop short of the cap. */
  lemma DeltaReadsBack(sto: Store, room: Room, log: seq<Byte>, content: seq<Byte>, base: seq<Byte>, btyp: nat,
          baseOff: nat, delta: seq<Byte>, log': seq<Byte>, hops: nat)
    requires GoodZlib(sto.z) && |log| < U64 && |content| < U64 && |content| <= room.half && baseOff < |log|
    requires Meant(sto, room, Loc(log, baseOff), hops) == Obj(Ok, btyp, base)
    requires WritesDelta(sto.z, log, log', content, base, |log| - baseOff, delta)
    ensures Meant(sto, room, Loc(log', |log|), hops + 1) == Obj(Ok, btyp, content)
  {
    hide GoodZlib, HeaderAt, OfsRecord, Meaning;
    FedDeltaHeader(sto.z, log, delta, |log| - baseOff);
    MeantExtend(sto, room, log, baseOff, hops, OfsRecord(sto.z, delta, |log| - baseOff));
    InflateFed(sto.z, delta);
    assert Meaning(delta, base, room.half) == Outcome(OK, content);
  }

  /** Writing then resolving: the content comes back, and with the type given whenever the base has it too. */
  method WriteThenResolve(sto: Store, log: seq<Byte>, typ: nat, content: seq<Byte>, base: seq<Byte>, baseOff: nat,
        scratch: array<Byte>, work: array<Byte>)
      returns (log': seq<Byte>, st: PackStatus, out: Region, rtyp: nat)
    requires GoodZlib(sto.z) && IsBase(typ) && |log| < U64 && |base| < 0x1_0000_0000 && |content| < U64
    requires scratch != work && scratch.Length >= work.Length / 2 >= |content|
    requires var o := Meant(sto, Room(scratch.Length, work.Length / 2), Loc(log, baseOff), CHAIN_MAX - 1);
      base != [] && baseOff < |log| ==> o == Obj(Ok, typ, base)
    modifies scratch, work
    ensures log <= log' && st == Ok && rtyp == typ && Holding(scratch, work, out) == content
  {
    hide GoodZlib, Meant, RawBytes, OfsRecord, Meaning, Encoded, Holding;
    ghost var room := Room(scratch.Length, work.Length / 2);
    var isDelta: bool;
    ghost var delta: seq<Byte>;
    log', isDelta, delta := FeedObj(sto.z, log, typ, content, base, |log|, baseOff);
    if isDelta {
      DeltaReadsBack(sto, room, log, content, base, typ, baseOff, delta, log', CHAIN_MAX - 1);
    } else {
      RawReadsBack(sto, room, log, typ, content, CHAIN_MAX);
    }
    st, out, rtyp := Resolve(sto, log', |log|, scratch, work);
  }
}
