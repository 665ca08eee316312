/** How a stored record reads back, hop by hop, and that growth of the logs and the index never disturbs it. */
module RepackChain {
  import opened Common
  import opened DeltaFormat
  import opened DeltaCodec
  import opened PackFormat
  import opened PackResolve
  import opened PackWrite

  const HEADER := 12

  /** The record at `loc` reads back as `o` through exactly `d` deltas. */
  ghost predicate Reads(sto: Store, room: Room, loc: Loc, d: nat, o: Obj)
    decreases d, 0
  {
    var h := HeaderAt(loc);
    && loc.off >= HEADER && h.st == Ok && o.st == Ok
    && if IsBase(h.typ) then d == 0 && Whole(sto, room, h) == o
       else
         var b := BaseLoc(sto, loc, h);
         d > 0 && b.st == Ok && ReadsOver(sto, room, h, b.loc, d - 1, o)
  }

  ghost predicate ReadsOver(sto: Store, room: Room, h: Header, base: Loc, d: nat, o: Obj)
    decreases d, 1
  {
    var b := Meant(sto, room, base, d);
    Reads(sto, room, base, d, b) && Patched(sto, room, h, b) == o
  }

  /** Read with fewer hops allowed it fails, with enough it is `o`. */
  lemma {:induction false} ReadsMeant(sto: Store, room: Room, loc: Loc, d: nat, o: Obj, n: nat)
    requires Reads(sto, room, loc, d, o)
    ensures Meant(sto, room, loc, n) == if n >= d then o else Bad(PackFail)
    decreases n
  {
    hide HeaderAt, Meaning;
    var h := HeaderAt(loc);
    if !IsBase(h.typ) && n > 0 {
      var b := BaseLoc(sto, loc, h);
      ReadsMeant(sto, room, b.loc, d - 1, Meant(sto, room, b.loc, d - 1), n - 1);
    }
  }

  lemma ReadsHeader(sto: Store, room: Room, a: Loc, d: nat, o: Obj)
    requires Reads(sto, room, a, d, o)
    ensures a.off >= HEADER && HeaderAt(a).st == Ok && o.st == Ok
    ensures !IsBase(HeaderAt(a).typ) ==>
      var b := BaseLoc(sto, a, HeaderAt(a));
      d > 0 && b.st == Ok && Reads(sto, room, b.loc, d - 1, Meant(sto, room, b.loc, d - 1))
  {
    hide HeaderAt, BaseLoc, Meant, Whole, Patched;
  }

  /** A record reads as one object, at one depth. */
  lemma ReadsOnce(sto: Store, room: Room, a: Loc, d: nat, o: Obj, e: nat, p: Obj)
    requires Reads(sto, room, a, d, o) && Reads(sto, room, a, e, p)
    ensures o == p
  {
    hide Meant;
    var n := if d < e then e else d;
    ReadsMeant(sto, room, a, d, o, n);
    ReadsMeant(sto, room, a, e, p, n);
  }

  /** One pack carries on from the other past its header; what is before an offset stays put. */
  ghost predicate PackGrows(p: seq<Byte>, q: seq<Byte>) {
    HEADER <= |p| <= |q| && p[HEADER..] == q[HEADER..|p|]
  }

  ghost predicate LocGrows(a: Loc, b: Loc) {
    a.off == b.off && PackGrows(a.pack, b.pack)
  }

  ghost predicate FoundGrows(a: Found, b: Found) {
    a.st == Ok && a.loc.pack != [] ==> b.st == Ok && LocGrows(a.loc, b.loc)
  }

  /** Whatever the first finder finds, the second finds in a grown pack. */
  ghost predicate StoreGrows(s: Store, t: Store) {
    && GoodZlib(s.z) && t.z == s.z && s.find.Some? && t.find.Some?
    && forall sha: seq<Byte> :: FoundGrows(s.find.value(sha), t.find.value(sha))
  }

  lemma PackTail(p: seq<Byte>, q: seq<Byte>, off: nat)
    requires PackGrows(p, q) && HEADER <= off < |p|
    ensures q[off..] == p[off..] + q[|p|..]
  {
    assert q[off..|p|] == q[HEADER..|p|][off - HEADER..];
    assert p[off..] == p[HEADER..][off - HEADER..];
  }

  lemma HeaderGrows(a: Loc, b: Loc)
    requires LocGrows(a, b) && a.off >= HEADER && HeaderAt(a).st == Ok
    ensures HeaderAt(b) == HeaderAt(a).(rest := HeaderAt(a).rest + b.pack[|a.pack|..])
  {
    hide DrainObjHdr;
    PackTail(a.pack, b.pack, a.off);
    HdrExtend(a.pack[a.off..], b.pack[|a.pack|..]);
  }

  lemma BaseGrows(s: Store, t: Store, a: Loc, b: Loc)
    requires StoreGrows(s, t) && LocGrows(a, b) && a.off >= HEADER && HeaderAt(a).st == Ok
    requires BaseLoc(s, a, HeaderAt(a)).st == Ok
    ensures BaseLoc(t, b, HeaderAt(b)).st == Ok
    ensures LocGrows(BaseLoc(s, a, HeaderAt(a)).loc, BaseLoc(t, b, HeaderAt(b)).loc)
  {
    hide HeaderAt;
    HeaderGrows(a, b);
    var h := HeaderAt(a);
    if h.typ == REF_DELTA {
      assert FoundGrows(s.find.value(h.ref), t.find.value(h.ref));
    }
  }

  /** Growth keeps every reading: same object, same number of hops. */
  lemma {:induction false} ReadsGrow(s: Store, t: Store, room: Room, a: Loc, b: Loc, d: nat, o: Obj)
    requires StoreGrows(s, t) && LocGrows(a, b) && Reads(s, room, a, d, o)
    ensures Reads(t, room, b, d, o)
    decreases d
  {
    hide HeaderAt, Meaning, GoodZlib, Meant, BaseLoc;
    var h := HeaderAt(a);
    HeaderGrows(a, b);
    if IsBase(h.typ) {
      WholeGrows(s, t, room, h, b.pack[|a.pack|..], o);
    } else {
      BaseGrows(s, t, a, b);
      var x, y := BaseLoc(s, a, h).loc, BaseLoc(t, b, HeaderAt(b)).loc;
      var base := Meant(s, room, x, d - 1);
      ReadsGrow(s, t, room, x, y, d - 1, base);
      ReadsMeant(t, room, y, d - 1, base, d - 1);
      PatchedGrows(s, t, room, h, b.pack[|a.pack|..], base, o);
    }
  }

  lemma WholeGrows(s: Store, t: Store, room: Room, h: Header, tail: seq<Byte>, o: Obj)
    requires GoodZlib(s.z) && t.z == s.z && Whole(s, room, h) == o && o.st == Ok
    ensures Whole(t, room, h.(rest := h.rest + tail)) == o
  {
    InflateExtend(s.z, h.rest, h.size, tail);
  }

  lemma PatchedGrows(s: Store, t: Store, room: Room, h: Header, tail: seq<Byte>, base: Obj, o: Obj)
    requires GoodZlib(s.z) && t.z == s.z && Patched(s, room, h, base) == o && o.st == Ok && base.st == Ok
    ensures Patched(t, room, h.(rest := h.rest + tail), base) == o
  {
    hide Meaning;
    InflateExtend(s.z, h.rest, h.size, tail);
  }

  lemma PackGrowsTrans(p: seq<Byte>, q: seq<Byte>, r: seq<Byte>)
    requires PackGrows(p, q) && PackGrows(q, r)
    ensures PackGrows(p, r)
  {
    assert r[HEADER..|p|] == r[HEADER..|q|][..|p| - HEADER];
  }

  // ---------- one more record at the end of a log ----------

  /** The bytes of a re-emitted record: a header, a base reference if any, the payload verbatim. */
  function RecordBytes(typ: nat, size: nat, back: nat, ref: seq<Byte>, z: seq<Byte>): seq<Byte>
    requires typ < 8
  {
    HeaderBytes(typ, size) + ((if typ == OFS_DELTA then OfsBytes(back) else if typ == REF_DELTA then ref else []) + z)
  }

  lemma RecordHeader(log: seq<Byte>, typ: nat, size: nat, back: nat, ref: seq<Byte>, z: seq<Byte>, more: seq<Byte>)
    requires typ < 8 && size < U64 && back < U64 && (typ == REF_DELTA ==> |ref| == SHA_LEN)
    ensures HeaderAt(Loc(log + RecordBytes(typ, size, back, ref, z) + more, |log|))
         == Header(Ok, typ, size, if typ == OFS_DELTA then back else 0, if typ == REF_DELTA then ref else [], z + more)
  {
    hide DrainVarint, DrainOfs, HeaderBytes, OfsBytes;
    var mid := if typ == OFS_DELTA then OfsBytes(back) else if typ == REF_DELTA then ref else [];
    var pack := log + RecordBytes(typ, size, back, ref, z) + more;
    HeaderNotEmpty(typ, size);
    assert pack[|log|..] == HeaderBytes(typ, size) + (mid + (z + more));
    HeaderRoundTrip(typ, size, mid + (z + more));
    if typ == OFS_DELTA {
      OfsRoundTrip(back, z + more);
    } else if typ == REF_DELTA {
      assert (ref + (z + more))[..SHA_LEN] == ref && (ref + (z + more))[SHA_LEN..] == z + more;
    } else {
      assert [] + (z + more) == z + more;
    }
  }

  /** A payload: a whole compressed stream of `size` bytes. */
  ghost predicate Payload(z: Zlib, zbytes: seq<Byte>, size: nat, bytes: seq<Byte>) {
    z.inflate(zbytes, size) == Inflated(Ok, bytes, |zbytes|)
  }

  /** A whole object just written reads back at once. */
  lemma RawReads(sto: Store, room: Room, log: seq<Byte>, typ: nat, size: nat, z: seq<Byte>, bytes: seq<Byte>)
    requires GoodZlib(sto.z) && IsBase(typ) && size < U64 && size <= room.base && |log| >= HEADER
      && Payload(sto.z, z, size, bytes)
    ensures Reads(sto, room, Loc(log + RecordBytes(typ, size, 0, [], z), |log|), 0, Obj(Ok, typ, bytes))
  {
    hide GoodZlib, HeaderAt, RecordBytes;
    RecordHeader(log, typ, size, 0, [], z, []);
    assert log + RecordBytes(typ, size, 0, [], z) + [] == log + RecordBytes(typ, size, 0, [], z);
    assert z + [] == z;
  }

  /** A delta just written reads back through one hop more than its base, wherever its base reference leads. */
  lemma DeltaReads(sto: Store, room: Room, log: seq<Byte>, typ: nat, size: nat, back: nat, ref: seq<Byte>, z: seq<Byte>,
        delta: seq<Byte>, at: Loc, d: nat, b: Obj, out: seq<Byte>)
    requires GoodZlib(sto.z) && (typ == OFS_DELTA || typ == REF_DELTA) && |log| >= HEADER
    requires size < U64 && size <= room.half && back < U64 && (typ == REF_DELTA ==> |ref| == SHA_LEN)
    requires Payload(sto.z, z, size, delta) && Meaning(delta, b.bytes, room.half) == Outcome(OK, out)
    requires var loc := Loc(log + RecordBytes(typ, size, back, ref, z), |log|);
      BaseLoc(sto, loc, HeaderAt(loc)) == Found(Ok, at)
    requires Reads(sto, room, at, d, b)
    ensures Reads(sto, room, Loc(log + RecordBytes(typ, size, back, ref, z), |log|), d + 1, Obj(Ok, b.typ, out))
  {
    hide GoodZlib, HeaderAt, RecordBytes, Meaning, BaseLoc;
    RecordHeader(log, typ, size, back, ref, z, []);
    assert log + RecordBytes(typ, size, back, ref, z) + [] == log + RecordBytes(typ, size, back, ref, z);
    assert z + [] == z;
    ReadsMeant(sto, room, at, d, b, d);
  }

  /** How far a record reaches: its header and its whole compressed stream. */
  ghost predicate RecordEnds(z: Zlib, pack: seq<Byte>, off: nat, end: nat) {
    var h := HeaderAt(Loc(pack, off));
    && h.st == Ok && off < |pack| && z.inflate(h.rest, h.size).st == Ok
    && end == |pack| - |h.rest| + z.inflate(h.rest, h.size).used
  }

  /** A re-emitted record ends where its bytes end, whatever follows it. */
  lemma RecordExtent(z: Zlib, log: seq<Byte>, typ: nat, size: nat, back: nat, ref: seq<Byte>, zb: seq<Byte>,
          bytes: seq<Byte>, more: seq<Byte>)
    requires GoodZlib(z) && typ < 8 && size < U64 && back < U64 && (typ == REF_DELTA ==> |ref| == SHA_LEN)
    requires Payload(z, zb, size, bytes)
    ensures var rec := RecordBytes(typ, size, back, ref, zb);
      RecordEnds(z, log + rec + more, |log|, |log| + |rec|)
  {
    hide GoodZlib, HeaderAt, HeaderBytes, OfsBytes;
    RecordHeader(log, typ, size, back, ref, zb, more);
    InflateExtend(z, zb, size, more);
    RecordNotEmpty(typ, size, back, ref, zb);
  }

  lemma RecordNotEmpty(typ: nat, size: nat, back: nat, ref: seq<Byte>, z: seq<Byte>)
    requires typ < 8
    ensures |RecordBytes(typ, size, back, ref, z)| > 0
  {
  }
}
