/** One record written at the end of the current log: its row is the source record it came from. */
module RepackEmit {
  import opened Common
  import opened DeltaFormat
  import opened DeltaCodec
  import opened PackFormat
  import opened PackResolve
  import opened PackWrite
  import opened RepackChain
  import opened RepackState
  import opened RepackRows
  import opened RepackRead
  import opened RepackInv

  // ---------- what a source record is ----------

  lemma RecFields(c: Ctx, rec: Rec)
    requires Good(c) && rec.off in c.recs && Some(rec) == RecAt(c.w, c.src, rec.off)
    ensures GoodZlib(c.w.z) && HashesTell(c.w, c.objs) && rec.typ < 8 && c.w.room.half <= c.w.room.base < U64
    ensures Obj0(c, rec.off).Some? ==> Obj0(c, rec.off).value in c.objs
    ensures rec.typ == OFS_DELTA ==> rec.baseOff < rec.off
    ensures rec.typ == REF_DELTA ==> CitesOwn(c.w, c.objs, rec.ref) && |rec.ref| == SHA_LEN
  {
    hide DrainVarint, DrainOfs, Delta, BySha, CitesOwn, GoodZlib, HashesTell, Obj0, ShardOk;
    assert RecGood(c, rec.off);
    TypeBound(c.src[rec.off..]);
  }

  lemma TypeBound(from: seq<Byte>)
    ensures DrainVarint(from).typ < 8
  {
    hide DrainGroups;
  }

  /** Its own bytes are one whole compressed stream. */
  lemma RecPayload(c: Ctx, rec: Rec)
    requires GoodZlib(c.w.z) && Some(rec) == RecAt(c.w, c.src, rec.off) && c.w.z.inflate(rec.z, rec.size).st == Ok
    ensures Payload(c.w.z, rec.z, rec.size, c.w.z.inflate(rec.z, rec.size).bytes)
  {
    hide HeaderAt, GoodZlib;
    var h := HeaderAt(Loc(c.src, rec.off));
    var used := c.w.z.inflate(h.rest, h.size).used;
    InflateExtend(c.w.z, rec.z, rec.size, h.rest[used..]);
    assert rec.z + h.rest[used..] == h.rest;
  }

  /** A whole record's object is its inflated payload. */
  lemma SourceRaw(c: Ctx, rec: Rec)
    requires GoodZlib(c.w.z) && Some(rec) == RecAt(c.w, c.src, rec.off) && !IsDelta(rec.typ)
      && c.w.z.inflate(rec.z, rec.size).st == Ok
    ensures Payload(c.w.z, rec.z, rec.size, c.w.z.inflate(rec.z, rec.size).bytes)
    ensures Obj0(c, rec.off) == Some(Blob(rec.typ, c.w.z.inflate(rec.z, rec.size).bytes))
  {
    hide GoodZlib, RecAt;
    RecPayload(c, rec);
  }

  /** A row of a delta's base: under the base's own prefix. */
  ghost predicate BaseHere(c: Ctx, s: State, rec: Rec, b: Row) {
    && b in s.rows && IsDelta(rec.typ) && b.key == BaseKey(c, rec)
    && (rec.typ == OFS_DELTA ==> rec.baseOff in c.recs && Obj0(c, rec.baseOff).Some? && CanLand(c, rec.baseOff))
  }

  /** The object a row is of. */
  lemma RowObject(c: Ctx, s: State, r: Row)
    requires Good(c) && RowsOk(c, s) && r in s.rows
    ensures ByKey(c, r.key) in c.objs && Key(c.w, ByKey(c, r.key)) == r.key && ByKey(c, r.key).typ == r.typ
  {
    hide Reads, StoredAs, GoodZlib, ByKey, Obj0, HashesTell;
    assert RowOk(c, s, r);
    if r in c.rows0 {
      assert OldOk(c, r);
      var d: nat, o :| OldIs(c, r, d, o);
      KeyOne(c, o);
    } else {
      var off :| Stored(c, s, r, off);
      assert RecGood(c, off);
      CopyIs(c, off, r.key);
    }
  }

  lemma RowInside(c: Ctx, s: State, r: Row)
    requires Good(c) && RowsOk(c, s) && r in s.rows
    ensures r.id in s.logs && HEADER <= r.off < |s.logs[r.id]|
  {
    hide Reads, StoredAs, GoodZlib, ByKey, Obj0, HashesTell, RecGood, IsCopy, RecAt;
    assert RowOk(c, s, r);
    if r in c.rows0 {
      assert OldOk(c, r);
      var d: nat, o :| OldIs(c, r, d, o);
      ReadsInside(OldStore(c), c.w.room, Loc(c.logs0[r.id], r.off), d, Obj(Ok, o.typ, o.bytes));
      LogGrew(c.logs0, s.logs, r.id);
    }
  }

  /** The object of a delta's base is the one its record is over. */
  lemma BaseObject(c: Ctx, s: State, rec: Rec, b: Row)
    requires Good(c) && RowsOk(c, s) && BaseHere(c, s, rec, b)
    requires rec.off in c.recs && Some(rec) == RecAt(c.w, c.src, rec.off)
    ensures var o := ByKey(c, b.key);
      && o in c.objs && Key(c.w, o) == b.key && |c.w.sha(o)| == SHA_LEN
      && (rec.typ == OFS_DELTA ==> Obj0(c, rec.baseOff) == Some(o))
      && (rec.typ == REF_DELTA ==> c.w.sha(o) == rec.ref && BySha(c.w, c.objs, rec.ref) == Some(o))
  {
    hide RecAt, ByKey, Obj0, RowsOk, GoodZlib, ShardOk;
    RowObject(c, s, b);
    assert RecGood(c, rec.off);
    if rec.typ == OFS_DELTA {
      assert RecGood(c, rec.baseOff);
      KeyOne(c, Obj0(c, rec.baseOff).value);
    } else {
      NamedIs(c, rec.ref);
      NamedHere(c, ByKey(c, b.key), rec.ref);
    }
  }

  lemma NamedHere(c: Ctx, o: Blob, ref: seq<Byte>)
    requires HashesTell(c.w, c.objs) && o in c.objs && c.w.sha(o) == ref
    ensures BySha(c.w, c.objs, ref) == Some(o)
  {
    var p := BySha(c.w, c.objs, ref).value;
    assert Key(c.w, p) == Key(c.w, o);
  }

  /** A delta record's object is its instructions played on its base, if they play. */
  lemma SourceDelta(c: Ctx, s: State, rec: Rec, b: Row)
    requires Good(c) && RowsOk(c, s) && BaseHere(c, s, rec, b)
    requires rec.off in c.recs && Some(rec) == RecAt(c.w, c.src, rec.off) && c.w.z.inflate(rec.z, rec.size).st == Ok
    ensures var i := c.w.z.inflate(rec.z, rec.size);
      var o := ByKey(c, b.key);
      && Payload(c.w.z, rec.z, rec.size, i.bytes)
      && var m := Meaning(i.bytes, o.bytes, c.w.room.base);
      Obj0(c, rec.off) == if m.st == OK then Some(Blob(o.typ, m.out)) else None
  {
    hide GoodZlib, RecAt, Meaning, RowsOk, ByKey, BySha, HashesTell, ShardOk, RecGood;
    BaseObject(c, s, rec, b);
    RecPayload(c, rec);
  }

  // ---------- the new row ----------

  /** The bytes of `rec` as emitted after `log`: an offset delta over a base in the same log, a named delta over one
    * elsewhere. */
  function Emitted(rec: Rec, log: seq<Byte>, cur: nat, base: Option<Row>, sha: seq<Byte>): seq<Byte>
    requires rec.typ < 8
  {
    if base.None? then RecordBytes(rec.typ, rec.size, 0, [], rec.z)
    else if base.value.id == cur then
      var back := if base.value.off < |log| then |log| - base.value.off else 0;
      RecordBytes(OFS_DELTA, rec.size, back, [], rec.z)
    else RecordBytes(REF_DELTA, rec.size, 0, sha, rec.z)
  }

  /** The state after `rec` was appended to log `cur` and indexed as `o`. */
  ghost predicate Wrote(c: Ctx, s: State, t: State, cur: nat, rec: Rec, base: Option<Row>, sha: seq<Byte>, o: Blob) {
    && cur in s.logs && rec.typ < 8
    && t.logs == s.logs[cur := s.logs[cur] + Emitted(rec, s.logs[cur], cur, base, sha)]
    && t.rows == s.rows + [Row(Key(c.w, o), o.typ, cur, |s.logs[cur]|)]
  }

  lemma LogsAppend(s: State, t: State, cur: nat, more: seq<Byte>)
    requires cur in s.logs && t.logs == s.logs[cur := s.logs[cur] + more]
    requires forall id | id in s.logs :: |s.logs[id]| >= HEADER
    ensures LogsGrow(s.logs, t.logs) && forall id | id in t.logs :: |t.logs[id]| >= HEADER
  {
    forall id | id in s.logs
      ensures PackGrows(s.logs[id], t.logs[id])
    {
      if id == cur {
        assert t.logs[id][HEADER..|s.logs[id]|] == s.logs[id][HEADER..];
      }
    }
  }

  lemma ReadsInside(sto: Store, room: Room, loc: Loc, d: nat, o: Obj)
    requires Reads(sto, room, loc, d, o)
    ensures HEADER <= loc.off < |loc.pack|
  {
    hide DrainObjHdr;
  }

  ghost predicate ShaOk(c: Ctx, cur: nat, base: Option<Row>, sha: seq<Byte>) {
    base.Some? && base.value.id != cur ==> |sha| == SHA_LEN && c.w.prefix(sha) == base.value.key
  }

  /** What the content of a landing record is known to be. */
  ghost predicate ContentOk(c: Ctx, rec: Rec, o: Blob) {
    c.w.z.inflate(rec.z, rec.size).st == Ok && Obj0(c, rec.off) == Some(o)
  }

  lemma EmittedHeader(rec: Rec, log: seq<Byte>, cur: nat, base: Option<Row>, sha: seq<Byte>)
    requires rec.typ < 8 && rec.size < U64 && |log| < U64
    requires base.None? ==> !IsDelta(rec.typ)
    requires base.Some? && base.value.id == cur ==> base.value.off < |log|
    requires base.Some? && base.value.id != cur ==> |sha| == SHA_LEN
    ensures |Emitted(rec, log, cur, base, sha)| > 0
    ensures HeaderAt(Loc(log + Emitted(rec, log, cur, base, sha), |log|))
         == if base.None? then Header(Ok, rec.typ, rec.size, 0, [], rec.z)
            else if base.value.id == cur then Header(Ok, OFS_DELTA, rec.size, |log| - base.value.off, [], rec.z)
            else Header(Ok, REF_DELTA, rec.size, 0, sha, rec.z)
  {
    hide RecordBytes, HeaderAt;
    var etyp := if base.None? then rec.typ else if base.value.id == cur then OFS_DELTA else REF_DELTA;
    var back := if base.None? || base.value.id != cur then 0 else |log| - base.value.off;
    var ref := if base.None? || base.value.id == cur then [] else sha;
    RecordHeader(log, etyp, rec.size, back, ref, rec.z, []);
    assert log + RecordBytes(etyp, rec.size, back, ref, rec.z) + []
        == log + RecordBytes(etyp, rec.size, back, ref, rec.z);
    assert rec.z + [] == rec.z;
    RecordNotEmpty(etyp, rec.size, back, ref, rec.z);
  }

  /** The row of a record just written: it is the source record, wherever its base landed. */
  lemma NewRow(c: Ctx, s: State, t: State, cur: nat, rec: Rec, base: Option<Row>, sha: seq<Byte>, o: Blob)
    requires Good(c) && RowsOk(c, s) && Wrote(c, s, t, cur, rec, base, sha, o) && |s.logs[cur]| < U64
    requires rec.off in c.recs && Some(rec) == RecAt(c.w, c.src, rec.off) && rec.size <= c.w.room.base
    requires ContentOk(c, rec, o) && ShaOk(c, cur, base, sha) && (base.Some? <==> IsDelta(rec.typ))
    requires base.Some? ==> BaseHere(c, s, rec, base.value) && IsBase(base.value.typ)
    ensures Stored(c, t, Row(Key(c.w, o), o.typ, cur, |s.logs[cur]|), rec.off)
  {
    hide RecAt, GoodZlib, HashesTell, ShardOk, Emitted, HeaderAt, RowOk, Obj0, RecGood, BaseKey, RowsOk, CanLand;
    RecFields(c, rec);
    LandsOver(c, s, rec, base);
    RowsLogs(c, s);
    var log := s.logs[cur];
    var r := Row(Key(c.w, o), o.typ, cur, |log|);
    if base.Some? {
      RowInside(c, s, base.value);
    }
    EmittedHeader(rec, log, cur, base, sha);
    if base.Some? {
      NewCites(c, s, t, r, HeaderAt(Loc(t.logs[cur], |log|)), base.value);
    }
  }

  /** A record whose base is in the index can land. */
  lemma LandsOver(c: Ctx, s: State, rec: Rec, base: Option<Row>)
    requires RowsOk(c, s) && rec.off in c.recs && Some(rec) == RecAt(c.w, c.src, rec.off)
    requires base.Some? <==> IsDelta(rec.typ)
    requires base.Some? ==> BaseHere(c, s, rec, base.value) && IsBase(base.value.typ)
    ensures CanLand(c, rec.off)
  {
    hide RecAt, StoredAs, Obj0, IsCopy, InRows, LogsGrow, NameRooted;
    if rec.typ == REF_DELTA {
      var b := base.value;
      assert RowOk(c, s, b);
      if b in c.rows0 {
        RowName(c, b);
        assert Rooted(c, rec.off, 1);
      } else {
        var off :| Stored(c, s, b, off);
        var n: nat :| Rooted(c, off, n);
        CopyName(c, off, b.key, n);
        assert Rooted(c, rec.off, n + 1);
      }
    } else if rec.typ == OFS_DELTA {
      var n: nat :| Rooted(c, rec.baseOff, n);
      assert Rooted(c, rec.off, n + 1);
    } else {
      assert Rooted(c, rec.off, 0);
    }
  }

  lemma RowName(c: Ctx, b: Row)
    requires b in c.rows0 && IsBase(b.typ)
    ensures NameRooted(c, b.key, 0)
  {
    RowIn(c.rows0, b);
  }

  lemma CopyName(c: Ctx, off: nat, key: nat, n: nat)
    requires Brings(c, off, key) && Rooted(c, off, n)
    ensures NameRooted(c, key, n)
  {
    hide InRows, Brings;
  }

  lemma NewCites(c: Ctx, s: State, t: State, r: Row, h: Header, b: Row)
    requires b in s.rows && IsBase(b.typ) && t.rows == s.rows + [r]
    requires if b.id == r.id then h.typ == OFS_DELTA && h.ofs == r.off - b.off && b.off < r.off
             else h.typ == REF_DELTA && c.w.prefix(h.ref) == b.key
    ensures CitesBase(c, t, r, h, b.key)
  {
    assert b in t.rows;
    if b.id == r.id {
      assert IsAt(b, r.id, r.off - h.ofs, b.key);
    } else {
      RowIn(t.rows, b);
    }
  }

  // ---------- finding the base ----------

  /** An offset delta's landed base has its row. */
  lemma OfsBase(c: Ctx, s: State, offs: seq<nat>, busy: int, rec: Rec, i: nat)
    requires Good(c) && Inv(c, s, offs, busy) && rec.typ == OFS_DELTA
    requires i < |s.map_| && s.map_[i].key == rec.baseOff && s.map_[i].val.Landed?
    ensures Obj0(c, rec.baseOff).Some?
    ensures var o := Obj0(c, rec.baseOff).value;
      BaseHere(c, s, rec, Row(Key(c.w, o), o.typ, s.map_[i].val.id, s.map_[i].val.off))
  {
    hide Good, RecAt, Obj0, RowsOk, WaitOk, WaitSorted, CanLand;
    assert PlaceOk(c, s, busy, s.map_[i]);
    assert offs[i] == rec.baseOff && offs[i] == c.recs[i];
  }

  /** A named base that is indexed has its row. */
  lemma RefBase(c: Ctx, s: State, rec: Rec, b: Row)
    requires rec.typ == REF_DELTA && b in s.rows && Admits(b, c.w.prefix(rec.ref))
    ensures BaseHere(c, s, rec, b)
  {
  }

  /** What resolves is of one of the four object types. */
  lemma {:induction false} ResolvedTyp(sto: Store, room: Room, loc: Loc, n: nat)
    requires Meant(sto, room, loc, n).st == Ok
    ensures IsBase(Meant(sto, room, loc, n).typ)
    decreases n
  {
    hide HeaderAt, Meaning, BaseLoc;
    var h := HeaderAt(loc);
    if !IsBase(h.typ) && n > 0 {
      ResolvedTyp(sto, room, BaseLoc(sto, loc, h).loc, n - 1);
    }
  }
}
