/** What a row resolves to: never another object, never a missing base; its own within reach, nothing beyond it. */
module RepackRead {
  import opened Common
  import opened DeltaFormat
  import opened DeltaCodec
  import opened PackFormat
  import opened PackResolve
  import opened PackWrite
  import opened RepackChain
  import opened RepackState
  import opened RepackRows
  import opened RepackDepth

  // ---------- a finder with some of the rows ----------

  predicate Under(top: Option<nat>, id: nat) {
    top.None? || id <= top.value
  }

  /** `known` has rows of logs up to `top` only, all of before the run, and one for every name a record there cites. */
  ghost predicate Answers(c: Ctx, s: State, known: seq<Row>, top: Option<nat>) {
    && (forall x | x in known :: x in s.rows && Under(top, x.id))
    && (forall x | x in c.rows0 :: x in known)
    && (forall r | r in s.rows && Under(top, r.id) :: Answered(c, s, known, r))
  }

  ghost predicate Answered(c: Ctx, s: State, known: seq<Row>, r: Row) {
    r in c.rows0 || (r.id in s.logs && NameKnown(c, known, HeaderAt(Loc(s.logs[r.id], r.off))))
  }

  ghost predicate NameKnown(c: Ctx, known: seq<Row>, h: Header) {
    h.typ == REF_DELTA ==> InRows(known, c.w.prefix(h.ref))
  }

  /** The whole index answers for itself. */
  lemma AllAnswer(c: Ctx, s: State)
    requires RowsOk(c, s)
    ensures Answers(c, s, s.rows, None)
  {
    hide HeaderAt, RecAt, Obj0, BaseKey, InRows;
    forall r | r in s.rows
      ensures Answered(c, s, s.rows, r)
    {
      assert RowOk(c, s, r);
      if r !in c.rows0 {
        var off :| Stored(c, s, r, off);
      }
    }
  }

  // ---------- the verdict on a row ----------

  /** Resolved, it is this object; a base is never missing; within reach it resolves, beyond it does not. */
  ghost predicate Verdict(m: Obj, o: Blob, within: bool, beyond: bool) {
    && (m.st == Ok ==> m == Obj(Ok, o.typ, o.bytes)) && m.st != NoBase
    && (within ==> m.st == Ok) && (beyond ==> m.st != Ok)
  }

  /** A delta resolves if and only if its base does and its stream and its result each fit half the scratch. */
  lemma HalfDecides(sto: Store, room: Room, h: Header, o: Obj)
    requires GoodZlib(sto.z) && o.st == Ok && room.half <= room.base && sto.z.inflate(h.rest, h.size).st == Ok
    requires Meaning(sto.z.inflate(h.rest, h.size).bytes, o.bytes, room.base).st == OK
    ensures var m := Meaning(sto.z.inflate(h.rest, h.size).bytes, o.bytes, room.base);
      Patched(sto, room, h, o)
      == if h.size <= room.half && |m.out| <= room.half then Obj(Ok, o.typ, m.out) else Bad(NoRoom)
  {
    hide Play, GoodZlib;
    var delta := sto.z.inflate(h.rest, h.size).bytes;
    var r := DrainSize(DrainSize(delta, 0, 0).rest, 0, 0);
    PlayBound(r.rest, o.bytes, r.val, []);
  }

  /** What a landed delta is over, and what it makes of it. */
  lemma DeltaObject(c: Ctx, off: nat)
    requires Good(c) && off in c.recs && Obj0(c, off).Some? && RecAt(c.w, c.src, off).Some?
    requires var rec := RecAt(c.w, c.src, off).value;
      IsDelta(rec.typ) && (rec.typ == OFS_DELTA ==> rec.baseOff in c.recs)
    ensures var rec := RecAt(c.w, c.src, off).value;
      var ob := ByKey(c, BaseKey(c, rec));
      && Key(c.w, ob) == BaseKey(c, rec) && ob in c.objs
      && c.w.z.inflate(rec.z, rec.size).st == Ok
      && Meaning(c.w.z.inflate(rec.z, rec.size).bytes, ob.bytes, c.w.room.base) == Outcome(OK, Obj0(c, off).value.bytes)
      && Obj0(c, off).value.typ == ob.typ
  {
    hide RecAt, Meaning, GoodZlib, HashesTell, ShardOk, CitesOwn, ByKey;
    var rec := RecAt(c.w, c.src, off).value;
    if rec.typ == OFS_DELTA {
      assert RecGood(c, rec.baseOff);
      KeyOne(c, Obj0(c, rec.baseOff).value);
    } else {
      NamedIs(c, rec.ref);
    }
  }

  lemma NamedIs(c: Ctx, ref: seq<Byte>)
    requires HashesTell(c.w, c.objs)
    ensures BySha(c.w, c.objs, ref).Some? ==>
      var o := BySha(c.w, c.objs, ref).value;
      o in c.objs && c.w.sha(o) == ref && ByKey(c, c.w.prefix(ref)) == o
  {
    if BySha(c.w, c.objs, ref).Some? {
      KeyOne(c, BySha(c.w, c.objs, ref).value);
    }
  }

  lemma RowLog(c: Ctx, s: State, r: Row)
    requires Good(c) && RowsOk(c, s) && r in s.rows
    ensures r.id in s.logs && |s.logs[r.id]| >= HEADER
  {
    hide Reads, StoredAs, GoodZlib, HashesTell, RecGood, Obj0, IsCopy, RecAt;
    assert RowOk(c, s, r);
    if r in c.rows0 {
      assert OldOk(c, r);
      LogGrew(c.logs0, s.logs, r.id);
    }
  }

  /** A cited name leads to a row of its prefix. */
  lemma NameLeads(c: Ctx, s: State, known: seq<Row>, p: Pick, top: Option<nat>, ref: seq<Byte>) returns (x: Row)
    requires Good(c) && RowsOk(c, s) && Answers(c, s, known, top) && GoodPick(p, known)
    requires InRows(known, c.w.prefix(ref))
    ensures x in s.rows && Under(top, x.id) && x.key == c.w.prefix(ref) && x.id in s.logs
    ensures var f := StoreOf(c.w, p, s.logs).find;
      f.Some? && f.value(ref) == Found(Ok, Loc(s.logs[x.id], x.off)) && s.logs[x.id] != []
  {
    hide Good, RowOk, Answered, GoodPick;
    PickFinds(p, known, c.w.prefix(ref));
    x := p(c.w.prefix(ref)).value;
    RowLog(c, s, x);
  }

  /** Every row under a finder that answers for it. */
  lemma {:induction false} RowReads(c: Ctx, s: State, known: seq<Row>, p: Pick, top: Option<nat>, r: Row, n: nat)
    requires Good(c) && RowsOk(c, s) && Answers(c, s, known, top) && GoodPick(p, known) && r in s.rows
    requires Under(top, r.id)
    ensures r.id in s.logs
    ensures Verdict(Meant(StoreOf(c.w, p, s.logs), c.w.room, Loc(s.logs[r.id], r.off), n), ByKey(c, r.key),
                    Within(c, r.key, n), Beyond(c, r.key, n))
    decreases n, 1
  {
    hide GoodPick, Reads, GoodZlib, HashesTell, Meant, ByKey, OldWithin, RecWithin, OldBeyond, RecBeyond, Obj0, RecAt,
      HeaderAt, StoredAs, Answers, LogsGrow, StoreOf, RecGood;
    RowLog(c, s, r);
    assert RowOk(c, s, r);
    if r in c.rows0 {
      assert OldOk(c, r);
      var d: nat, o :| OldIs(c, r, d, o);
      KeyOne(c, o);
      OldReads(c, s, known, p, top, r.id, r.off, d, o, n);
    } else {
      var off :| Stored(c, s, r, off);
      NewReads(c, s, known, p, top, r, off, n);
    }
  }

  /** A record of the shard before the run. */
  lemma {:induction false} OldReads(c: Ctx, s: State, known: seq<Row>, p: Pick, top: Option<nat>, id: nat, off: nat,
          d: nat, o: Blob, n: nat)
    requires Good(c) && RowsOk(c, s) && Answers(c, s, known, top) && GoodPick(p, known) && id in c.logs0
    requires Reads(OldStore(c), c.w.room, Loc(c.logs0[id], off), d, Obj(Ok, o.typ, o.bytes))
    ensures id in s.logs
    ensures Verdict(Meant(StoreOf(c.w, p, s.logs), c.w.room, Loc(s.logs[id], off), n), o,
                    OldWithin(c, id, off, n), OldBeyond(c, id, off, n))
    decreases n, 0
  {
    hide GoodPick, GoodZlib, HashesTell, ByKey, Within, Beyond, HeaderAt, Answers, LogsGrow, StoreOf, RecGood, RowOk,
      Meaning, ShardOk, OldStore, LocGrows, Patched, Whole;
    LogGrew(c.logs0, s.logs, id);
    var from, to := OldStore(c), StoreOf(c.w, p, s.logs);
    var a, b := Loc(c.logs0[id], off), Loc(s.logs[id], off);
    var room, ob := c.w.room, Obj(Ok, o.typ, o.bytes);
    SameZlib(c, p, s.logs);
    LocSame(a, b);
    HeaderGrows(a, b);
    var h := HeaderAt(a);
    var tail := b.pack[|a.pack|..];
    if IsBase(h.typ) {
      WholeGrows(from, to, room, h, tail, ob);
    } else if n > 0 {
      var u := BaseLoc(from, a, h).loc;
      var bo := Meant(from, room, u, d - 1);
      ReadsHeader(from, room, a, d, ob);
      ReadsHeader(from, room, u, d - 1, bo);
      var m: Obj;
      if h.typ == OFS_DELTA {
        OldReads(c, s, known, p, top, id, off - h.ofs, d - 1, Blob(bo.typ, bo.bytes), n - 1);
        m := Meant(to, room, Loc(s.logs[id], off - h.ofs), n - 1);
      } else {
        var x := OldName(c, s, known, p, top, a, h, d, ob);
        RowReads(c, s, known, p, top, x, n - 1);
        m := Meant(to, room, Loc(s.logs[x.id], x.off), n - 1);
      }
      assert Meant(to, room, b, n) == Patched(to, room, HeaderAt(b), m);
      if m.st == Ok {
        PatchedGrows(from, to, room, h, tail, bo, ob);
      } else {
        PatchedFails(to, room, HeaderAt(b), m);
      }
    }
  }

  lemma SameZlib(c: Ctx, p: Pick, logs: map<nat, seq<Byte>>)
    ensures OldStore(c).z == c.w.z == StoreOf(c.w, p, logs).z
  {
  }

  lemma LocSame(a: Loc, b: Loc)
    requires a.off == b.off && PackGrows(a.pack, b.pack)
    ensures LocGrows(a, b)
  {
  }

  lemma PatchedFails(sto: Store, room: Room, h: Header, m: Obj)
    requires m.st != Ok
    ensures Patched(sto, room, h, m) == m
  {
  }

  /** The shard's own lookup of a name: some row of the prefix, and the object it is. */
  lemma OldName(c: Ctx, s: State, known: seq<Row>, p: Pick, top: Option<nat>, a: Loc, h: Header, d: nat, o: Obj)
        returns (x: Row)
    requires Good(c) && RowsOk(c, s) && Answers(c, s, known, top) && GoodPick(p, known)
    requires Reads(OldStore(c), c.w.room, a, d, o) && h == HeaderAt(a) && !IsBase(h.typ) && h.typ != OFS_DELTA
    ensures h.typ == REF_DELTA
    ensures x in s.rows && Under(top, x.id) && x.key == c.w.prefix(h.ref) && x.id in s.logs && s.logs[x.id] != []
    ensures StoreOf(c.w, p, s.logs).find.Some?
    ensures StoreOf(c.w, p, s.logs).find.value(h.ref) == Found(Ok, Loc(s.logs[x.id], x.off))
    ensures d > 0 && BaseLoc(OldStore(c), a, h).st == Ok
    ensures var bo := Meant(OldStore(c), c.w.room, BaseLoc(OldStore(c), a, h).loc, d - 1);
      bo == Obj(Ok, ByKey(c, x.key).typ, ByKey(c, x.key).bytes)
  {
    hide GoodZlib, HashesTell, ByKey, HeaderAt, LogsGrow, RowOk, Meaning, Answered, RecGood, Meant, GoodPick, InRows,
      Patched, Whole;
    var key := c.w.prefix(h.ref);
    ShardPick(c);
    PickFinds(c.pick0, c.rows0, key);
    var r := c.pick0(key).value;
    assert OldOk(c, r);
    var e: nat, ob :| OldIs(c, r, e, ob);
    KeyOne(c, ob);
    var u := BaseLoc(OldStore(c), a, h).loc;
    ReadsOnce(OldStore(c), c.w.room, u, d - 1, Meant(OldStore(c), c.w.room, u, d - 1), e, Obj(Ok, ob.typ, ob.bytes));
    RowIn(known, r);
    x := NameLeads(c, s, known, p, top, h.ref);
  }

  lemma ShardPick(c: Ctx)
    requires Good(c)
    ensures GoodPick(c.pick0, c.rows0)
  {
    hide GoodPick, OldOk, RecGood, GoodZlib, HashesTell;
  }

  /** A landed source record. */
  lemma {:induction false} NewReads(c: Ctx, s: State, known: seq<Row>, p: Pick, top: Option<nat>, r: Row, off: nat,
          n: nat)
    requires Good(c) && RowsOk(c, s) && Answers(c, s, known, top) && GoodPick(p, known) && Under(top, r.id)
    requires r in s.rows && r !in c.rows0
    requires Stored(c, s, r, off)
    ensures Verdict(Meant(StoreOf(c.w, p, s.logs), c.w.room, Loc(s.logs[r.id], r.off), n), ByKey(c, r.key),
                    RecWithin(c, off, n), RecBeyond(c, off, n))
    decreases n, 0
  {
    hide GoodPick, GoodZlib, HashesTell, ByKey, Within, Beyond, HeaderAt, RecAt, LogsGrow, StoreOf, RecGood, RowOk,
      Meaning, ShardOk, Patched, Obj0, InRows, Answers, CitesBase;
    var sto, loc := StoreOf(c.w, p, s.logs), Loc(s.logs[r.id], r.off);
    var rec, h, o := RecAt(c.w, c.src, off).value, HeaderAt(loc), Obj0(c, off).value;
    SameZlib(c, p, s.logs);
    assert RecGood(c, off) && Key(c.w, o) == r.key;
    CopyIs(c, off, r.key);
    if !IsDelta(rec.typ) {
      WholeObject(c, off);
    } else if n == 0 {
      CitesTyp(c, s, r, h, BaseKey(c, rec));
    } else {
      DeltaObject(c, off);
      var m := BaseMeant(c, s, known, p, top, r, h, BaseKey(c, rec), n);
      assert Meant(sto, c.w.room, loc, n) == Patched(sto, c.w.room, h, m);
      var ob := ByKey(c, BaseKey(c, rec));
      if m.st == Ok {
        HalfDecides(sto, c.w.room, h, m);
      } else {
        PatchedFails(sto, c.w.room, h, m);
      }
    }
  }

  lemma CitesTyp(c: Ctx, s: State, r: Row, h: Header, key: nat)
    requires CitesBase(c, s, r, h, key)
    ensures !IsBase(h.typ)
  {
    hide InRows;
  }

  lemma CopyIs(c: Ctx, off: nat, key: nat)
    requires Good(c) && off in c.recs && IsCopy(c, off, key)
    ensures ByKey(c, key) == Obj0(c, off).value
  {
    hide ByKey, Obj0, RecAt, ShardOk;
    assert RecGood(c, off);
    KeyOne(c, Obj0(c, off).value);
  }

  lemma WholeObject(c: Ctx, off: nat)
    requires RecAt(c.w, c.src, off).Some? && Obj0(c, off).Some? && !IsDelta(RecAt(c.w, c.src, off).value.typ)
    ensures var rec := RecAt(c.w, c.src, off).value;
      && c.w.z.inflate(rec.z, rec.size).st == Ok
      && Obj0(c, off) == Some(Blob(rec.typ, c.w.z.inflate(rec.z, rec.size).bytes))
  {
    hide RecAt;
  }

  /** The base of a landed delta, wherever its citation leads. */
  lemma {:induction false} BaseMeant(c: Ctx, s: State, known: seq<Row>, p: Pick, top: Option<nat>, r: Row, h: Header,
          key: nat, n: nat) returns (m: Obj)
    requires Good(c) && RowsOk(c, s) && Answers(c, s, known, top) && GoodPick(p, known) && Under(top, r.id)
    requires r in s.rows && r !in c.rows0 && n > 0
    requires r.id in s.logs && h == HeaderAt(Loc(s.logs[r.id], r.off)) && CitesBase(c, s, r, h, key)
    ensures var b := BaseLoc(StoreOf(c.w, p, s.logs), Loc(s.logs[r.id], r.off), h);
      b.st == Ok && m == Meant(StoreOf(c.w, p, s.logs), c.w.room, b.loc, n - 1)
    ensures !IsBase(h.typ) && Verdict(m, ByKey(c, key), Within(c, key, n - 1), Beyond(c, key, n - 1))
    decreases n - 1, 2
  {
    hide GoodPick, Good, RowsOk, ByKey, Within, Beyond, HeaderAt, StoreOf, Meant;
    var loc := Loc(s.logs[r.id], r.off);
    var x: Row;
    if h.typ == OFS_DELTA {
      x :| x in s.rows && IsAt(x, r.id, r.off - h.ofs, key);
    } else {
      assert Answered(c, s, known, r);
      x := NameLeads(c, s, known, p, top, h.ref);
    }
    RowReads(c, s, known, p, top, x, n - 1);
    m := Meant(StoreOf(c.w, p, s.logs), c.w.room, BaseLoc(StoreOf(c.w, p, s.logs), loc, h).loc, n - 1);
  }
}
