/** Where no object comes twice, neither in the pack nor in the shard, the depth of its one copy decides. */
module RepackOnce {
  import opened Common
  import opened DeltaFormat
  import opened DeltaCodec
  import opened PackFormat
  import opened PackResolve
  import opened RepackChain
  import opened RepackState
  import opened RepackRows
  import opened RepackDepth
  import opened RepackRead
  import opened RepackOutcome

  /** No two rows of the shard, no two source records, no row and record are of one object. */
  ghost predicate Once(c: Ctx) {
    && (forall q, r | q in c.rows0 && r in c.rows0 && q.key == r.key :: q == r)
    && (forall r, off | r in c.rows0 && off in c.recs :: !IsCopy(c, off, r.key))
    && (forall off, p | off in c.recs && p in c.recs && Obj0(c, off).Some? && Obj0(c, off) == Obj0(c, p) :: off == p)
  }

  lemma OnceOld(c: Ctx, r: Row)
    requires Once(c) && r in c.rows0
    ensures OnlyOld(c, r.key, r)
  {
    hide Obj0;
  }

  lemma OnceRec(c: Ctx, off: nat, key: nat)
    requires Good(c) && Once(c) && off in c.recs && IsCopy(c, off, key)
    ensures OnlyRec(c, key, off)
  {
    hide Obj0, RecAt, GoodZlib, ShardOk, CitesOwn;
    assert RecGood(c, off);
    forall p | p in c.recs && IsCopy(c, p, key)
      ensures p == off
    {
      assert RecGood(c, p);
    }
  }

  /** Everything indexed comes in one copy, all the way down. */
  lemma {:induction false} OnceAlone(c: Ctx, s: State, r: Row, n: nat)
    requires Good(c) && RowsOk(c, s) && Once(c) && r in s.rows
    ensures Alone(c, r.key, n)
    decreases n, 1
  {
    hide Good, Once, StoredAs, OnlyOld, OnlyRec, RecAlone, OldAlone, Reads, Obj0, LogsGrow, CanLand;
    assert RowOk(c, s, r);
    if r in c.rows0 {
      ShardRow(c, r);
      var d: nat, o :| OldIs(c, r, d, o);
      OnceOld(c, r);
      OnceDown(c, s, r.id, r.off, d, Obj(Ok, o.typ, o.bytes), n);
    } else {
      var off :| Stored(c, s, r, off);
      OnceRec(c, off, r.key);
      OnceRecord(c, s, r, off, n);
    }
  }

  lemma ShardRow(c: Ctx, r: Row)
    requires Good(c) && r in c.rows0
    ensures OldOk(c, r)
  {
    hide OldOk, RecGood, GoodZlib, HashesTell;
  }

  lemma {:induction false} OnceRecord(c: Ctx, s: State, r: Row, off: nat, n: nat)
    requires Good(c) && RowsOk(c, s) && Once(c) && Stored(c, s, r, off)
    ensures RecAlone(c, off, n)
    decreases n, 0
  {
    hide Good, RowsOk, Once, Alone, HeaderAt, Obj0, RecAt, BaseKey, InRows, CanLand, IsCopy;
    var rec := RecAt(c.w, c.src, off).value;
    if IsDelta(rec.typ) && n > 0 {
      var b := BaseIn(c, s, r, HeaderAt(Loc(s.logs[r.id], r.off)), BaseKey(c, rec));
      OnceAlone(c, s, b, n - 1);
    }
  }

  lemma BaseIn(c: Ctx, s: State, r: Row, h: Header, key: nat) returns (b: Row)
    requires CitesBase(c, s, r, h, key)
    ensures b in s.rows && b.key == key
  {
    if h.typ == OFS_DELTA && exists x :: x in s.rows && IsAt(x, r.id, r.off - h.ofs, key) {
      b :| b in s.rows && IsAt(b, r.id, r.off - h.ofs, key);
    } else {
      var i :| 0 <= i < |s.rows| && s.rows[i].key == key;
      b := s.rows[i];
    }
  }

  lemma {:induction false} OnceDown(c: Ctx, s: State, id: nat, off: nat, d: nat, o: Obj, n: nat)
    requires Good(c) && RowsOk(c, s) && Once(c) && id in c.logs0
    requires Reads(OldStore(c), c.w.room, Loc(c.logs0[id], off), d, o)
    ensures OldAlone(c, id, off, n)
    decreases n, 0
  {
    hide Good, Once, Alone, HeaderAt, LogsGrow, RowOk, Reads, Meant, InRows, GoodPick;
    var a := Loc(c.logs0[id], off);
    var h := HeaderAt(a);
    ReadsHeader(OldStore(c), c.w.room, a, d, o);
    if !IsBase(h.typ) && n > 0 {
      var u := BaseLoc(OldStore(c), a, h).loc;
      if h.typ == OFS_DELTA {
        OnceDown(c, s, id, off - h.ofs, d - 1, Meant(OldStore(c), c.w.room, u, d - 1), n - 1);
      } else {
        ShardPick(c);
        PickFinds(c.pick0, c.rows0, c.w.prefix(h.ref));
        OnceAlone(c, s, c.pick0(c.w.prefix(h.ref)).value, n - 1);
      }
    }
  }

  /** After an OK run every source object resolves if and only if it is within 256 deltas, if no object came twice. */
  lemma OnceDecides(c: Ctx, s: State, p: Pick, off: nat, r: Row)
    requires Good(c) && RowsOk(c, s) && Once(c) && off in c.recs && Preserved(c, s, off) && GoodPick(p, s.rows)
    requires r in s.rows && Obj0(c, off).Some? && r.key == Key(c.w, Obj0(c, off).value)
    ensures r.id in s.logs
    ensures var m := Meant(StoreOf(c.w, p, s.logs), c.w.room, Loc(s.logs[r.id], r.off), CHAIN_MAX);
      m.st == Ok <==> RecWithin(c, off, CHAIN_MAX)
  {
    hide Good, RowsOk, Once, Alone, Beyond, RecWithin, Meant, Obj0, Verdict, GoodPick;
    OnceAlone(c, s, r, CHAIN_MAX);
    OnceRec(c, off, r.key);
    assert ReadsAs(c, s, p, r, Obj0(c, off).value);
    assert IsCopy(c, off, r.key);
    assert Within(c, r.key, CHAIN_MAX) <==> RecWithin(c, off, CHAIN_MAX) by {
      OnlyWithin(c, r.key, off, CHAIN_MAX);
    }
  }

  lemma OnlyWithin(c: Ctx, key: nat, off: nat, n: nat)
    requires OnlyRec(c, key, off)
    ensures Within(c, key, n) <==> RecWithin(c, off, n)
  {
    hide IsCopy, RecWithin, OldWithin;
  }
}
