/** The repacker's lanes, and what one landing needs and keeps. */
module RepackSteps {
  import opened Common
  import opened DeltaFormat
  import opened DeltaCodec
  import opened PackFormat
  import opened PackResolve
  import opened PackWrite
  import opened RepackChain
  import opened RepackState
  import opened RepackRows
  import opened RepackInv
  import opened RepackEmit
  import opened RepackLayout

  // ---------- the lanes ----------

  predicate Ascends(map_: seq<MapRow>) {
    forall i, j | 0 <= i < j < |map_| :: map_[i].key < map_[j].key
  }

  /** The map row of a source offset, or -1. */
  method MapFind(map_: seq<MapRow>, key: nat) returns (at: int)
    requires Ascends(map_)
    ensures -1 <= at < |map_|
    ensures at >= 0 ==> map_[at].key == key
    ensures at < 0 ==> forall i | 0 <= i < |map_| :: map_[i].key != key
  {
    var lo, hi := 0, |map_|;
    while lo < hi
      invariant 0 <= lo <= hi <= |map_|
      invariant forall i | 0 <= i < lo :: map_[i].key < key
      invariant forall i | hi <= i < |map_| :: map_[i].key > key
    {
      var mid := lo + (hi - lo) / 2;
      if map_[mid].key == key {
        return mid;
      }
      if map_[mid].key < key {
        lo := mid + 1;
      } else {
        hi := mid;
      }
    }
    at := -1;
  }

  lemma WaitKeys(wait: seq<WaitRow>, i: nat, j: nat)
    requires WaitSorted(wait) && i <= j < |wait|
    ensures wait[i].key <= wait[j].key
  {
    hide WaitSorted;
    if i < j {
      WaitAt(wait, i, j);
    }
  }

  /** The first row waiting for a prefix, or -1. */
  method WaitFind(wait: seq<WaitRow>, key: nat) returns (at: int)
    requires WaitSorted(wait)
    ensures -1 <= at < |wait|
    ensures at >= 0 ==> wait[at].key == key && (at > 0 ==> wait[at - 1].key != key)
    ensures at < 0 ==> forall wr | wr in wait :: wr.key != key
  {
    hide WaitSorted;
    var lo, hi := 0, |wait|;
    while lo < hi
      invariant 0 <= lo <= hi <= |wait|
      invariant forall i | 0 <= i < lo :: wait[i].key < key
      invariant forall i | hi <= i < |wait| :: wait[i].key >= key
    {
      var mid := lo + (hi - lo) / 2;
      if wait[mid].key < key {
        forall i | 0 <= i <= mid
          ensures wait[i].key < key
        {
          WaitKeys(wait, i, mid);
        }
        lo := mid + 1;
      } else {
        forall i | mid <= i < |wait|
          ensures wait[i].key >= key
        {
          WaitKeys(wait, mid, i);
        }
        hi := mid;
      }
    }
    if lo == |wait| || wait[lo].key != key {
      forall i | lo <= i < |wait|
        ensures wait[i].key != key
      {
        WaitKeys(wait, lo, i);
      }
      return -1;
    }
    at := lo;
  }

  /** Adds a row and sorts. */
  method WaitAdd(wait: seq<WaitRow>, row: WaitRow) returns (r: seq<WaitRow>)
    requires WaitSorted(wait) && row !in wait
    ensures WaitSorted(r) && |r| == |wait| + 1 && forall x :: x in r <==> x in wait || x == row
  {
    var i := |wait|;
    while i > 0 && WaitLt(row, wait[i - 1])
      invariant 0 <= i <= |wait|
      invariant forall j | i <= j < |wait| :: WaitLt(row, wait[j])
    {
      i := i - 1;
    }
    r := wait[..i] + [row] + wait[i..];
    if i > 0 {
      assert wait[i - 1] in wait;
    }
    forall a, b | 0 <= a < b < |r|
      ensures WaitLt(r[a], r[b])
    {
      assert a < i && b == i && a < i - 1 ==> WaitLt(wait[a], wait[i - 1]);
    }
    assert wait == wait[..i] + wait[i..];
  }

  // ---------- growth over a whole call ----------

  /** Logs and rows were only added to, and what landed stays landed. */
  ghost predicate Grown(s: State, t: State) {
    LogsGrow(s.logs, t.logs) && s.rows <= t.rows && forall m | m in s.map_ && m.val.Landed? :: m in t.map_
  }

  lemma GrownTrans(s: State, t: State, u: State)
    requires Grown(s, t) && Grown(t, u)
    ensures Grown(s, u)
  {
    hide LogsGrow;
    LogsGrowTrans(s.logs, t.logs, u.logs);
  }

  lemma GrownRefl(s: State)
    requires forall id | id in s.logs :: |s.logs[id]| >= HEADER
    ensures Grown(s, s)
  {
    LogsGrowRefl(s.logs);
  }

  lemma GrownShows(s: State, t: State, u: State)
    requires Grown(s, t) && u.rows == t.rows && u.logs == t.logs && t.map_ <= u.map_
    ensures Grown(s, u)
  {
    hide LogsGrow;
  }

  lemma GrownIn(s: State, t: State, key: nat)
    requires Grown(s, t) && InRows(s.rows, key)
    ensures InRows(t.rows, key)
  {
    hide LogsGrow;
    InRowsMore(s.rows, t.rows, key);
  }

  // ---------- facts the steps use ----------

  lemma MapAscends(c: Ctx, s: State, offs: seq<nat>, busy: int)
    requires Good(c) && Inv(c, s, offs, busy)
    ensures Ascends(s.map_)
  {
    hide Good, RowsOk, PlaceOk, WaitOk, WaitSorted;
    forall i, j | 0 <= i < j < |s.map_|
      ensures s.map_[i].key < s.map_[j].key
    {
      OffsAscend(c, offs, i, j);
    }
  }

  lemma InvWaits(c: Ctx, s: State, offs: seq<nat>, busy: int)
    requires Inv(c, s, offs, busy)
    ensures WaitSorted(s.wait) && RowsOk(c, s)
    ensures forall wr | wr in s.wait :: wr.slot < |s.holds|
    ensures forall id | id in s.logs :: |s.logs[id]| >= HEADER
  {
    hide RowsOk, PlaceOk, WaitSorted, HoldOk;
    RowsLogs(c, s);
    forall wr | wr in s.wait
      ensures wr.slot < |s.holds|
    {
      assert WaitOk(c, s, busy, wr);
    }
  }

  /** The next source record is not in the map yet. */
  lemma NotMapped(c: Ctx, s: State, offs: seq<nat>, busy: int)
    requires Good(c) && Inv(c, s, offs, busy) && |offs| < |c.recs|
    ensures forall m | m in s.map_ :: m.key != c.recs[|offs|]
  {
    hide RowsOk, PlaceOk, WaitOk, WaitSorted, RecGood, HashesTell, ShardOk;
    forall m | m in s.map_
      ensures m.key != c.recs[|offs|]
    {
      var i :| 0 <= i < |s.map_| && s.map_[i] == m;
      assert m.key == offs[i] == c.recs[i];
    }
  }

  lemma HeldSlot(c: Ctx, s: State, offs: seq<nat>, busy: int, i: nat)
    requires Inv(c, s, offs, busy) && i < |s.map_| && s.map_[i].val.Held?
    ensures HeldOk(s, s.map_[i].key, s.map_[i].val.slot, busy)
  {
    assert PlaceOk(c, s, busy, s.map_[i]);
  }

  /** Why the record at hand cannot land: it must be held, or it was held under `key` and must be again. */
  ghost predicate Waits(c: Ctx, s: State, busy: int, rec: Rec, key: nat) {
    if busy == -1 then MustWait(c, s, rec, key)
    else 0 <= busy < |s.holds| && key == s.holds[busy].key && !InRows(s.rows, key)
  }

  /** A record over a held base must wait where its base waits. */
  lemma HeldMustWait(c: Ctx, s: State, offs: seq<nat>, busy: int, rec: Rec, i: nat)
    requires Good(c) && Inv(c, s, offs, busy) && -1 <= busy && (busy == -1 ==> Quiet(s, {})) && rec.typ == OFS_DELTA
    requires i < |s.map_| && s.map_[i].key == rec.baseOff && s.map_[i].val.Held?
    requires rec.off in c.recs && Some(rec) == RecAt(c.w, c.src, rec.off) && rec.baseOff < rec.off
    requires busy != -1 ==> TakenOk(c, s, offs, busy) && s.holds[busy].rec == rec
    ensures s.map_[i].val.slot < |s.holds| && Waits(c, s, busy, rec, s.holds[s.map_[i].val.slot].key)
  {
    hide Good, Inv, InRows, HeldUnder, RecAt;
    assert s.map_[i] in s.map_;
    if busy != -1 {
      var m :| m in s.map_ && BaseRow(s, s.holds[busy], busy, m);
      MapOne(c, s, offs, busy, s.map_[i], m);
      if InRows(s.rows, s.holds[busy].key) {
        var m' :| m' in s.map_ && m'.key == rec.baseOff && m'.val.Landed?;
        MapOne(c, s, offs, busy, m, m');
      }
    } else {
      HeldSlot(c, s, offs, busy, i);
      var slot := s.map_[i].val.slot;
      assert WaitRow(s.holds[slot].key, slot) in s.wait;
      HeldNamed(c, s, offs, i);
      HeldOver(c, rec, s.holds[slot].key);
    }
  }

  lemma HeldOver(c: Ctx, rec: Rec, key: nat)
    requires rec.off in c.recs && Some(rec) == RecAt(c.w, c.src, rec.off)
    requires rec.typ == OFS_DELTA && rec.baseOff < rec.off && HeldUnder(c, rec.baseOff, key)
    ensures HeldUnder(c, rec.off, key)
  {
    hide RecAt;
  }

  lemma MapOne(c: Ctx, s: State, offs: seq<nat>, busy: int, a: MapRow, b: MapRow)
    requires Good(c) && Inv(c, s, offs, busy) && a in s.map_ && b in s.map_ && a.key == b.key
    ensures a == b
  {
    hide Good, Inv;
    var i :| 0 <= i < |s.map_| && s.map_[i] == a;
    var j :| 0 <= j < |s.map_| && s.map_[j] == b;
    MapOnce(c, s, offs, busy, i, j);
  }

  lemma HeldNamed(c: Ctx, s: State, offs: seq<nat>, i: nat)
    requires Inv(c, s, offs, -1) && i < |s.map_| && s.map_[i].val.Held?
    ensures s.map_[i].val.slot < |s.holds| && HeldUnder(c, s.map_[i].key, s.holds[s.map_[i].val.slot].key)
  {
    hide RowsOk, HeldUnder;
    HeldSlot(c, s, offs, -1, i);
    var slot := s.map_[i].val.slot;
    assert WaitOk(c, s, -1, WaitRow(s.holds[slot].key, slot));
  }

  /** A record over a named base that is not indexed must wait. */
  lemma MissingMustWait(c: Ctx, s: State, offs: seq<nat>, busy: int, rec: Rec)
    requires rec.typ == REF_DELTA && !InRows(s.rows, c.w.prefix(rec.ref)) && -1 <= busy
    requires rec.off in c.recs && Some(rec) == RecAt(c.w, c.src, rec.off)
    requires busy != -1 ==> TakenOk(c, s, offs, busy) && s.holds[busy].rec == rec
    ensures Waits(c, s, busy, rec, c.w.prefix(rec.ref))
  {
    hide InRows, RecAt;
    assert NamesIt(c, rec.off, c.w.prefix(rec.ref));
  }

  /** A record taken out of the lane whose base is found: what it waited for has landed. */
  lemma FoundWoken(c: Ctx, s: State, offs: seq<nat>, busy: int, rec: Rec, m: MapRow)
    requires Good(c) && Inv(c, s, offs, busy) && busy >= 0 && TakenOk(c, s, offs, busy) && s.holds[busy].rec == rec
    requires if rec.typ == OFS_DELTA then m in s.map_ && m.key == rec.baseOff && m.val.Landed?
             else rec.typ == REF_DELTA && InRows(s.rows, c.w.prefix(rec.ref))
    ensures WokenOk(c, s, offs, busy) && BaseReady(c, s, rec)
  {
    hide Good, Inv, InRows, HeldUnder, RecAt;
    if rec.typ == OFS_DELTA {
      var m' :| m' in s.map_ && BaseRow(s, s.holds[busy], busy, m');
      MapOne(c, s, offs, busy, m, m');
    }
  }

  /** The state after a landing: the record's bytes, its row, its place in the map. */
  ghost predicate Lands(c: Ctx, s: State, t: State, cur: nat, rec: Rec, base: Option<Row>, sha: seq<Byte>, o: Blob,
          at: int) {
    && Wrote(c, s, t, cur, rec, base, sha, o) && t.wait == s.wait && t.holds == s.holds
    && var m := MapRow(rec.off, Landed(cur, |s.logs[cur]|));
    if 0 <= at < |s.map_| then s.map_[at].key == rec.off && t.map_ == s.map_[at := m]
    else (forall x | x in s.map_ :: x.key != rec.off) && t.map_ == s.map_ + [m]
  }

  /** A landing keeps the invariant; only its own prefix may have to be woken. */
  lemma Landing(c: Ctx, s: State, t: State, offs: seq<nat>, busy: int, waking: set<nat>, cur: nat, rec: Rec,
        base: Option<Row>, sha: seq<Byte>, o: Blob, at: int)
    requires Good(c) && Inv(c, s, offs, busy) && Quiet(s, waking) && -1 <= busy
    requires busy == -1 ==> |offs| < |c.recs| && rec.off == c.recs[|offs|]
    requires busy != -1 ==> WokenOk(c, s, offs, busy) && s.holds[busy].rec.off == rec.off
    requires Lands(c, s, t, cur, rec, base, sha, o, at)
    requires rec.off in c.recs && Some(rec) == RecAt(c.w, c.src, rec.off) && rec.size <= c.w.room.base
    requires |s.logs[cur]| < U64
    requires ContentOk(c, rec, o) && ShaOk(c, cur, base, sha) && (base.Some? <==> IsDelta(rec.typ))
    requires base.Some? ==> BaseHere(c, s, rec, base.value) && IsBase(base.value.typ)
    ensures var offs' := if busy == -1 then offs + [rec.off] else offs;
      && Inv(c, t, offs', -1) && Quiet(t, waking + {Key(c.w, o)}) && LogsGrow(s.logs, t.logs)
  {
    hide Good, Inv, Quiet, RecAt, RowOk, Obj0, Emitted, BaseHere, ShaOk, GoodZlib, LogsGrow, WokenOk, PackGrows, RowsOk,
      Stored, CanLand;
    InvWaits(c, s, offs, busy);
    if busy == -1 {
      NotMapped(c, s, offs, busy);
    } else {
      BusyOnly(c, s, offs, busy, rec.off);
      BusyMapped(c, s, offs, busy);
    }
    NewRow(c, s, t, cur, rec, base, sha, o);
    LogsAppend(s, t, cur, Emitted(rec, s.logs[cur], cur, base, sha));
    var r := Row(Key(c.w, o), o.typ, cur, |s.logs[cur]|);
    var offs' := if busy == -1 then offs + [rec.off] else offs;
    if busy != -1 {
      assert Patches(s.map_, t.map_, rec.off, Landed(r.id, r.off));
    }
    assert LandsAs(c, s, t, offs, offs', busy, rec.off, r);
    StoredRow(c, t, r, rec.off);
    LandKeeps(c, s, t, offs, offs', busy, rec.off, r, waking);
  }

  lemma StoredRow(c: Ctx, t: State, r: Row, off: nat)
    requires Stored(c, t, r, off)
    ensures RowOk(c, t, r) && IsCopy(c, off, r.key) && r.typ == Obj0(c, off).value.typ && CanLand(c, off)
  {
    hide StoredAs, Obj0, RecAt, CanLand;
  }

  lemma BusyMapped(c: Ctx, s: State, offs: seq<nat>, busy: int)
    requires busy >= 0 && WokenOk(c, s, offs, busy)
    ensures exists m :: m in s.map_ && m.key == s.holds[busy].rec.off
  {
  }
}
