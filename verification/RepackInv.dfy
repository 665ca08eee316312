/** What holds at every step of a repack: consumed is landed plus held, and every row is a landed source record. */
module RepackInv {
  import opened Common
  import opened DeltaFormat
  import opened DeltaCodec
  import opened PackFormat
  import opened PackResolve
  import opened RepackChain
  import opened RepackState
  import opened RepackRows

  /** Landed: an index row points there and stands for the source record's own object. */
  ghost predicate LandedOk(c: Ctx, s: State, key: nat, id: nat, off: nat) {
    && Obj0(c, key).Some? && CanLand(c, key)
    && var o := Obj0(c, key).value;
    Row(Key(c.w, o), o.typ, id, off) in s.rows
  }

  /** Held: its slot remembers it, and exactly its own wait row waits, unless it is being landed just now. */
  ghost predicate HeldOk(s: State, key: nat, slot: nat, busy: int) {
    && slot < |s.holds| && s.holds[slot].rec.off == key
    && (slot != busy ==> WaitRow(s.holds[slot].key, slot) in s.wait)
  }

  ghost predicate PlaceOk(c: Ctx, s: State, busy: int, m: MapRow) {
    match m.val
    case Landed(id, off) => LandedOk(c, s, m.key, id, off)
    case Held(slot) => HeldOk(s, m.key, slot, busy)
  }

  /** A held record: what it is, and why it waits where it waits. */
  ghost predicate HoldOk(c: Ctx, s: State, slot: nat)
    requires slot < |s.holds|
  {
    var h := s.holds[slot];
    && h.rec.off in c.recs && Some(h.rec) == RecAt(c.w, c.src, h.rec.off) && h.rec.size <= c.w.room.base
    && IsDelta(h.rec.typ) && HeldUnder(c, h.rec.off, h.key)
    && (h.rec.typ == REF_DELTA ==> h.key == c.w.prefix(h.rec.ref))
    && (h.rec.typ == OFS_DELTA ==> exists m :: m in s.map_ && BaseRow(s, h, slot, m))
  }

  /** The base of a held offset delta: held earlier under the same prefix, or landed, and then the prefix is indexed. */
  ghost predicate BaseRow(s: State, h: Hold, slot: nat, m: MapRow) {
    && m.key == h.rec.baseOff
    && (m.val.Held? ==> m.val.slot < slot && m.val.slot < |s.holds| && s.holds[m.val.slot].key == h.key)
    && (m.val.Landed? ==> InRows(s.rows, h.key))
  }

  ghost predicate WaitOk(c: Ctx, s: State, busy: int, wr: WaitRow) {
    && wr.slot < |s.holds| && s.holds[wr.slot].key == wr.key && wr.slot != busy
    && MapRow(s.holds[wr.slot].rec.off, Held(wr.slot)) in s.map_
    && HoldOk(c, s, wr.slot)
  }

  predicate WaitLt(a: WaitRow, b: WaitRow) {
    a.key < b.key || (a.key == b.key && a.slot < b.slot)
  }

  ghost predicate WaitSorted(wait: seq<WaitRow>) {
    forall i, j | 0 <= i < j < |wait| :: WaitLt(wait[i], wait[j])
  }

  /** Consumed so far: `offs`, in order, each with one map row; everything landed is indexed; everything held
    * waits in one row; `busy` is the slot being landed just now, or -1. */
  ghost predicate Inv(c: Ctx, s: State, offs: seq<nat>, busy: int) {
    && RowsOk(c, s)
    && offs <= c.recs && |s.map_| == |offs| && (forall k | 0 <= k < |offs| :: s.map_[k].key == offs[k])
    && (forall m | m in s.map_ :: PlaceOk(c, s, busy, m))
    && (forall wr | wr in s.wait :: WaitOk(c, s, busy, wr))
    && WaitSorted(s.wait)
  }

  /** Nothing waits for a prefix already in the index, but for the ones being woken. */
  ghost predicate Quiet(s: State, waking: set<nat>) {
    forall wr | wr in s.wait && InRows(s.rows, wr.key) :: wr.key in waking
  }

  // ---------- maps ----------

  lemma OffsAscend(c: Ctx, offs: seq<nat>, i: nat, j: nat)
    requires Good(c) && offs <= c.recs && i < j < |offs|
    ensures offs[i] < offs[j]
  {
    assert offs[i] == c.recs[i] && offs[j] == c.recs[j];
  }

  /** One row per consumed offset. */
  lemma MapOnce(c: Ctx, s: State, offs: seq<nat>, busy: int, i: nat, j: nat)
    requires Good(c) && Inv(c, s, offs, busy) && i < |s.map_| && j < |s.map_| && s.map_[i].key == s.map_[j].key
    ensures i == j
  {
    if i < j {
      OffsAscend(c, offs, i, j);
    } else if j < i {
      OffsAscend(c, offs, j, i);
    }
  }

  lemma MapHas(c: Ctx, s: State, offs: seq<nat>, busy: int, off: nat) returns (i: nat)
    requires Inv(c, s, offs, busy) && off in offs
    ensures i < |s.map_| && s.map_[i].key == off && PlaceOk(c, s, busy, s.map_[i])
  {
    i :| 0 <= i < |offs| && offs[i] == off;
    assert s.map_[i] in s.map_;
  }

  // ---------- holding a record back ----------

  /** The new state after a record is held under `key`. */
  function Parked(s: State, rec: Rec, key: nat, wait: seq<WaitRow>): State {
    s.(map_ := s.map_ + [MapRow(rec.off, Held(|s.holds|))], holds := s.holds + [Hold(rec, key)], wait := wait)
  }

  lemma ParkPlaces(c: Ctx, s: State, rec: Rec, key: nat, wait: seq<WaitRow>, m: MapRow)
    requires PlaceOk(c, s, -1, m)
    requires forall wr :: wr in wait <==> wr in s.wait || wr == WaitRow(key, |s.holds|)
    ensures PlaceOk(c, Parked(s, rec, key, wait), -1, m)
  {
  }

  lemma ParkWaits(c: Ctx, s: State, rec: Rec, key: nat, wait: seq<WaitRow>, wr: WaitRow)
    requires WaitOk(c, s, -1, wr)
    ensures WaitOk(c, Parked(s, rec, key, wait), -1, wr)
  {
    var t := Parked(s, rec, key, wait);
    var h := s.holds[wr.slot];
    if h.rec.typ == OFS_DELTA {
      var m :| m in s.map_ && BaseRow(s, h, wr.slot, m);
      assert m in t.map_ && BaseRow(t, h, wr.slot, m);
    }
  }

  ghost predicate HeldAs(s: State, m: MapRow, key: nat) {
    m.val.Held? && m.val.slot < |s.holds| && s.holds[m.val.slot].key == key
  }

  /** Why a record must wait: its named base is not indexed, or its base is itself held. */
  ghost predicate MustWait(c: Ctx, s: State, rec: Rec, key: nat) {
    && !InRows(s.rows, key) && IsDelta(rec.typ) && HeldUnder(c, rec.off, key)
    && (rec.typ == REF_DELTA ==> key == c.w.prefix(rec.ref))
    && (rec.typ == OFS_DELTA ==> exists m :: m in s.map_ && m.key == rec.baseOff && HeldAs(s, m, key))
  }

  lemma ParkKeeps(c: Ctx, s: State, offs: seq<nat>, rec: Rec, key: nat, wait: seq<WaitRow>)
    requires Good(c) && Inv(c, s, offs, -1) && Quiet(s, {}) && |offs| < |c.recs| && rec.off == c.recs[|offs|]
    requires Some(rec) == RecAt(c.w, c.src, rec.off) && rec.size <= c.w.room.base && MustWait(c, s, rec, key)
    requires WaitSorted(wait) && forall wr :: wr in wait <==> wr in s.wait || wr == WaitRow(key, |s.holds|)
    ensures Inv(c, Parked(s, rec, key, wait), offs + [rec.off], -1)
    ensures Quiet(Parked(s, rec, key, wait), {})
  {
    hide PlaceOk, Good, WaitSorted, RowsOk, WaitOk, HoldOk, RecAt, Obj0;
    var t, slot := Parked(s, rec, key, wait), |s.holds|;
    RowsSame(c, s, t);
    forall m | m in t.map_
      ensures PlaceOk(c, t, -1, m)
    {
      if m in s.map_ {
        assert PlaceOk(c, s, -1, m);
        ParkPlaces(c, s, rec, key, wait, m);
      } else {
        ParkedPlace(c, s, rec, key, wait);
      }
    }
    ParkedWait(c, s, rec, key, wait);
    forall wr | wr in t.wait
      ensures WaitOk(c, t, -1, wr)
    {
      if wr in s.wait {
        assert WaitOk(c, s, -1, wr);
        ParkWaits(c, s, rec, key, wait, wr);
      }
    }
    RecIn(c, offs);
  }

  lemma RecIn(c: Ctx, offs: seq<nat>)
    requires |offs| < |c.recs| && offs <= c.recs
    ensures c.recs[|offs|] in c.recs && offs + [c.recs[|offs|]] <= c.recs
  {
  }

  lemma ParkedPlace(c: Ctx, s: State, rec: Rec, key: nat, wait: seq<WaitRow>)
    requires forall wr :: wr in wait <==> wr in s.wait || wr == WaitRow(key, |s.holds|)
    ensures PlaceOk(c, Parked(s, rec, key, wait), -1, MapRow(rec.off, Held(|s.holds|)))
  {
  }

  lemma ParkedWait(c: Ctx, s: State, rec: Rec, key: nat, wait: seq<WaitRow>)
    requires rec.off in c.recs && Some(rec) == RecAt(c.w, c.src, rec.off) && rec.size <= c.w.room.base
    requires MustWait(c, s, rec, key)
    ensures WaitOk(c, Parked(s, rec, key, wait), -1, WaitRow(key, |s.holds|))
  {
    var t, h := Parked(s, rec, key, wait), Hold(rec, key);
    assert MapRow(rec.off, Held(|s.holds|)) in t.map_;
    if rec.typ == OFS_DELTA {
      var m :| m in s.map_ && m.key == rec.baseOff && HeldAs(s, m, key);
      assert m in t.map_ && BaseRow(t, h, |s.holds|, m);
    }
  }

  // ---------- logs that grow ----------

  /** A new log, or a patched header: nothing the index or the map says changes. */
  lemma RotateKeeps(c: Ctx, s: State, t: State, offs: seq<nat>, busy: int)
    requires Good(c) && Inv(c, s, offs, busy) && t == s.(logs := t.logs) && LogsGrow(s.logs, t.logs)
    requires forall id | id in t.logs :: |t.logs[id]| >= HEADER
    ensures Inv(c, t, offs, busy)
  {
    hide RowsOk, RecGood, HashesTell, WaitSorted, PlaceOk, WaitOk, LogsGrow;
    RotateRows(c, s, t);
    forall m | m in t.map_
      ensures PlaceOk(c, t, busy, m)
    {
      assert PlaceOk(c, s, busy, m);
      PlaceSame(c, s, t, busy, m);
    }
    forall wr | wr in t.wait
      ensures WaitOk(c, t, busy, wr)
    {
      assert WaitOk(c, s, busy, wr);
      WaitSame(c, s, t, busy, wr);
    }
  }

  lemma RotateRows(c: Ctx, s: State, t: State)
    requires Good(c) && RowsOk(c, s) && t.rows == s.rows && LogsGrow(s.logs, t.logs)
    requires forall id | id in t.logs :: |t.logs[id]| >= HEADER
    ensures RowsOk(c, t)
  {
    hide RowsOk, RecGood, HashesTell, LogsGrow, ShardOk, GoodZlib;
    assert t.rows[|s.rows|..] == [];
    RowsGrow(c, s, t);
  }

  lemma PlaceSame(c: Ctx, s: State, t: State, busy: int, m: MapRow)
    requires PlaceOk(c, s, busy, m) && t.rows == s.rows && t.holds == s.holds && t.wait == s.wait
    ensures PlaceOk(c, t, busy, m)
  {
  }

  lemma WaitSame(c: Ctx, s: State, t: State, busy: int, wr: WaitRow)
    requires WaitOk(c, s, busy, wr) && t.map_ == s.map_ && t.holds == s.holds && t.rows == s.rows
    ensures WaitOk(c, t, busy, wr)
  {
    var h := s.holds[wr.slot];
    if h.rec.typ == OFS_DELTA {
      var m :| m in s.map_ && BaseRow(s, h, wr.slot, m);
      assert m in t.map_ && BaseRow(t, h, wr.slot, m);
    }
  }

  // ---------- waking a record ----------

  /** The first row that waits for a prefix, taken out of the lane: its record is busy now. */
  lemma WakeTakes(c: Ctx, s: State, offs: seq<nat>, at: nat, waking: set<nat>)
    requires Good(c) && Inv(c, s, offs, -1) && Quiet(s, waking) && at < |s.wait|
    requires at > 0 ==> s.wait[at - 1].key != s.wait[at].key
    ensures var wr, t := s.wait[at], s.(wait := s.wait[..at] + s.wait[at + 1..]);
      && Inv(c, t, offs, wr.slot) && Quiet(t, waking) && wr.slot < |s.holds|
      && TakenOk(c, t, offs, wr.slot) && s.holds[wr.slot].key == wr.key
  {
    hide RecGood, HashesTell, RowsOk, LandedOk, WaitSorted, HoldOk, Obj0, InRows;
    var wr, t := s.wait[at], s.(wait := s.wait[..at] + s.wait[at + 1..]);
    assert wr in s.wait && WaitOk(c, s, -1, wr);
    WaitWithout(s.wait, at);
    RowsSame(c, s, t);
    forall m | m in t.map_
      ensures PlaceOk(c, t, wr.slot, m)
    {
      assert PlaceOk(c, s, -1, m);
      LandedSame(c, s, t, m);
    }
    forall x | x in t.wait
      ensures WaitOk(c, t, wr.slot, x)
    {
      assert WaitOk(c, s, -1, x);
      assert x.slot == wr.slot ==> x == wr;
      WaitSame(c, s, t, -1, x);
    }
    WaitSame(c, s, t, -1, wr);
    WokenIn(c, s, offs, wr.slot);
    if InRows(s.rows, wr.key) {
      WakeReady(c, s, offs, at);
    }
  }

  lemma WokenIn(c: Ctx, s: State, offs: seq<nat>, slot: nat)
    requires Inv(c, s, offs, -1) && slot < |s.holds| && MapRow(s.holds[slot].rec.off, Held(slot)) in s.map_
    ensures s.holds[slot].rec.off in offs
  {
    hide RowsOk, PlaceOk, WaitOk, WaitSorted;
    var i :| 0 <= i < |s.map_| && s.map_[i] == MapRow(s.holds[slot].rec.off, Held(slot));
    assert offs[i] == s.holds[slot].rec.off;
  }

  lemma LandedSame(c: Ctx, s: State, t: State, m: MapRow)
    requires t.rows == s.rows
    ensures m.val.Landed? ==>
      (LandedOk(c, t, m.key, m.val.id, m.val.off) <==> LandedOk(c, s, m.key, m.val.id, m.val.off))
  {
  }

  lemma WaitWithout(wait: seq<WaitRow>, at: nat)
    requires WaitSorted(wait) && at < |wait|
    ensures var r := wait[..at] + wait[at + 1..];
      WaitSorted(r) && forall x :: x in r <==> x in wait && x != wait[at]
  {
    var r := wait[..at] + wait[at + 1..];
    forall i, j | 0 <= i < j < |r|
      ensures WaitLt(r[i], r[j])
    {
      assert r[i] == wait[if i < at then i else i + 1] && r[j] == wait[if j < at then j else j + 1];
    }
    forall x
      ensures x in r <==> x in wait && x != wait[at]
    {
      if x in wait && x != wait[at] {
        var i :| 0 <= i < |wait| && wait[i] == x;
        assert r[if i < at then i else i - 1] == x;
      }
      if x in r {
        var i :| 0 <= i < |r| && r[i] == x;
        var k := if i < at then i else i + 1;
        assert wait[k] == x && k != at;
        assert k < at ==> WaitLt(wait[k], wait[at]);
        assert at < k ==> WaitLt(wait[at], wait[k]);
      }
    }
  }

  /** The record taken out of the lane, still in slot `slot`; if what it waited for can be found, its base
    * has landed. */
  ghost predicate TakenOk(c: Ctx, s: State, offs: seq<nat>, slot: nat) {
    && slot < |s.holds| && HoldOk(c, s, slot) && s.holds[slot].rec.off in offs
    && MapRow(s.holds[slot].rec.off, Held(slot)) in s.map_
    && (InRows(s.rows, s.holds[slot].key) ==> BaseReady(c, s, s.holds[slot].rec))
  }

  /** The record being landed out of slot `slot`. */
  ghost predicate WokenOk(c: Ctx, s: State, offs: seq<nat>, slot: nat) {
    TakenOk(c, s, offs, slot) && InRows(s.rows, s.holds[slot].key)
  }

  /** A record whose base has landed. */
  ghost predicate BaseReady(c: Ctx, s: State, rec: Rec) {
    && (rec.typ == REF_DELTA ==> InRows(s.rows, c.w.prefix(rec.ref)))
    && (rec.typ == OFS_DELTA ==> exists m :: m in s.map_ && m.key == rec.baseOff && m.val.Landed?)
  }

  /** A held base waits in an earlier row under the same prefix, so the first row's base has landed. */
  lemma WakeReady(c: Ctx, s: State, offs: seq<nat>, at: nat)
    requires Inv(c, s, offs, -1) && at < |s.wait| && InRows(s.rows, s.wait[at].key)
    requires at > 0 ==> s.wait[at - 1].key != s.wait[at].key
    ensures s.wait[at].slot < |s.holds| && BaseReady(c, s, s.holds[s.wait[at].slot].rec)
  {
    hide RowsOk, LandedOk, WaitSorted;
    var wr := s.wait[at];
    assert wr in s.wait;
    assert WaitOk(c, s, -1, wr);
    var h := s.holds[wr.slot];
    if h.rec.typ == OFS_DELTA {
      var m :| m in s.map_ && BaseRow(s, h, wr.slot, m);
      if m.val.Held? {
        assert PlaceOk(c, s, -1, m);
        var i :| 0 <= i < |s.wait| && s.wait[i] == WaitRow(h.key, m.val.slot);
        FirstWaits(s.wait, at, i);
      }
    }
  }

  lemma FirstWaits(wait: seq<WaitRow>, at: nat, i: nat)
    requires WaitSorted(wait) && at < |wait| && i < |wait| && wait[i].key == wait[at].key
    requires at > 0 ==> wait[at - 1].key != wait[at].key
    ensures at <= i && wait[at].slot <= wait[i].slot
  {
    hide WaitSorted;
    if i < at - 1 {
      WaitAt(wait, i, at - 1);
      WaitAt(wait, at - 1, at);
    } else if at < i {
      WaitAt(wait, at, i);
    }
  }

  lemma WaitAt(wait: seq<WaitRow>, i: nat, j: nat)
    requires WaitSorted(wait) && i < j < |wait|
    ensures WaitLt(wait[i], wait[j])
  {
  }

  // ---------- landing a record ----------

  /** The state after a record landed: its log grew, its map row says where, its row is in the index. */
  ghost predicate LandsAs(c: Ctx, s: State, t: State, offs: seq<nat>, offs': seq<nat>, busy: int, off: nat, r: Row) {
    && LogsGrow(s.logs, t.logs) && (forall id | id in t.logs :: |t.logs[id]| >= HEADER)
    && t.rows == s.rows + [r] && t.wait == s.wait && t.holds == s.holds
    && (busy == -1 ==> offs' == offs + [off] && t.map_ == s.map_ + [MapRow(off, Landed(r.id, r.off))])
    && (busy != -1 ==> offs' == offs && Patches(s.map_, t.map_, off, Landed(r.id, r.off)))
  }

  /** One row of the map patched in place. */
  ghost predicate Patches(a: seq<MapRow>, b: seq<MapRow>, key: nat, val: Place) {
    exists i :: 0 <= i < |a| && a[i].key == key && b == a[i := MapRow(key, val)]
  }

  lemma LandPlaces(c: Ctx, s: State, t: State, offs: seq<nat>, offs': seq<nat>, busy: int, off: nat,
          r: Row, m: MapRow)
    requires Good(c) && Inv(c, s, offs, busy) && LandsAs(c, s, t, offs, offs', busy, off, r) && m in t.map_
    requires busy != -1 ==> busy >= 0 && busy < |s.holds| && s.holds[busy].rec.off == off
    requires IsCopy(c, off, r.key) && r.typ == Obj0(c, off).value.typ && CanLand(c, off)
    ensures PlaceOk(c, t, -1, m)
  {
    hide RowsOk, RecGood, HashesTell, WaitOk, WaitSorted, LogsGrow, Obj0, CanLand;
    if m == MapRow(off, Landed(r.id, r.off)) {
      assert r in t.rows;
    } else {
      OtherRow(c, s, t, offs, busy, off, r, m);
      assert PlaceOk(c, s, busy, m);
    }
  }

  /** Every other row of the map is an old one, of another record if a row was patched. */
  lemma OtherRow(c: Ctx, s: State, t: State, offs: seq<nat>, busy: int, off: nat, r: Row, m: MapRow)
    requires Good(c) && Inv(c, s, offs, busy) && m in t.map_ && m != MapRow(off, Landed(r.id, r.off))
    requires busy == -1 ==> t.map_ == s.map_ + [MapRow(off, Landed(r.id, r.off))]
    requires busy != -1 ==> Patches(s.map_, t.map_, off, Landed(r.id, r.off))
    ensures m in s.map_ && (busy != -1 ==> m.key != off)
  {
    hide Good, Inv;
    if busy != -1 {
      var i :| 0 <= i < |s.map_| && s.map_[i].key == off && t.map_ == s.map_[i := MapRow(off, Landed(r.id, r.off))];
      var j :| 0 <= j < |t.map_| && t.map_[j] == m;
      if m.key == off {
        MapOnce(c, s, offs, busy, i, j);
      }
    }
  }

  lemma LandWaits(c: Ctx, s: State, t: State, busy: int, off: nat, r: Row, wr: WaitRow)
    requires WaitOk(c, s, busy, wr) && t.holds == s.holds && s.rows <= t.rows
    requires busy == -1 ==> t.map_ == s.map_ + [MapRow(off, Landed(r.id, r.off))]
    requires busy != -1 ==>
      Patches(s.map_, t.map_, off, Landed(r.id, r.off)) && 0 <= busy < |s.holds| && s.holds[busy].rec.off == off
    requires busy != -1 ==> InRows(s.rows, s.holds[busy].key)
    requires busy != -1 ==> forall m | m in s.map_ && m.key == off :: m.val == Held(busy)
    ensures WaitOk(c, t, -1, wr)
  {
    hide InRows;
    var h := s.holds[wr.slot];
    MapKept(s, t, busy, off, r, MapRow(h.rec.off, Held(wr.slot)));
    if h.rec.typ == OFS_DELTA {
      var m :| m in s.map_ && BaseRow(s, h, wr.slot, m);
      if InRows(s.rows, h.key) {
        InRowsMore(s.rows, t.rows, h.key);
      }
      if busy != -1 && m.key == off {
        var m' := MapRow(off, Landed(r.id, r.off));
        var i :| 0 <= i < |s.map_| && s.map_[i].key == off && t.map_ == s.map_[i := m'];
        assert t.map_[i] == m';
        assert m' in t.map_ && BaseRow(t, h, wr.slot, m');
      } else {
        MapKept(s, t, busy, off, r, m);
        assert BaseRow(t, h, wr.slot, m);
      }
    }
  }

  lemma MapKept(s: State, t: State, busy: int, off: nat, r: Row, m: MapRow)
    requires m in s.map_
    requires busy == -1 ==> t.map_ == s.map_ + [MapRow(off, Landed(r.id, r.off))]
    requires busy != -1 ==> Patches(s.map_, t.map_, off, Landed(r.id, r.off)) && m.key != off
    ensures m in t.map_
  {
    if busy != -1 {
      var i :| 0 <= i < |s.map_| && s.map_[i].key == off && t.map_ == s.map_[i := MapRow(off, Landed(r.id, r.off))];
      var j :| 0 <= j < |s.map_| && s.map_[j] == m;
      assert t.map_[j] == m;
    }
  }

  /** Landing keeps everything, and leaves only its own prefix to be woken. */
  lemma LandKeeps(c: Ctx, s: State, t: State, offs: seq<nat>, offs': seq<nat>, busy: int, off: nat, r: Row,
          waking: set<nat>)
    requires Good(c) && Inv(c, s, offs, busy) && Quiet(s, waking) && LandsAs(c, s, t, offs, offs', busy, off, r)
    requires busy == -1 ==> |offs| < |c.recs| && off == c.recs[|offs|]
    requires busy != -1 ==> busy >= 0 && WokenOk(c, s, offs, busy) && s.holds[busy].rec.off == off
    requires IsCopy(c, off, r.key) && r.typ == Obj0(c, off).value.typ && CanLand(c, off)
    requires RowOk(c, t, r)
    ensures Inv(c, t, offs', -1) && Quiet(t, waking + {r.key})
  {
    hide RowOk, RecGood, HashesTell, WaitSorted, PlaceOk, WaitOk, RowsOk, LogsGrow, CanLand, InRows;
    LandRows(c, s, t, r);
    QuietMore(s, t, r, waking);
    OffsGrow(c, s, t, offs, offs', busy, off, r);
    forall m | m in t.map_
      ensures PlaceOk(c, t, -1, m)
    {
      LandPlaces(c, s, t, offs, offs', busy, off, r, m);
    }
    if busy != -1 {
      BusyOnly(c, s, offs, busy, off);
    }
    forall wr | wr in t.wait
      ensures WaitOk(c, t, -1, wr)
    {
      LandWaits(c, s, t, busy, off, r, wr);
    }
  }

  lemma LandRows(c: Ctx, s: State, t: State, r: Row)
    requires Good(c) && RowsOk(c, s) && RowOk(c, t, r) && t.rows == s.rows + [r] && LogsGrow(s.logs, t.logs)
    requires forall id | id in t.logs :: |t.logs[id]| >= HEADER
    ensures RowsOk(c, t)
  {
    hide RowsOk, RowOk, RecGood, HashesTell, LogsGrow, ShardOk, GoodZlib;
    assert t.rows[|s.rows|..] == [r];
    RowsGrow(c, s, t);
  }

  /** The new row's prefix is the only one that may have to be woken. */
  lemma QuietMore(s: State, t: State, r: Row, waking: set<nat>)
    requires Quiet(s, waking) && t.wait == s.wait && t.rows == s.rows + [r]
    ensures Quiet(t, waking + {r.key})
  {
    hide InRows;
    assert t.rows[..|t.rows| - 1] == s.rows;
    assert Admits(r, r.key) <==> IsBase(r.typ);
    forall wr | wr in t.wait && InRows(t.rows, wr.key)
      ensures wr.key in waking + {r.key}
    {
      InRowsLast(t.rows, wr.key);
    }
  }

  lemma OffsGrow(c: Ctx, s: State, t: State, offs: seq<nat>, offs': seq<nat>, busy: int, off: nat, r: Row)
    requires offs <= c.recs && |s.map_| == |offs| && (forall k | 0 <= k < |offs| :: s.map_[k].key == offs[k])
    requires LandsAs(c, s, t, offs, offs', busy, off, r)
    requires busy == -1 ==> |offs| < |c.recs| && off == c.recs[|offs|]
    ensures offs' <= c.recs && |t.map_| == |offs'| && (forall k | 0 <= k < |offs'| :: t.map_[k].key == offs'[k])
  {
    if busy != -1 {
      var i :| 0 <= i < |s.map_| && s.map_[i].key == off && t.map_ == s.map_[i := MapRow(off, Landed(r.id, r.off))];
    }
  }

  lemma BusyOnly(c: Ctx, s: State, offs: seq<nat>, busy: int, off: nat)
    requires Good(c) && Inv(c, s, offs, busy) && busy >= 0 && WokenOk(c, s, offs, busy)
      && s.holds[busy].rec.off == off
    ensures forall m | m in s.map_ && m.key == off :: m.val == Held(busy)
  {
    hide RowsOk, RecGood, HashesTell, WaitOk, WaitSorted, PlaceOk;
    forall m | m in s.map_ && m.key == off
      ensures m.val == Held(busy)
    {
      var i :| 0 <= i < |s.map_| && s.map_[i] == m;
      var j :| 0 <= j < |s.map_| && s.map_[j] == MapRow(off, Held(busy));
      MapOnce(c, s, offs, busy, i, j);
    }
  }
}
