/** What a run of the repacker may end with, and what an OK one promises of every source record. */
module RepackOutcome {
  import opened Common
  import opened DeltaFormat
  import opened DeltaCodec
  import opened PackFormat
  import opened PackResolve
  import opened PackWrite
  import opened RepackChain
  import opened RepackState
  import opened RepackIndex
  import opened RepackRows
  import opened RepackDepth
  import opened RepackRead
  import opened RepackInv
  import opened RepackEmit
  import opened RepackLayout
  import opened RepackSteps
  import opened RepackCauses

  const MAX_LOGS := 64

  datatype Status = Done | Hdr | Base | Big | Logs | Torn | Stuck | Failed(st: PackStatus)

  // ---------- why a landing may fail ----------

  /** A landing fails only because the record or one woken by it is over no record, because its wakes went 256 deep,
    * because 64 logs are full, or because something is no object or over a base not within 256 deltas. */
  ghost predicate Excused(c: Ctx, slot: nat, st: Status) {
    match st
    case Done => true
    case Base => (exists top, off :: Cascade(c, top, off, CHAIN_MAX)) || exists off :: off in c.recs && Baseless(c, off)
    case Logs => slot >= MAX_LOGS
    case Failed(_) => exists off :: off in c.recs && Unreadable(c, off)
    case _ => false
  }

  /** `n` source records that come before `top`, each held over the one before, the first over `top`; `off` is the
    * last. */
  ghost predicate Cascade(c: Ctx, top: nat, off: nat, n: nat)
    decreases n
  {
    if n == 0 then off == top
    else off < top && exists b :: Cascade(c, top, b, n - 1) && HeldOn(c, off, b)
  }

  /** Held, `off` waits for the object of `b`. */
  ghost predicate HeldOn(c: Ctx, off: nat, b: nat) {
    Obj0(c, b).Some? && HeldUnder(c, off, Key(c.w, Obj0(c, b).value))
  }

  /** A source record that is no object, or over a base that may take more than 256 deltas. */
  ghost predicate Unreadable(c: Ctx, off: nat) {
    || Obj0(c, off).None?
    || (RecAt(c.w, c.src, off).Some? && IsDelta(RecAt(c.w, c.src, off).value.typ)
        && !Within(c, BaseKey(c, RecAt(c.w, c.src, off).value), CHAIN_MAX))
  }

  /** A source record larger than the scratch. */
  ghost predicate Oversize(c: Ctx) {
    exists off :: off in c.recs && TooLarge(c, off)
  }

  ghost predicate TooLarge(c: Ctx, off: nat) {
    RecAt(c.w, c.src, off).Some? && RecAt(c.w, c.src, off).value.size > c.w.room.base
  }

  lemma ExcuseDone(c: Ctx)
    ensures forall n: nat :: Excused(c, n, Done) && !Excused(c, n, Stuck)
  {
  }

  lemma ExcuseDeep(c: Ctx, slot: nat, top: nat, off: nat)
    requires Cascade(c, top, off, CHAIN_MAX)
    ensures Excused(c, slot, Base)
  {
    hide Cascade;
  }

  lemma ExcuseBaseless(c: Ctx, s: State, offs: seq<nat>, slot: nat, busy: int, rec: Rec)
    requires Good(c) && Inv(c, s, offs, busy) && rec.typ == OFS_DELTA && rec.off in c.recs
    requires Some(rec) == RecAt(c.w, c.src, rec.off) && forall m | m in s.map_ :: m.key != rec.baseOff
    requires if busy == -1 then |offs| < |c.recs| && rec.off == c.recs[|offs|]
             else 0 <= busy && TakenOk(c, s, offs, busy) && s.holds[busy].rec == rec
    ensures Excused(c, slot, Base)
  {
    hide Good, Inv, RecAt, TakenOk;
    RecFields(c, rec);
    BaseMapped(c, s, offs, busy, rec);
    assert Baseless(c, rec.off);
  }

  lemma ExcuseLogs(c: Ctx, slot: nat)
    requires slot >= MAX_LOGS
    ensures Excused(c, slot, Logs)
  {
  }

  lemma ExcuseFetch(c: Ctx, s: State, slot: nat, rec: Rec, isDelta: bool, b: Row, st: Status)
    requires rec.off in c.recs && Some(rec) == RecAt(c.w, c.src, rec.off) && st.Failed?
    requires isDelta ==> BaseHere(c, s, rec, b)
    requires !(Obj0(c, rec.off).Some? && (isDelta ==> Within(c, b.key, CHAIN_MAX)))
    ensures Excused(c, slot, st)
  {
    hide Obj0, RecAt, Within, BaseKey;
    assert Unreadable(c, rec.off);
  }

  // ---------- facts about one step ----------

  lemma GoodCodec(c: Ctx)
    requires Good(c)
    ensures GoodZlib(c.w.z)
  {
  }

  /** Waiting and waking look at the map, the lane, the holds and the rows only. */
  lemma DueShows(c: Ctx, s: State, t: State, offs: seq<nat>, busy: int, rec: Rec)
    requires t.map_ == s.map_ && t.holds == s.holds && t.rows == s.rows
    requires busy >= 0 && TakenOk(c, s, offs, busy)
    ensures TakenOk(c, t, offs, busy)
  {
    hide RecAt, InRows;
    var h := s.holds[busy];
    if h.rec.typ == OFS_DELTA {
      var m :| m in s.map_ && BaseRow(s, h, busy, m);
      assert BaseRow(t, h, busy, m);
    }
  }

  lemma ObjInflates(c: Ctx, rec: Rec)
    requires Some(rec) == RecAt(c.w, c.src, rec.off)
    ensures Obj0(c, rec.off).Some? ==> c.w.z.inflate(rec.z, rec.size).st == Ok
  {
    hide RecAt, BySha, Meaning;
  }

  /** What a landing delta's base resolves to, whichever rows the lookups answer with. */
  lemma BaseReads(c: Ctx, s: State, p: Pick, rec: Rec, b: Row)
    requires Good(c) && RowsOk(c, s) && GoodPick(p, s.rows) && BaseHere(c, s, rec, b)
    ensures b.id in s.logs
    ensures var m := Meant(StoreOf(c.w, p, s.logs), c.w.room, Loc(s.logs[b.id], b.off), CHAIN_MAX);
      && Verdict(m, ByKey(c, b.key), Within(c, b.key, CHAIN_MAX), Beyond(c, b.key, CHAIN_MAX))
      && (m.st == Ok ==> IsBase(b.typ))
  {
    hide Good, RowsOk, Answers, Within, Beyond, Meant, ByKey, BaseKey, GoodPick;
    AllAnswer(c, s);
    RowReads(c, s, s.rows, p, None, b, CHAIN_MAX);
    RowObject(c, s, b);
    if Meant(StoreOf(c.w, p, s.logs), c.w.room, Loc(s.logs[b.id], b.off), CHAIN_MAX).st == Ok {
      ResolvedTyp(StoreOf(c.w, p, s.logs), c.w.room, Loc(s.logs[b.id], b.off), CHAIN_MAX);
    }
  }

  /** The index's own lookups. */
  lemma LooksGood(c: Ctx, s: State, ix: Index)
    requires Good(c) && RowsOk(c, s) && Holds(ix, s.rows)
    ensures GoodPick(Look(ix), s.rows)
  {
    hide Good, RowsOk, Holds, GoodPick, Look, ByKey;
    forall a, b | a in s.rows && b in s.rows && a.key == b.key
      ensures a.typ == b.typ
    {
      RowObject(c, s, a);
      RowObject(c, s, b);
    }
    LookupGood(ix, s.rows);
  }

  lemma LayoutShows(w: World, s: State, t: State, lo: nat, cur: nat, count: nat, sealed_: bool)
    requires t.rows == s.rows && t.logs == s.logs
    ensures Layout(w, s, lo, cur, count, sealed_) <==> Layout(w, t, lo, cur, count, sealed_)
  {
    hide LogOk, Cites;
    forall r
      ensures RowPlaced(w, s, lo, cur, r) <==> RowPlaced(w, t, lo, cur, r)
    {
      CitesShows(w, s, t, r);
    }
    forall id: nat, n: nat | id in s.logs
      ensures LogOk(w, s, id, n) <==> LogOk(w, t, id, n)
    {
      LogShows(w, s, t, id, n);
    }
  }

  lemma CitesShows(w: World, s: State, t: State, r: Row)
    requires t.rows == s.rows && t.logs == s.logs
    ensures Cites(w, s, r) <==> Cites(w, t, r)
  {
    hide HeaderAt;
  }

  lemma LogShows(w: World, s: State, t: State, id: nat, n: nat)
    requires t.rows == s.rows && t.logs == s.logs && id in s.logs
    ensures LogOk(w, s, id, n) <==> LogOk(w, t, id, n)
  {
    hide Tiled, RowsOf, PackHdr;
  }

  lemma BaseInside(c: Ctx, s: State, rec: Rec, b: Row)
    requires Good(c) && RowsOk(c, s) && BaseHere(c, s, rec, b)
    ensures b.id in s.logs && b.off < |s.logs[b.id]|
  {
    hide Good, RowsOk, BaseKey;
    RowInside(c, s, b);
  }

  lemma ShaLen(c: Ctx, s: State, rec: Rec, b: Row)
    requires Good(c) && RowsOk(c, s) && BaseHere(c, s, rec, b) && rec.off in c.recs
    requires Some(rec) == RecAt(c.w, c.src, rec.off)
    ensures |c.w.sha(ByKey(c, b.key))| == SHA_LEN && c.w.prefix(c.w.sha(ByKey(c, b.key))) == b.key
    ensures rec.typ == REF_DELTA ==> rec.ref == c.w.sha(ByKey(c, b.key))
  {
    hide Good, RowsOk, BaseKey, RecAt, ByKey, BySha;
    BaseObject(c, s, rec, b);
  }

  /** The pieces as appended are the record as a whole. */
  lemma Joined(rec: Rec, log: seq<Byte>, cur: nat, base: Option<Row>, sha: seq<Byte>, hb: seq<Byte>, named: seq<Byte>)
    requires rec.typ < 8 && (base.None? ==> rec.typ != OFS_DELTA && rec.typ != REF_DELTA)
    requires base.Some? && base.value.id == cur ==> base.value.off < |log|
    requires var etyp := if base.None? then rec.typ else if base.value.id == cur then OFS_DELTA else REF_DELTA;
      && hb == [] + HeaderBytes(etyp, rec.size) + (if etyp == OFS_DELTA then OfsBytes(|log| - base.value.off) else [])
      && named == if etyp == REF_DELTA then sha else []
    ensures log + hb + named + rec.z == log + Emitted(rec, log, cur, base, sha)
  {
    hide HeaderBytes, OfsBytes;
  }

  /** Nothing waits for `key` any more. */
  lemma QuietNow(s: State, waking: set<nat>, key: nat)
    requires Quiet(s, waking + {key}) && forall wr | wr in s.wait :: wr.key != key
    ensures Quiet(s, waking)
  {
    hide InRows;
  }

  lemma QuietShows(s: State, t: State, waking: set<nat>)
    requires Quiet(s, waking) && t.wait == s.wait && t.rows == s.rows
    ensures Quiet(t, waking)
  {
    hide InRows;
  }

  // ---------- how deep wakes go ----------

  ghost predicate LandedAt(s: State, off: nat) {
    exists m :: m in s.map_ && m.key == off && m.val.Landed?
  }

  /** From `s` to `t`, `off` landed and nothing else. */
  ghost predicate LandsOne(s: State, t: State, off: nat) {
    LandedAt(t, off) && forall q | LandedAt(t, q) :: LandedAt(s, q) || q == off
  }

  /** The last record consumed is `top`, and it has landed. */
  ghost predicate TopLanded(s: State, offs: seq<nat>, top: nat) {
    offs != [] && offs[|offs| - 1] == top && LandedAt(s, top)
  }

  lemma TopKept(s: State, t: State, offs: seq<nat>, top: nat)
    requires TopLanded(s, offs, top) && Grown(s, t)
    ensures TopLanded(t, offs, top)
  {
    hide LogsGrow;
    var m :| m in s.map_ && m.key == top && m.val.Landed?;
    assert m in t.map_;
  }

  /** A record that waits came before the last one consumed, and is held over what it waits for. */
  lemma WakesDeeper(c: Ctx, s: State, offs: seq<nat>, top: nat, waker: nat, depth: nat, wr: WaitRow)
    requires Good(c) && Inv(c, s, offs, -1) && TopLanded(s, offs, top) && wr in s.wait
    requires Cascade(c, top, waker, depth) && IsCopy(c, waker, wr.key)
    ensures wr.slot < |s.holds| && Cascade(c, top, s.holds[wr.slot].rec.off, depth + 1)
  {
    hide Good, RowsOk, WaitSorted, Obj0, RecAt, HeldUnder, PlaceOk;
    assert WaitOk(c, s, -1, wr);
    var off := s.holds[wr.slot].rec.off;
    WokenIn(c, s, offs, wr.slot);
    var m :| m in s.map_ && m.key == top && m.val.Landed?;
    if off == top {
      MapOne(c, s, offs, -1, m, MapRow(off, Held(wr.slot)));
    } else {
      LastIsMost(c, offs, off);
      assert HeldOn(c, off, waker);
    }
  }

  lemma LastIsMost(c: Ctx, offs: seq<nat>, off: nat)
    requires Good(c) && offs <= c.recs && off in offs
    ensures off <= offs[|offs| - 1]
  {
    hide RecGood, GoodZlib, HashesTell, ShardOk;
    var i :| 0 <= i < |offs| && offs[i] == off;
    assert c.recs[i] == off && c.recs[|offs| - 1] == offs[|offs| - 1];
  }

  // ---------- a landing that wakes what it cannot serve ----------

  /** A record of a type no lookup admits, named as its base by a delta that comes before it. */
  ghost predicate Stalls(c: Ctx, off: nat) {
    && off in c.recs && Unadmitted(c, off)
    && exists q :: q in c.recs && q < off && NamesIt(c, q, Key(c.w, Obj0(c, off).value))
  }

  /** A whole record of a type no lookup admits. */
  ghost predicate Unadmitted(c: Ctx, off: nat) {
    Obj0(c, off).Some? && RecAt(c.w, c.src, off).Some?
    && !IsDelta(RecAt(c.w, c.src, off).value.typ) && !IsBase(RecAt(c.w, c.src, off).value.typ)
  }

  ghost predicate WaitsFor(s: State, key: nat) {
    exists wr :: wr in s.wait && wr.key == key
  }

  /** What is held under a prefix comes no earlier than a delta that names it. */
  lemma {:induction false} HeldNames(c: Ctx, off: nat, key: nat) returns (q: nat)
    requires HeldUnder(c, off, key)
    ensures q in c.recs && q <= off && NamesIt(c, q, key)
    decreases off
  {
    hide RecAt, NamesIt;
    if NamesIt(c, off, key) {
      q := off;
    } else {
      q := HeldNames(c, RecAt(c.w, c.src, off).value.baseOff, key);
    }
  }

  /** Once the next record is of no type a lookup admits, something waits for it if and only if a delta before it names
    * it. */
  lemma StallWaits(c: Ctx, s: State, offs: seq<nat>, off: nat)
    requires Good(c) && Inv(c, s, offs, -1) && |offs| < |c.recs| && off == c.recs[|offs|] && Unadmitted(c, off)
    ensures Stalls(c, off) <==> WaitsFor(s, Key(c.w, Obj0(c, off).value))
    ensures !InRows(s.rows, Key(c.w, Obj0(c, off).value))
  {
    hide Good, RowsOk, InRows, RecAt, Obj0, WaitSorted, NamesIt, CanLand, HeldUnder;
    var key := Key(c.w, Obj0(c, off).value);
    NeverFound(c, s, off);
    if WaitsFor(s, key) {
      var wr :| wr in s.wait && wr.key == key;
      assert WaitOk(c, s, -1, wr);
      WokenIn(c, s, offs, wr.slot);
      var q := HeldNames(c, s.holds[wr.slot].rec.off, key);
      BeforeNext(c, offs, s.holds[wr.slot].rec.off);
      assert Stalls(c, off);
    }
    if Stalls(c, off) {
      var q :| q in c.recs && q < off && NamesIt(c, q, key);
      NextIn(c, offs, q);
      var i := MapHas(c, s, offs, -1, q);
      if s.map_[i].val.Landed? {
        NamedThere(c, s, q, key);
        OneTyped(c, off);
      } else {
        var slot := s.map_[i].val.slot;
        assert WaitRow(s.holds[slot].key, slot) in s.wait;
        assert WaitOk(c, s, -1, WaitRow(s.holds[slot].key, slot));
        HeldAsNamed(c, s, q, slot, key);
      }
    }
  }

  /** What a delta lands as, a lookup admits. */
  lemma DeltaTyp(c: Ctx, s: State, rec: Rec, b: Row, o: Blob)
    requires Good(c) && RowsOk(c, s) && BaseHere(c, s, rec, b) && IsBase(b.typ) && ContentOk(c, rec, o)
    requires rec.off in c.recs && Some(rec) == RecAt(c.w, c.src, rec.off)
    ensures IsBase(o.typ)
  {
    hide Good, RowsOk, RecAt, Obj0, ByKey, Meaning, BaseKey, CanLand;
    RowObject(c, s, b);
    SourceDelta(c, s, rec, b);
  }

  /** What has just landed and cannot be found is of no type a lookup admits. */
  lemma LandedUnfound(c: Ctx, rows: seq<Row>, r: Row, rec: Rec, o: Blob)
    requires ContentOk(c, rec, o) && r.key == Key(c.w, o) && r.typ == o.typ && r in rows && !InRows(rows, r.key)
    requires rec.off in c.recs && Some(rec) == RecAt(c.w, c.src, rec.off) && !IsDelta(rec.typ)
    ensures Unadmitted(c, rec.off)
  {
    hide InRows, RecAt;
    if IsBase(o.typ) {
      RowIn(rows, r);
    }
    WholeObject(c, rec.off);
  }

  /** It cannot be found. */
  lemma UnadmittedHides(c: Ctx, s: State, t: State, rec: Rec, o: Blob, r: Row)
    requires Good(c) && RowsOk(c, s) && rec.off in c.recs && Unadmitted(c, rec.off) && ContentOk(c, rec, o)
    requires t.rows == s.rows + [r] && r.key == Key(c.w, o) && r.typ == o.typ
    ensures !InRows(t.rows, r.key)
  {
    hide Good, RowsOk, InRows, RecAt;
    NeverFound(c, s, rec.off);
    assert t.rows[..|t.rows| - 1] == s.rows;
    InRowsLast(t.rows, r.key);
    WholeObject(c, rec.off);
  }

  // ---------- one landing, stuck or not ----------

  lemma CascadeStart(c: Ctx, off: nat)
    ensures Cascade(c, off, off, 0)
  {
  }

  lemma FirstTop(c: Ctx, top: nat, off: nat)
    requires Cascade(c, top, off, 0)
    ensures top == off
  {
  }

  lemma CopyOf(c: Ctx, rec: Rec, o: Blob)
    requires ContentOk(c, rec, o)
    ensures IsCopy(c, rec.off, Key(c.w, o))
  {
    hide Obj0;
  }

  lemma WaitsSame(s: State, t: State, key: nat)
    requires t.wait == s.wait
    ensures WaitsFor(t, key) <==> WaitsFor(s, key)
  {
  }

  /** The next record landed: what waits for it cannot find it if and only if the record stalls. */
  lemma StallDecides(c: Ctx, s: State, t: State, offs: seq<nat>, rec: Rec, isDelta: bool, b: Row, o: Blob)
    requires Good(c) && Inv(c, s, offs, -1) && |offs| < |c.recs| && rec.off == c.recs[|offs|]
    requires Some(rec) == RecAt(c.w, c.src, rec.off) && ContentOk(c, rec, o) && (isDelta <==> IsDelta(rec.typ))
    requires isDelta ==> BaseHere(c, s, rec, b) && IsBase(b.typ)
    requires exists id, off :: t.rows == s.rows + [Row(Key(c.w, o), o.typ, id, off)]
    ensures Stalls(c, rec.off) <==> !InRows(t.rows, Key(c.w, o)) && WaitsFor(s, Key(c.w, o))
  {
    hide Good, Inv, InRows, RecAt, Obj0, BaseHere, WaitsFor, ContentOk, NamesIt;
    var key := Key(c.w, o);
    InvWaits(c, s, offs, -1);
    InvOffs(c, s, offs);
    RecIn(c, offs);
    var id, off :| t.rows == s.rows + [Row(key, o.typ, id, off)];
    var r := Row(key, o.typ, id, off);
    ContentIs(c, rec, o);
    if isDelta {
      DeltaTyp(c, s, rec, b, o);
      RowIn(t.rows, r);
    } else if Unadmitted(c, rec.off) {
      UnadmittedHides(c, s, t, rec, o, r);
      StallWaits(c, s, offs, rec.off);
    } else if !InRows(t.rows, key) {
      LandedUnfound(c, t.rows, r, rec, o);
    }
  }

  lemma InvOffs(c: Ctx, s: State, offs: seq<nat>)
    requires Inv(c, s, offs, -1)
    ensures offs <= c.recs
  {
    hide RowsOk, PlaceOk, WaitOk, WaitSorted;
  }

  lemma ContentIs(c: Ctx, rec: Rec, o: Blob)
    requires ContentOk(c, rec, o)
    ensures Obj0(c, rec.off) == Some(o)
  {
    hide Obj0;
  }

  /** A woken record landed: it is a delta, so what waits for it finds it. */
  lemma FoundAgain(c: Ctx, s: State, t: State, offs: seq<nat>, busy: int, rec: Rec, isDelta: bool, b: Row, o: Blob)
    requires Good(c) && RowsOk(c, s) && 0 <= busy && WokenOk(c, s, offs, busy) && s.holds[busy].rec == rec
    requires rec.off in c.recs && Some(rec) == RecAt(c.w, c.src, rec.off) && ContentOk(c, rec, o)
    requires isDelta <==> IsDelta(rec.typ)
    requires isDelta ==> BaseHere(c, s, rec, b) && IsBase(b.typ)
    requires exists id, off :: t.rows == s.rows + [Row(Key(c.w, o), o.typ, id, off)]
    ensures InRows(t.rows, Key(c.w, o))
  {
    hide Good, RowsOk, InRows, RecAt, BaseHere, ContentOk, HeldUnder;
    var id, off :| t.rows == s.rows + [Row(Key(c.w, o), o.typ, id, off)];
    DeltaTyp(c, s, rec, b, o);
    RowIn(t.rows, Row(Key(c.w, o), o.typ, id, off));
  }

  /** The map row of a landing. */
  lemma LandedNow(c: Ctx, s: State, t: State, cur: nat, rec: Rec, base: Option<Row>, sha: seq<Byte>, o: Blob, at: int)
    requires Lands(c, s, t, cur, rec, base, sha, o, at)
    ensures LandsOne(s, t, rec.off)
  {
    hide Emitted;
    var m := MapRow(rec.off, Landed(cur, |s.logs[cur]|));
    var i := if 0 <= at < |s.map_| then at else |s.map_|;
    assert t.map_[i] == m;
    forall q | LandedAt(t, q)
      ensures LandedAt(s, q) || q == rec.off
    {
      var x :| x in t.map_ && x.key == q && x.val.Landed?;
      assert x == m || x in s.map_;
    }
  }

  /** The base of a record taken out of the lane is in the map. */
  lemma TakenMapped(c: Ctx, s: State, offs: seq<nat>, busy: int, rec: Rec)
    requires busy >= 0 && TakenOk(c, s, offs, busy) && s.holds[busy].rec == rec && rec.typ == OFS_DELTA
    ensures exists m :: m in s.map_ && m.key == rec.baseOff
  {
    hide RecAt, HeldUnder, InRows;
  }

  lemma TakenHeld(c: Ctx, s: State, offs: seq<nat>, busy: int, rec: Rec)
    requires busy >= 0 && TakenOk(c, s, offs, busy) && s.holds[busy].rec == rec
    ensures exists m :: m in s.map_ && m.key == rec.off
  {
  }

  /** Only a whole record stalls. */
  lemma NotStalled(c: Ctx, rec: Rec)
    requires Some(rec) == RecAt(c.w, c.src, rec.off) && IsDelta(rec.typ)
    ensures !Stalls(c, rec.off)
  {
    hide RecAt, Obj0, NamesIt;
  }

  lemma ParkedDelta(c: Ctx, s: State, rec: Rec, key: nat)
    requires MustWait(c, s, rec, key)
    ensures IsDelta(rec.typ)
  {
    hide InRows, HeldUnder;
  }

  /** What stalls is an object. */
  lemma StalledFetch(c: Ctx, rec: Rec)
    requires Some(rec) == RecAt(c.w, c.src, rec.off)
    ensures Stalls(c, rec.off) ==> Obj0(c, rec.off).Some? && !IsDelta(rec.typ)
  {
    hide RecAt, Obj0, NamesIt;
  }

  lemma HeldAsNamed(c: Ctx, s: State, q: nat, slot: nat, key: nat)
    requires slot < |s.holds| && HoldOk(c, s, slot) && s.holds[slot].rec.off == q && NamesIt(c, q, key)
    ensures s.holds[slot].key == key
  {
    hide RecAt, HeldUnder;
  }

  lemma BeforeNext(c: Ctx, offs: seq<nat>, q: nat)
    requires Good(c) && offs <= c.recs && |offs| < |c.recs| && q in offs
    ensures q < c.recs[|offs|]
  {
    hide RecGood, GoodZlib, HashesTell, ShardOk;
    var i :| 0 <= i < |offs| && offs[i] == q;
    assert c.recs[i] == q;
  }

  lemma NextIn(c: Ctx, offs: seq<nat>, q: nat)
    requires Good(c) && offs <= c.recs && |offs| < |c.recs| && q in c.recs && q < c.recs[|offs|]
    ensures q in offs
  {
    hide RecGood, GoodZlib, HashesTell, ShardOk;
    var i :| 0 <= i < |c.recs| && c.recs[i] == q;
    assert i < |offs|;
    assert offs[i] == q;
  }

  /** No lookup finds an object of a type it does not admit: all rows of its prefix are of that type. */
  lemma NeverFound(c: Ctx, s: State, off: nat)
    requires Good(c) && RowsOk(c, s) && off in c.recs && Unadmitted(c, off)
    ensures !InRows(s.rows, Key(c.w, Obj0(c, off).value))
  {
    hide Good, RowsOk, ByKey, RecAt, Obj0;
    var key := Key(c.w, Obj0(c, off).value);
    if InRows(s.rows, key) {
      var i :| 0 <= i < |s.rows| && Admits(s.rows[i], key);
      RowObject(c, s, s.rows[i]);
      LandedObject(c, c.recs, off);
      WholeObject(c, off);
      assert false;
    }
  }

  /** A delta that can land has its named base in the rows or in the pack. */
  lemma NamedThere(c: Ctx, s: State, q: nat, key: nat)
    requires RowsOk(c, s) && NamesIt(c, q, key) && CanLand(c, q)
    ensures InRows(s.rows, key) || exists off :: off in c.recs && Brings(c, off, key)
  {
    hide InRows, RecAt, Obj0, LogsGrow, RowOk, Brings;
    var n: nat :| Rooted(c, q, n);
    NamedRooted(c, q, key, n);
    if InRows(c.rows0, key) {
      InRowsMore(c.rows0, s.rows, key);
    } else {
      var off :| Brings(c, off, key) && Rooted(c, off, n - 1);
      RootedIn(c, off, n - 1);
    }
  }

  lemma NamedRooted(c: Ctx, q: nat, key: nat, n: nat)
    requires NamesIt(c, q, key) && Rooted(c, q, n)
    ensures n > 0 && NameRooted(c, key, n - 1)
  {
    hide RecAt, NameRooted;
  }

  lemma RootedIn(c: Ctx, off: nat, n: nat)
    requires Rooted(c, off, n)
    ensures off in c.recs
  {
  }

  /** All copies of an object are of its type. */
  lemma OneTyped(c: Ctx, off: nat)
    requires Good(c) && off in c.recs && Unadmitted(c, off)
    ensures forall p | p in c.recs && IsCopy(c, p, Key(c.w, Obj0(c, off).value)) :: !IsBase(Obj0(c, p).value.typ)
  {
    hide Good, ByKey, RecAt, Obj0;
    forall p | p in c.recs && IsCopy(c, p, Key(c.w, Obj0(c, off).value))
      ensures !IsBase(Obj0(c, p).value.typ)
    {
      LandedObject(c, c.recs, off);
      LandedObject(c, c.recs, p);
      WholeObject(c, off);
    }
  }

  /** A delta that names such an object cannot land; where it comes first, the object stalls. */
  lemma NamedUnadmitted(c: Ctx, off: nat, q: nat)
    requires Good(c) && off in c.recs && Unadmitted(c, off) && q in c.recs
    requires NamesIt(c, q, Key(c.w, Obj0(c, off).value))
    ensures !CanLand(c, q) && (Stalls(c, off) <== q < off)
  {
    hide Good, RecAt, Obj0, NameRooted, Rooted, InRows, NamesIt;
    var key := Key(c.w, Obj0(c, off).value);
    if CanLand(c, q) {
      var n: nat :| Rooted(c, q, n);
      NamedRooted(c, q, key, n);
      NotInShard(c, off);
      NameBrought(c, key, n - 1);
      OneTyped(c, off);
    }
  }

  lemma NameBrought(c: Ctx, key: nat, n: nat)
    requires NameRooted(c, key, n) && !InRows(c.rows0, key)
    ensures exists off :: off in c.recs && Brings(c, off, key)
  {
    hide InRows, RecAt, Obj0, Brings;
    var off :| Brings(c, off, key) && Rooted(c, off, n);
  }

  lemma NotInShard(c: Ctx, off: nat)
    requires Good(c) && off in c.recs && Unadmitted(c, off)
    ensures !InRows(c.rows0, Key(c.w, Obj0(c, off).value))
  {
    hide RecAt, Obj0, ByKey, RecGood, GoodPick, GoodZlib, HashesTell, Reads;
    var key := Key(c.w, Obj0(c, off).value);
    if InRows(c.rows0, key) {
      var i :| 0 <= i < |c.rows0| && Admits(c.rows0[i], key);
      assert OldOk(c, c.rows0[i]);
      var d: nat, o :| OldIs(c, c.rows0[i], d, o);
      KeyOne(c, o);
      LandedObject(c, c.recs, off);
      WholeObject(c, off);
    }
  }

  /** If every record can land, none stalls. */
  lemma NoneStalls(c: Ctx)
    requires Good(c) && forall off | off in c.recs :: CanLand(c, off)
    ensures forall off | off in c.recs :: !Stalls(c, off)
  {
    hide Good, RecAt, Obj0, NamesIt, CanLand;
    forall off | off in c.recs
      ensures !Stalls(c, off)
    {
      if Stalls(c, off) {
        var q :| q in c.recs && q < off && NamesIt(c, q, Key(c.w, Obj0(c, off).value));
        NamedUnadmitted(c, off, q);
      }
    }
  }

  lemma TakenDelta(c: Ctx, s: State, offs: seq<nat>, busy: int)
    requires busy >= 0 && TakenOk(c, s, offs, busy)
    ensures IsDelta(s.holds[busy].rec.typ)
  {
    hide RecAt, HeldUnder, InRows;
  }

  lemma WokenRec(c: Ctx, s: State, offs: seq<nat>, busy: int)
    requires Good(c) && busy >= 0 && TakenOk(c, s, offs, busy)
    ensures var rec := s.holds[busy].rec;
      rec.off in c.recs && Some(rec) == RecAt(c.w, c.src, rec.off) && rec.typ < 8 && rec.size <= c.w.room.base
  {
    hide Good, RecAt;
    RecFields(c, s.holds[busy].rec);
  }

  /** A record's base is in the index, and the name to cite it by is its own hash. */
  ghost predicate Named(c: Ctx, s: State, rec: Rec, base: Option<Row>, sha: seq<Byte>) {
    base.Some? ==>
      && BaseHere(c, s, rec, base.value) && IsBase(base.value.typ)
      && sha == if rec.typ == REF_DELTA then rec.ref else c.w.sha(ByKey(c, base.value.key))
  }

  /** The cited name is the base's own. */
  lemma ShaFits(c: Ctx, s: State, rec: Rec, base: Option<Row>, cur: nat, sha: seq<Byte>)
    requires Good(c) && RowsOk(c, s) && rec.off in c.recs && Some(rec) == RecAt(c.w, c.src, rec.off)
    requires Named(c, s, rec, base, sha)
    ensures ShaOk(c, cur, base, sha)
  {
    hide Good, RecAt, RowsOk, BaseHere, ByKey;
    if base.Some? {
      ShaLen(c, s, rec, base.value);
    }
  }

  lemma AppendKeeps(c: Ctx, s: State, t: State, offs: seq<nat>, busy: int, waking: set<nat>, cur: nat, rec: Rec,
        base: Option<Row>, sha: seq<Byte>, o: Blob, at: int)
    requires Good(c) && Inv(c, s, offs, busy) && Quiet(s, waking) && -1 <= busy
    requires busy == -1 ==> |offs| < |c.recs| && rec.off == c.recs[|offs|]
    requires busy != -1 ==> WokenOk(c, s, offs, busy) && s.holds[busy].rec.off == rec.off
    requires Lands(c, s, t, cur, rec, base, sha, o, at)
    requires rec.off in c.recs && Some(rec) == RecAt(c.w, c.src, rec.off) && rec.size <= c.w.room.base
    requires |s.logs[cur]| < U64
    requires ContentOk(c, rec, o) && (base.Some? <==> IsDelta(rec.typ))
    requires Named(c, s, rec, base, sha)
    ensures var offs' := if busy == -1 then offs + [rec.off] else offs;
      && Inv(c, t, offs', -1) && Quiet(t, waking + {Key(c.w, o)}) && Grown(s, t)
  {
    hide Good, Inv, Quiet, RecAt, BaseHere, ContentOk, ShaOk, WokenOk, Lands, LogsGrow, RowsOk, ByKey;
    InvWaits(c, s, offs, busy);
    ShaFits(c, s, rec, base, cur, sha);
    Landing(c, s, t, offs, busy, waking, cur, rec, base, sha, o, at);
    RowsMore(c, s, t, offs, busy, cur, rec, base, sha, o, at);
  }

  lemma RowsMore(c: Ctx, s: State, t: State, offs: seq<nat>, busy: int, cur: nat, rec: Rec, base: Option<Row>,
        sha: seq<Byte>, o: Blob, at: int)
    requires Good(c) && Inv(c, s, offs, busy) && -1 <= busy && Lands(c, s, t, cur, rec, base, sha, o, at)
    requires busy == -1 ==> |offs| < |c.recs| && rec.off == c.recs[|offs|]
    requires busy != -1 ==> WokenOk(c, s, offs, busy) && s.holds[busy].rec.off == rec.off
    ensures s.rows <= t.rows && forall m | m in s.map_ && m.val.Landed? :: m in t.map_
  {
    hide Emitted, Good, Inv, WokenOk;
    if busy == -1 {
      NotMapped(c, s, offs, busy);
    } else {
      BusyOnlyWoken(c, s, offs, busy, rec.off);
    }
    forall m | m in s.map_ && m.val.Landed?
      ensures m in t.map_
    {
      var i :| 0 <= i < |s.map_| && s.map_[i] == m;
      assert i < |t.map_| && t.map_[i] == m;
    }
  }

  lemma BusyOnlyWoken(c: Ctx, s: State, offs: seq<nat>, busy: int, off: nat)
    requires Good(c) && Inv(c, s, offs, busy) && busy >= 0 && WokenOk(c, s, offs, busy) && s.holds[busy].rec.off == off
    ensures forall m | m in s.map_ && m.key == off :: m.val == Held(busy)
  {
    hide Good, Inv, WokenOk;
    BusyOnly(c, s, offs, busy, off);
  }

  lemma AppendLayout(c: Ctx, s: State, t: State, lo: nat, cur: nat, count: nat, rec: Rec, base: Option<Row>,
          sha: seq<Byte>, o: Blob)
    requires Good(c) && RowsOk(c, s) && Layout(c.w, s, lo, cur, count, false) && cur in s.logs && |s.logs[cur]| < U64
    requires Wrote(c, s, t, cur, rec, base, sha, o) && ContentOk(c, rec, o) && (base.Some? <==> IsDelta(rec.typ))
    requires rec.off in c.recs && Some(rec) == RecAt(c.w, c.src, rec.off) && rec.size <= c.w.room.base
    requires Named(c, s, rec, base, sha)
    ensures Layout(c.w, t, lo, cur, count + 1, false)
  {
    hide Good, RecAt, ShaOk, Obj0, Emitted, Layout, Wrote, Payload, RowsOk, ByKey, BaseKey, GoodZlib, HashesTell;
    RecFields(c, rec);
    ShaFits(c, s, rec, base, cur, sha);
    RecPayload(c, rec);
    LayoutWrite(c, s, t, lo, cur, count, rec, base, sha, o, c.w.z.inflate(rec.z, rec.size).bytes);
  }

  lemma LayoutCount(w: World, s: State, lo: nat, cur: nat, count: nat)
    requires Layout(w, s, lo, cur, count, true)
    ensures count == |RowsOf(s.rows, cur)|
  {
  }

  // ---------- the run ----------

  function RecEnd(w: World, src: seq<Byte>, off: nat): nat {
    var h := HeaderAt(Loc(src, off));
    var end := |src| - |h.rest| + w.z.inflate(h.rest, h.size).used;
    if end >= 0 then end else 0
  }

  /** The offsets of the source's records, one behind the other, up to the first that cannot be parsed. */
  ghost function Parse(w: World, src: seq<Byte>, from: nat, n: nat): seq<nat>
    decreases n
  {
    if n == 0 || RecAt(w, src, from).None? then [] else [from] + Parse(w, src, RecEnd(w, src, from), n - 1)
  }

  lemma RecNow(w: World, c: Ctx, src: seq<Byte>, cur: nat, h: Header, i: Inflated)
    requires c.w == w && Good(c) && cur < |src| && h == DrainObjHdr(src[cur..]) && h.st == Ok
      && i == w.z.inflate(h.rest, h.size) && i.st == Ok
    requires h.typ == OFS_DELTA ==> h.ofs != 0 && h.ofs <= cur
    ensures i.used <= |h.rest| <= |src|
    ensures RecAt(w, src, cur)
         == Some(Rec(cur, h.typ, h.size, if h.typ == OFS_DELTA then cur - h.ofs else 0, h.ref, h.rest[..i.used]))
    ensures RecEnd(w, src, cur) == |src| - |h.rest| + i.used
  {
    hide DrainVarint, DrainOfs, GoodZlib, HashesTell, RecGood;
    InflatedSize(w.z, h.rest, h.size);
    DrainShorter(src[cur..]);
  }

  lemma {:induction false} GroupsShorter(from: seq<Byte>, more: bool, shift: nat, size: nat)
    ensures |DrainGroups(from, more, shift, size).rest| <= |from|
    decreases |from|
  {
    if more && shift < 64 && from != [] {
      GroupsShorter(from[1..], from[0] >= 128, shift + 7, size + (from[0] % 128) * Pow2(shift) % U64);
    }
  }

  lemma {:induction false} OfsShorter(from: seq<Byte>, more: bool, ofs: nat)
    ensures |DrainOfsFrom(from, more, ofs).rest| <= |from|
    decreases |from|
  {
    if more && ofs < OFS_MAX && from != [] {
      OfsShorter(from[1..], from[0] >= 128, (ofs + 1) * 128 + from[0] % 128);
    }
  }

  lemma DrainShorter(from: seq<Byte>)
    ensures |DrainObjHdr(from).rest| <= |from|
  {
    hide DrainGroups, DrainOfsFrom;
    if from != [] {
      GroupsShorter(from[1..], from[0] >= 128, 4, from[0] % 16);
      var v := DrainVarint(from);
      if v.typ == OFS_DELTA && v.rest != [] {
        OfsShorter(v.rest[1..], v.rest[0] >= 128, v.rest[0] % 128);
      }
    }
  }

  lemma ParseFirst(w: World, src: seq<Byte>, cur: nat, n: nat, rec: Rec)
    requires n > 0 && RecAt(w, src, cur) == Some(rec)
    ensures Parse(w, src, cur, n) == [cur] + Parse(w, src, RecEnd(w, src, cur), n - 1)
  {
    hide RecAt, RecEnd;
  }

  /** The next record parses, or the source has fewer records than its header tells. */
  lemma ParseShort(w: World, c: Ctx, src: seq<Byte>, cur: nat, left: nat, offs: seq<nat>)
    requires c.w == w && c.src == src && left > 0 && c.recs == offs + Parse(w, src, cur, left)
    ensures RecAt(w, src, cur).None? ==> |c.recs| == |offs|
    ensures RecAt(w, src, cur).Some? ==> |offs| < |c.recs| && c.recs[|offs|] == cur && cur in c.recs
    ensures RecAt(w, src, cur).Some? && RecAt(w, src, cur).value.size > w.room.base ==> Oversize(c)
  {
    hide RecAt, RecEnd;
    if RecAt(w, src, cur).Some? {
      var rest := Parse(w, src, RecEnd(w, src, cur), left - 1);
      assert c.recs == offs + ([cur] + rest);
      assert c.recs[|offs|] == cur;
      assert TooLarge(c, cur) <==> RecAt(w, src, cur).value.size > w.room.base;
    }
  }

  /** What a record fails with before it is landed: nothing left, a bad header, a size over the scratch, a stream that
    * ends early or is none, an offset to before the pack. */
  ghost function Fault(w: World, src: seq<Byte>, cur: nat): Status {
    if cur >= |src| then Failed(NoData)
    else
      var h := DrainObjHdr(src[cur..]);
      if h.st != Ok then Failed(h.st)
      else if h.size > w.room.base then Big
      else
        var i := w.z.inflate(h.rest, h.size);
        if i.st == More then Torn
        else if i.st != Ok then Failed(i.st)
        else if h.typ == OFS_DELTA && (h.ofs == 0 || h.ofs > cur) then Base
        else Done
  }

  /** Where the source stands once the records at `offs` are consumed. */
  ghost function StopAt(w: World, src: seq<Byte>, offs: seq<nat>): nat {
    if offs == [] then HEADER else RecEnd(w, src, offs[|offs| - 1])
  }

  lemma StopNext(w: World, src: seq<Byte>, offs: seq<nat>, cur: nat)
    ensures StopAt(w, src, offs + [cur]) == RecEnd(w, src, cur)
  {
    hide RecEnd;
  }

  /** What the header says of the next record. */
  lemma RecTells(w: World, src: seq<Byte>, cur: nat)
    requires cur < |src|
    ensures var h := DrainObjHdr(src[cur..]);
      && (h.st != Ok ==> RecAt(w, src, cur).None?)
      && (RecAt(w, src, cur).Some? ==> RecAt(w, src, cur).value.size == h.size)
      && (w.z.inflate(h.rest, h.size).st != Ok ==> RecAt(w, src, cur).None?)
      && (h.typ == OFS_DELTA && (h.ofs == 0 || h.ofs > cur) ==> RecAt(w, src, cur).None?)
  {
    hide DrainObjHdr;
  }

  lemma NoRecPastEnd(w: World, src: seq<Byte>, cur: nat)
    requires cur >= |src|
    ensures RecAt(w, src, cur).None?
  {
    hide DrainObjHdr;
  }

  lemma ParseNone(w: World, src: seq<Byte>, cur: nat)
    ensures Parse(w, src, cur, 0) == []
  {
  }

  // ---------- before and after ----------

  /** An empty shard before the run: no row, no log. */
  ghost predicate Blank(c: Ctx) {
    c.rows0 == [] && c.logs0 == map[]
  }

  lemma ShardHeaders(c: Ctx)
    requires Good(c)
    ensures forall id | id in c.logs0 :: |c.logs0[id]| >= HEADER
  {
  }

  /** Before the first record: nothing in the map, the shard's rows as they were. */
  lemma Started(c: Ctx, s: State, t: State)
    requires Good(c) && s == State([], [], [], c.rows0, c.logs0)
    requires t == s.(logs := t.logs) && LogsGrow(s.logs, t.logs) && forall id | id in t.logs :: |t.logs[id]| >= HEADER
    ensures Inv(c, t, [], -1) && Quiet(t, {}) && LogsGrow(c.logs0, t.logs)
  {
    hide Good, LogsGrow, Stored;
  }

  /** A row under an object's prefix, with lookups that answer with whichever rows: it never resolves to another object
    * or to a missing base, it does resolve if every copy is within 256 deltas, it does not if every copy is beyond
    * them, and where there is one copy of everything down the chain, being within decides. */
  ghost predicate ReadsAs(c: Ctx, s: State, p: Pick, r: Row, o: Blob) {
    && r.typ == o.typ && r.id in s.logs
    && var m := Meant(StoreOf(c.w, p, s.logs), c.w.room, Loc(s.logs[r.id], r.off), CHAIN_MAX);
    && Verdict(m, o, Within(c, r.key, CHAIN_MAX), Beyond(c, r.key, CHAIN_MAX))
    && (Alone(c, r.key, CHAIN_MAX) ==> (m.st == Ok <==> Within(c, r.key, CHAIN_MAX)))
  }

  /** A source record's object is in the index under its own hash and type, and its rows read as that object. */
  ghost predicate Preserved(c: Ctx, s: State, off: nat) {
    && Obj0(c, off).Some?
    && var o := Obj0(c, off).value;
    && (exists r :: r in s.rows && r.key == Key(c.w, o))
    && forall p: Pick, r | GoodPick(p, s.rows) && r in s.rows && r.key == Key(c.w, o) :: ReadsAs(c, s, p, r, o)
  }

  lemma RowReadsAs(c: Ctx, s: State, p: Pick, r: Row)
    requires Good(c) && RowsOk(c, s) && GoodPick(p, s.rows) && r in s.rows
    ensures ReadsAs(c, s, p, r, ByKey(c, r.key))
  {
    hide Good, RowsOk, Answers, Within, Beyond, Alone, Meant, ByKey, GoodPick;
    AllAnswer(c, s);
    RowReads(c, s, s.rows, p, None, r, CHAIN_MAX);
    RowObject(c, s, r);
    if Alone(c, r.key, CHAIN_MAX) {
      AloneDecides(c, r.key, CHAIN_MAX);
    }
  }

  /** Nothing waits, so everything consumed has landed. */
  lemma AllPreserved(c: Ctx, s: State, offs: seq<nat>)
    requires Good(c) && Inv(c, s, offs, -1) && s.wait == []
    ensures forall off | off in offs :: Preserved(c, s, off)
  {
    hide Good, RowsOk, ReadsAs, Obj0, WaitSorted, GoodPick, ByKey, CanLand;
    forall off | off in offs
      ensures Preserved(c, s, off)
    {
      var i := MapHas(c, s, offs, -1, off);
      var o := Obj0(c, off).value;
      assert Row(Key(c.w, o), o.typ, s.map_[i].val.id, s.map_[i].val.off) in s.rows;
      LandedObject(c, offs, off);
      forall p: Pick, r | GoodPick(p, s.rows) && r in s.rows && r.key == Key(c.w, o)
        ensures ReadsAs(c, s, p, r, o)
      {
        RowReadsAs(c, s, p, r);
      }
    }
  }

  lemma LandedObject(c: Ctx, offs: seq<nat>, off: nat)
    requires Good(c) && offs <= c.recs && off in offs && Obj0(c, off).Some?
    ensures ByKey(c, Key(c.w, Obj0(c, off).value)) == Obj0(c, off).value
  {
    hide GoodZlib, HashesTell, ShardOk, Obj0, RecAt, ByKey;
    assert RecGood(c, off);
    KeyOne(c, Obj0(c, off).value);
  }

  /** At the end of the source, whatever can land has landed: nothing is held back for good that need not be. */
  lemma {:induction false} RootedLanded(c: Ctx, s: State, off: nat, n: nat) returns (m: MapRow)
    requires Good(c) && Inv(c, s, c.recs, -1) && Quiet(s, {}) && Rooted(c, off, n)
    ensures m in s.map_ && m.key == off && m.val.Landed?
    decreases n, 0
  {
    hide Good, RowsOk, InRows, RecAt, Obj0, WaitSorted, NameRooted, CanLand, LandedOk, HeldUnder;
    var i := MapHas(c, s, c.recs, -1, off);
    m := s.map_[i];
    if m.val.Held? {
      var slot := m.val.slot;
      var h := s.holds[slot];
      assert WaitOk(c, s, -1, WaitRow(h.key, slot));
      if h.rec.typ == REF_DELTA {
        NameLanded(c, s, h.key, n - 1);
      } else {
        var b := RootedLanded(c, s, h.rec.baseOff, n - 1);
        var m' :| m' in s.map_ && BaseRow(s, h, slot, m');
        MapOne(c, s, c.recs, -1, b, m');
      }
      assert false;
    }
  }

  lemma {:induction false} NameLanded(c: Ctx, s: State, key: nat, n: nat)
    requires Good(c) && Inv(c, s, c.recs, -1) && Quiet(s, {}) && NameRooted(c, key, n)
    ensures InRows(s.rows, key)
    decreases n, 1
  {
    hide Good, InRows, RecAt, Obj0, WaitSorted, CanLand, WaitOk, LogsGrow, RowOk;
    if InRows(c.rows0, key) {
      InRowsMore(c.rows0, s.rows, key);
    } else {
      var off :| Brings(c, off, key) && Rooted(c, off, n);
      var m := RootedLanded(c, s, off, n);
      assert PlaceOk(c, s, -1, m);
      var o := Obj0(c, off).value;
      RowIn(s.rows, Row(Key(c.w, o), o.typ, m.val.id, m.val.off));
    }
  }

  /** At the end something still waits if and only if some record cannot land. */
  lemma NoneWaits(c: Ctx, s: State)
    requires Good(c) && Inv(c, s, c.recs, -1) && Quiet(s, {})
    ensures s.wait == [] <==> forall off | off in c.recs :: CanLand(c, off)
  {
    hide Good, RowsOk, InRows, RecAt, Obj0, WaitSorted, Rooted;
    if s.wait == [] {
      forall off | off in c.recs
        ensures CanLand(c, off)
      {
        var i := MapHas(c, s, c.recs, -1, off);
      }
    } else {
      var wr := s.wait[0];
      assert WaitOk(c, s, -1, wr);
      var off := s.holds[wr.slot].rec.off;
      if CanLand(c, off) {
        var n: nat :| Rooted(c, off, n);
        var m := RootedLanded(c, s, off, n);
        MapOne(c, s, c.recs, -1, m, MapRow(off, Held(wr.slot)));
        assert false;
      }
    }
  }

  /** Sealing moves no record. */
  lemma SealKeeps(c: Ctx, s: State, t: State)
    requires Good(c) && RowsOk(c, s) && t == s.(logs := t.logs) && LogsGrow(s.logs, t.logs)
    requires forall id | id in t.logs :: |t.logs[id]| >= HEADER
    ensures RowsOk(c, t)
    ensures forall off | off in c.recs && Preserved(c, s, off) :: Preserved(c, t, off)
  {
    hide Good, RowsOk, LogsGrow, ReadsAs, Obj0, GoodPick, ByKey;
    RotateRows(c, s, t);
    forall off | off in c.recs && Preserved(c, s, off)
      ensures Preserved(c, t, off)
    {
      var o := Obj0(c, off).value;
      LandedObject(c, c.recs, off);
      forall p: Pick, r | GoodPick(p, t.rows) && r in t.rows && r.key == Key(c.w, o)
        ensures ReadsAs(c, t, p, r, o)
      {
        RowReadsAs(c, t, p, r);
      }
    }
  }
}
