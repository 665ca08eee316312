/** The streaming repacker itself: records are landed, held back and woken, logs rotate under a size cap. */
module RepackRun {
  import opened Common
  import opened DeltaFormat
  import opened DeltaCodec
  import opened PackFormat
  import opened PackResolve
  import opened PackWrite
  import opened RepackChain
  import opened RepackState
  import opened RepackIndex
  import opened RepackRows
  import opened RepackDepth
  import opened RepackRead
  import opened RepackInv
  import opened RepackEmit
  import opened RepackLayout
  import opened RepackSteps
  import opened RepackCauses
  import opened RepackOutcome
  import opened RepackDeep
  import opened RepackFill

  class Repack {
    const w: World
    const log0: nat
    const cap: nat
    const rbase: array<Byte>
    const rdelta: array<Byte>
    const policy: seq<nat> -> nat                // how many of the youngest runs to merge, by their sizes
    var map_: seq<MapRow>
    var wait: seq<WaitRow>
    var holds: seq<Hold>
    var rows: seq<Row>
    var index: Index
    var logs: map<nat, seq<Byte>>
    var slot: nat
    var count: nat
    var start: nat
    var first: nat

    ghost const c: Ctx
    ghost var offs: seq<nat>                     // the source records consumed so far

    ghost function S(): State
      reads this
    {
      State(map_, wait, holds, rows, logs)
    }

    function Cur(): nat
      reads this
    {
      log0 + slot
    }

    /** Scratch apart, an open log under the cap, no log past it; in a fresh shard, logs laid out back to back. */
    ghost predicate Ready()
      reads this
    {
      && c.w == w && Good(c) && rbase != rdelta && w.room == Room(rbase.Length, rdelta.Length / 2)
      && slot < MAX_LOGS && Cur() in logs && |logs[Cur()]| <= cap < U64
      && (forall id | id in logs :: id <= Cur())
      && (Blank(c) ==> start == 0 && first == HEADER && Layout(w, S(), log0, Cur(), count, false))
    }

    /** All the logs are left for records they had no room for, and that takes a source that fills them. */
    ghost predicate Filled()
      reads this
    {
      Crowded(c, S(), cap, log0) && Overfull(c, cap, log0)
    }

    /** At a record boundary, or with the record of slot `busy` being landed: consumed is landed plus held. */
    ghost predicate Step(busy: int, waking: set<nat>)
      reads this
    {
      && Ready() && Inv(c, S(), offs, busy) && Mapped(c, S()) && Quiet(S(), waking) && Holds(index, rows)
      && Filed(c, S(), cap, log0, Cur())
      && |c.rows0| <= |rows| && |offs| == |rows| - |c.rows0| + |wait| + if busy == -1 then 0 else 1
    }

    /** `rec` is the next source record, or the one in slot `busy`, taken out of the lane. */
    ghost predicate Taken(rec: Rec, busy: int, waking: set<nat>)
      reads this
    {
      && -1 <= busy && rec.off in c.recs && Some(rec) == RecAt(w, c.src, rec.off) && rec.size <= w.room.base
      && (busy == -1 ==> waking == {} && |offs| < |c.recs| && rec.off == c.recs[|offs|])
      && (busy != -1 ==> TakenOk(c, S(), offs, busy) && holds[busy].rec == rec)
    }

    /** `rec` is the next source record, or the one in slot `busy` with its base landed. */
    ghost predicate Due(rec: Rec, busy: int, waking: set<nat>)
      reads this
    {
      && -1 <= busy && rec.off in c.recs && Some(rec) == RecAt(w, c.src, rec.off) && rec.size <= w.room.base
      && (busy == -1 ==> waking == {} && |offs| < |c.recs| && rec.off == c.recs[|offs|])
      && (busy != -1 ==> WokenOk(c, S(), offs, busy) && holds[busy].rec == rec && BaseReady(c, S(), rec))
    }

    /** Finds a delta's base, or what the record must wait for. */
    method Locate(rec: Rec, ghost busy: int, ghost waking: set<nat>)
        returns (st: Status, park: bool, key: nat, isDelta: bool, baseId: nat, baseOff: nat, ghost b: Row)
      requires Step(busy, waking) && Taken(rec, busy, waking)
      ensures st == if rec.typ == OFS_DELTA && (forall m | m in map_ :: m.key != rec.baseOff) then Base else Done
      ensures st == Done && park ==> Waits(c, S(), busy, rec, key)
      ensures st == Done && !park ==> Due(rec, busy, waking) && (isDelta <==> IsDelta(rec.typ))
      ensures st == Done && !park && isDelta ==> BaseHere(c, S(), rec, b) && b.id == baseId && b.off == baseOff
      ensures st == Done && !park ==> BaseOf(c, S(), rec, if isDelta then Some(b) else None)
      ensures st == Done && park ==> forall base: Option<Row> :: !BaseOf(c, S(), rec, base)
    {
      hide Holds, Good, Inv, Quiet, RowOk, Waits, Layout, RecAt, TakenOk, WokenOk, BaseReady, Obj0, Filed, InRows;
      st, park, key, isDelta, baseId, baseOff, b := Done, false, 0, false, 0, 0, Row(0, 0, 0, 0);
      RecFields(c, rec);
      InvWaits(c, S(), offs, busy);
      if busy != -1 {
        TakenDelta(c, S(), offs, busy);
      }
      if rec.typ == OFS_DELTA {
        MapAscends(c, S(), offs, busy);
        var at := MapFind(map_, rec.baseOff);
        if at < 0 {
          st := Base;
          return;
        }
        if map_[at].val.Held? {
          HeldMustWait(c, S(), offs, busy, rec, at);
          HeldNoBase(c, S(), offs, busy, rec, at);
          key, park := holds[map_[at].val.slot].key, true;
        } else {
          OfsBase(c, S(), offs, busy, rec, at);
          baseId, baseOff, isDelta := map_[at].val.id, map_[at].val.off, true;
          ghost var o := Obj0(c, rec.baseOff).value;
          b := Row(Key(c.w, o), o.typ, baseId, baseOff);
          if busy != -1 {
            FoundWoken(c, S(), offs, busy, rec, map_[at]);
          }
        }
      } else if rec.typ == REF_DELTA {
        key := w.prefix(rec.ref);
        LooksGood(c, S(), index);
        HoldsSorted(index, rows);
        PickFinds(Look(index), rows, key);
        var row := Find(index, key);
        if row.Some? {
          RefBase(c, S(), rec, row.value);
          baseId, baseOff, isDelta, b := row.value.id, row.value.off, true, row.value;
          if busy != -1 {
            FoundWoken(c, S(), offs, busy, rec, MapRow(0, Held(0)));
          }
        } else {
          MissingMustWait(c, S(), offs, busy, rec);
          MissingNoBase(c, S(), rec);
          park := true;
        }
      }
    }

    /** Holds a record back: its fields and payload, its map row, its wait row. */
    method Park(rec: Rec, key: nat)
      requires Step(-1, {}) && Due(rec, -1, {}) && MustWait(c, S(), rec, key)
      modifies this`map_, this`wait, this`holds, this`offs
      ensures Step(-1, {}) && offs == old(offs) + [rec.off] && |wait| == old(|wait|) + 1 && Grown(old(S()), S())
      ensures forall m | m in map_ && m.val.Landed? :: m in old(map_)
      ensures logs == old(logs)
    {
      hide Mapped, Holds, Good, Inv, Quiet, MustWait, RecAt, Layout, Filed;
      ghost var s := S();
      MapAscends(c, s, offs, -1);
      InvWaits(c, s, offs, -1);
      NotMapped(c, s, offs, -1);
      var at := MapFind(map_, rec.off);
      if at < 0 {
        map_ := map_ + [MapRow(rec.off, Held(|holds|))];
      }
      assert WaitRow(key, |holds|) !in wait;
      wait := WaitAdd(wait, WaitRow(key, |holds|));
      holds := holds + [Hold(rec, key)];
      ParkKeeps(c, s, offs, rec, key, wait);
      offs := offs + [rec.off];
      assert S() == Parked(s, rec, key, wait);
      GrownRefl(s);
      GrownShows(s, s, S());
      MappedSame(c, s, S());
      FiledSame(c, s, S(), cap, log0, Cur());
      LayoutShows(w, s, S(), log0, Cur(), count, false);
    }

    /** The record's content: inflated, and for a delta applied to its resolved base. */
    method Fetch(rec: Rec, isDelta: bool, baseId: nat, baseOff: nat, ghost b: Row)
        returns (st: Status, content: Blob, base: Blob)
      requires Ready() && RowsOk(c, S()) && Holds(index, rows) && rec.off in c.recs
      requires Some(rec) == RecAt(w, c.src, rec.off)
      requires isDelta <==> IsDelta(rec.typ)
      requires isDelta ==> BaseHere(c, S(), rec, b) && b.id == baseId && b.off == baseOff
      modifies rbase, rdelta
      ensures st == Done ==> ContentOk(c, rec, content)
      ensures st == Done && isDelta ==> base == ByKey(c, b.key) && IsBase(b.typ)
      ensures st == Done || st.Failed?
      ensures Obj0(c, rec.off).Some? && (isDelta ==> Within(c, b.key, CHAIN_MAX)) ==> st == Done
      ensures isDelta && Beyond(c, b.key, CHAIN_MAX) ==> st != Done
      ensures st == Failed(NoBase) ==> w.z.inflate(rec.z, rec.size).st == NoBase
    {
      hide Holds, Good, RowOk, Meant, GoodZlib, Obj0, RecAt, Layout, Meaning, HashesTell, HeaderAt, Holding;
      RecFields(c, rec);
      ObjInflates(c, rec);
      var d := w.z.inflate(rec.z, rec.size);
      content, base := Blob(rec.typ, d.bytes), Blob(0, []);
      if d.st != Ok {
        return Failed(d.st), content, base;
      }
      if !isDelta {
        SourceRaw(c, rec);
        return Done, content, base;
      }
      LooksGood(c, S(), index);
      BaseReads(c, S(), Look(index), rec, b);
      var rs, out, typ := Resolve(StoreOf(w, Look(index), logs), logs[baseId], baseOff, rbase, rdelta);
      if rs != Ok {
        return Failed(rs), content, base;
      }
      var bytes := if out.inBase then rbase[out.off..out.off + out.len] else rdelta[out.off..out.off + out.len];
      HoldingIs(rbase, rdelta, out);
      base := Blob(typ, bytes);
      SourceDelta(c, S(), rec, b);
      var r := Apply(d.bytes, bytes, rbase.Length);
      if r.st != OK {
        return Failed(StatusOf(r.st)), content, base;
      }
      content := Blob(typ, r.out);
      st := Done;
    }

    /** The current log has room for the record under the longest header there is. */
    ghost predicate RoomFor(rec: Rec, isDelta: bool, baseId: nat)
      reads this
    {
      Cur() in logs
      && |logs[Cur()]| + HEADER_GUESS + (if isDelta && baseId != Cur() then SHA_LEN else 0) + |rec.z| <= cap
    }

    /** Appends the record: header, base reference, payload verbatim. */
    method Emit(rec: Rec, isDelta: bool, baseId: nat, baseOff: nat, base: Blob, ghost b: Row)
        returns (st: Status, ghost sha: seq<Byte>)
      requires Ready() && RowsOk(c, S()) && rec.typ < 8 && rec.size <= w.room.base && (isDelta <==> IsDelta(rec.typ))
      requires Good(c)
      requires isDelta ==> BaseHere(c, S(), rec, b) && b.id == baseId && b.off == baseOff && base == ByKey(c, b.key)
      requires rec.off in c.recs && Some(rec) == RecAt(w, c.src, rec.off)
      modifies this`logs
      ensures sha == (if !isDelta then [] else if rec.typ == REF_DELTA then rec.ref else w.sha(base))
      ensures var log := old(logs)[Cur()];
        var log' := log + Emitted(rec, log, Cur(), if isDelta then Some(b) else None, sha);
        st == (if |log'| > cap then Big else Done) && (st == Done ==> logs == old(logs)[Cur() := log'])
      ensures st == Big ==> logs == old(logs)
      ensures old(RoomFor(rec, isDelta, baseId)) ==> st == Done
      ensures 0 < |Emitted(rec, old(logs)[Cur()], Cur(), if isDelta then Some(b) else None, sha)|
           <= HEADER_GUESS + SHA_LEN + |rec.z|
    {
      hide Holds, Good, RowOk, RecAt, Layout, HeaderBytes, OfsBytes, HashesTell, GoodZlib;
      var log := logs[Cur()];
      var etyp := if !isDelta then rec.typ else if baseId == Cur() then OFS_DELTA else REF_DELTA;
      var hb := FeedObjHdr([], etyp, rec.size);
      HeaderSome(etyp, rec.size);
      if etyp == OFS_DELTA {
        BaseInside(c, S(), rec, b);
        hb := FeedOfs(hb, |log| - baseOff);
      }
      sha := if !isDelta then [] else if rec.typ == REF_DELTA then rec.ref else w.sha(base);
      if etyp == REF_DELTA {
        ShaLen(c, S(), rec, b);
      }
      Joined(rec, log, Cur(), if isDelta then Some(b) else None, sha, hb, if etyp == REF_DELTA then sha else []);
      RecFields(c, rec);
      EmittedFits(rec, log, Cur(), if isDelta then Some(b) else None, sha);
      var need := |hb| + (if etyp == REF_DELTA then SHA_LEN else 0) + |rec.z|;
      if |log| + need > cap {
        return Big, sha;
      }
      var named := if etyp != REF_DELTA then [] else if rec.typ == REF_DELTA then rec.ref else w.sha(base);
      logs := logs[Cur() := log + hb + named + rec.z];
      st := Done;
    }

    /** Closes the current log: the count goes into a header of its own; an appended log keeps the one it has. */
    method Seal()
      requires Ready() && Good(c) && forall id | id in logs :: |logs[id]| >= HEADER
      modifies this`logs
      ensures LogsGrow(old(logs), logs) && (forall id | id in logs :: |logs[id]| >= HEADER)
      ensures SameSizes(old(logs), logs)
      ensures Blank(c) ==> Layout(w, S(), log0, Cur(), count, true)
      ensures var log := old(logs)[Cur()];
        logs == if |log| > first && start == 0 then old(logs)[Cur() := PackHdr(count) + log[HEADER..]] else old(logs)
    {
      hide Holds, Good, Layout, PackHdr;
      ghost var s := S();
      if |logs[Cur()]| <= first {
        if Blank(c) {
          LayoutSealEmpty(w, s, log0, Cur(), count);
        }
        return;
      }
      if start == 0 {
        var log := logs[Cur()];
        logs := logs[Cur() := PackHdr(count) + log[HEADER..]];
        assert logs[Cur()][HEADER..|log|] == log[HEADER..|log|];
        if Blank(c) {
          GoodCodec(c);
          LayoutSeal(w, s, S(), log0, Cur(), count);
        }
      }
    }

    /** Is the first log one that already holds something? */
    predicate Behind()
      reads this
    {
      slot == 0 && Cur() in logs && |logs[Cur()]| > HEADER
    }

    /** Even the first log has no room to begin with. */
    predicate NoRoom()
      reads this
    {
      if Behind() then |logs[Cur()]| >= cap else HEADER > cap
    }

    /** Opens the current slot's log: behind what an existing first log holds, or fresh with a zero count. */
    method Open() returns (st: Status)
      modifies this`logs, this`count, this`start, this`first
      ensures st == Done ==> slot < MAX_LOGS && Cur() in logs && |logs[Cur()]| <= cap
      ensures st == Done && (slot > 0 ==> Cur() !in old(logs)) && old(forall id | id in logs :: |logs[id]| >= HEADER)
        ==> LogsGrow(old(logs), logs) && (forall id | id in logs :: |logs[id]| >= HEADER)
      ensures if st == Done then logs.Keys == old(logs).Keys + {Cur()} else logs == old(logs)
      ensures st == if slot >= MAX_LOGS then Logs
                    else if old(NoRoom()) then Big else Done
      ensures st == Done && old(Behind()) ==> logs == old(logs) && count == 0 && start == first == |logs[Cur()]|
      ensures st == Done && !old(Behind()) ==>
        logs == old(logs)[Cur() := PackHdr(0)] && count == 0 && start == 0 && first == HEADER
    {
      hide PackHdr;
      if slot >= MAX_LOGS {
        return Logs;
      }
      if Behind() {
        if |logs[Cur()]| >= cap {
          return Big;
        }
        start, first, count := |logs[Cur()]|, |logs[Cur()]|, 0;
        return Done;
      }
      if HEADER > cap {
        return Big;
      }
      logs := logs[Cur() := PackHdr(0)];
      start, first, count := 0, HEADER, 0;
      st := Done;
    }

    /** Seals the current log and opens the next one, for a record the current one has no room for. */
    method Rotate(ghost off: nat, ghost busy: int, ghost waking: set<nat>) returns (st: Status)
      requires Step(busy, waking) && Breaches(c, S(), cap, Cur(), off)
      modifies this`logs, this`slot, this`count, this`start, this`first
      ensures st == Done ==> Step(busy, waking) && slot == old(slot) + 1 && Grown(old(S()), S()) && map_ == old(map_)
      ensures st == Done ==> Fits(c, S(), cap, log0, Cur(), off)
      ensures st == Done || (st == Logs && slot >= MAX_LOGS && Filled())
    {
      hide Mapped, Holds, Good, Inv, Layout, PackHdr, LogsGrow, Quiet, PackGrows, Filed, Breaches, Fits, Crowded,
        Overfull, SameSizes, Grown;
      ghost var s := S();
      InvWaits(c, s, offs, busy);
      Seal();
      ghost var x := S();
      SizesKeys(s.logs, x.logs);
      SealedFull(c, s, x, offs, busy, cap, log0, Cur(), off);
      slot := slot + 1;
      st := Open();
      if st != Done {
        return;
      }
      Rotated(c, s, x, S(), offs, busy, waking, cap, log0, Cur() - 1, off, PackHdr(0));
      if Blank(c) {
        LayoutOpen(w, x, S(), log0, Cur() - 1, old(count));
      }
    }

    /** The record is in the log: records where, and indexes it. */
    method Record(rec: Rec, our: nat, content: Blob, ghost s: State, ghost base: Option<Row>, ghost sha: seq<Byte>,
            ghost busy: int, ghost waking: set<nat>)
        returns (key: nat)
      requires c.w == w && Good(c) && Inv(c, s, offs, busy) && Quiet(s, waking) && -1 <= busy
      requires busy == -1 ==> |offs| < |c.recs| && rec.off == c.recs[|offs|]
      requires busy != -1 ==> WokenOk(c, s, offs, busy) && s.holds[busy].rec.off == rec.off
      requires rec.off in c.recs && Some(rec) == RecAt(c.w, c.src, rec.off) && rec.size <= c.w.room.base && rec.typ < 8
      requires S() == s.(logs := logs) && Cur() in s.logs && our == |s.logs[Cur()]| < U64
      requires logs == s.logs[Cur() := s.logs[Cur()] + Emitted(rec, s.logs[Cur()], Cur(), base, sha)]
      requires ContentOk(c, rec, content)
      requires Named(c, s, rec, base, sha) && (base.Some? <==> IsDelta(rec.typ))
      requires Blank(c) ==> Layout(w, s, log0, Cur(), count, false)
      requires Holds(index, rows)
      modifies this`map_, this`rows, this`index, this`count, this`offs
      ensures Inv(c, S(), offs, -1) && Quiet(S(), waking + {key}) && Grown(s, S()) && Holds(index, rows)
      ensures key == Key(c.w, content) && rows == old(rows) + [Row(key, content.typ, Cur(), our)]
      ensures LandsOne(s, S(), rec.off) && MapLanded(s.map_, map_, MapRow(rec.off, Landed(Cur(), our)))
      ensures offs == if busy == -1 then old(offs) + [rec.off] else old(offs)
      ensures Blank(c) ==> Layout(w, S(), log0, Cur(), count, false)
    {
      hide Holds, Named, InRows, IsDelta, Good, Inv, Quiet, Layout, RecAt, BaseHere, ContentOk, ShaOk, WokenOk,
        BaseReady, LogsGrow, Grown, Obj0, Emitted, GoodZlib, HashesTell, RowOk, RowsOk, WaitSorted, MapLanded, LandsOne;
      MapAscends(c, s, offs, busy);
      InvWaits(c, s, offs, busy);
      var at := MapFind(map_, rec.off);
      var row := MapRow(rec.off, Landed(Cur(), our));
      var patched := if at >= 0 then map_[at := row] else map_ + [row];
      LandsInto(c, s, offs, busy, row, at, patched);
      key := w.prefix(w.sha(content));
      var indexed := rows + [Row(key, content.typ, Cur(), our)];
      ghost var t := State(patched, s.wait, s.holds, indexed, logs);
      assert Lands(c, s, t, Cur(), rec, base, sha, content, at);
      AppendKeeps(c, s, t, offs, busy, waking, Cur(), rec, base, sha, content, at);
      if Blank(c) {
        AppendLayout(c, s, t, log0, Cur(), count, rec, base, sha, content);
      }
      index := Add(index, Row(key, content.typ, Cur(), our), policy, rows);
      LandedNow(c, s, t, Cur(), rec, base, sha, content, at);
      map_, rows, count := patched, indexed, count + 1;
      offs := if busy == -1 then offs + [rec.off] else offs;
      assert S() == t;
    }

    /** Emits the record and indexes it; what waits for it is still to be woken. */
    method Append(rec: Rec, isDelta: bool, baseId: nat, baseOff: nat, base: Blob, content: Blob, ghost b: Row,
            ghost busy: int, ghost waking: set<nat>)
        returns (st: Status, key: nat)
      requires Step(busy, waking) && Due(rec, busy, waking) && (isDelta <==> IsDelta(rec.typ))
      requires isDelta ==>
        BaseHere(c, S(), rec, b) && b.id == baseId && b.off == baseOff && base == ByKey(c, b.key) && IsBase(b.typ)
      requires ContentOk(c, rec, content) && Fits(c, S(), cap, log0, Cur(), rec.off)
      modifies this`logs, this`map_, this`rows, this`index, this`count, this`offs
      ensures st == Done ==> Step(-1, waking + {key}) && Grown(old(S()), S()) && LandsOne(old(S()), S(), rec.off)
      ensures st == Done ==> Begun(S(), log0, Cur())
      ensures st == Done ==>
        key == Key(c.w, content) && exists id, off :: rows == old(rows) + [Row(key, content.typ, id, off)]
      ensures st == Done ==> offs == if busy == -1 then old(offs) + [rec.off] else old(offs)
      ensures old(RoomFor(rec, isDelta, baseId)) ==> st == Done
    {
      hide Holds, Good, Inv, Quiet, Layout, RecAt, BaseHere, ContentOk, ShaOk, WokenOk, BaseReady, LogsGrow, Grown,
        Obj0, Emitted, GoodZlib, HashesTell, RowOk, RowsOk, WaitSorted, Filed, Fits, Begun, MapLanded;
      RecFields(c, rec);
      key := 0;
      ghost var s := S();
      InvWaits(c, s, offs, busy);
      var our := |logs[Cur()]|;
      ghost var sha: seq<Byte>;
      st, sha := Emit(rec, isDelta, baseId, baseOff, base, b);
      if st != Done {
        return;
      }
      key := Record(rec, our, content, s, if isDelta then Some(b) else None, sha, busy, waking);
      CopyOf(c, rec, content);
      MappedMore(c, s, S(), rec.off, Row(key, content.typ, Cur(), our));
      ghost var base' := if isDelta then Some(b) else None;
      FiledLanded(c, s, S(), cap, log0, Cur(), rec, Emitted(rec, s.logs[Cur()], Cur(), base', sha));
    }

    /** Emits the record, indexes it, and wakes whatever waited on it. */
    method LandHere(rec: Rec, isDelta: bool, baseId: nat, baseOff: nat, base: Blob, content: Blob, ghost b: Row,
            depth: nat,
            ghost busy: int, ghost top: nat, ghost waking: set<nat>)
        returns (st: Status)
      requires Step(busy, waking) && Due(rec, busy, waking) && (isDelta <==> IsDelta(rec.typ))
      requires isDelta ==>
        BaseHere(c, S(), rec, b) && b.id == baseId && b.off == baseOff && base == ByKey(c, b.key) && IsBase(b.typ)
      requires ContentOk(c, rec, content) && RoomFor(rec, isDelta, baseId)
      requires Fits(c, S(), cap, log0, Cur(), rec.off)
      requires depth < CHAIN_MAX && Cascade(c, top, rec.off, depth)
      requires if busy == -1 then depth == 0 else TopLanded(S(), offs, top)
      modifies this, rbase, rdelta
      ensures st == Done ==> Step(-1, waking) && Grown(old(S()), S())
      ensures st == Done ==> offs == if busy == -1 then old(offs) + [rec.off] else old(offs)
      ensures st == Done ==> |wait| <= old(|wait|)
      ensures st == Done ==> LandedAt(S(), rec.off) && Shallow(c, old(offs), old(S()), S(), CHAIN_MAX - depth)
      ensures Excused(c, slot, st) || (st == Stuck && busy == -1)
      ensures (st == Done ==> Begun(S(), log0, Cur())) && (st == Logs ==> Filled())
      ensures busy == -1 && st != Logs ==> (st == Stuck <==> Stalls(c, rec.off))
      decreases |wait|, MAX_LOGS - slot, 1
    {
      hide Mapped, Shallow, Holds, Good, Inv, Quiet, Layout, RecAt, BaseHere, ContentOk, ShaOk, WokenOk, BaseReady,
        LogsGrow, Grown, Obj0, Emitted, GoodZlib, HashesTell, Excused, Stalls, Unadmitted, Cascade, LandedAt, InRows,
        WaitsFor, Filed, Fits, Begun, Crowded, Overfull;
      ghost var s := S();
      ghost var offs0 := offs;
      InvWaits(c, s, offs, busy);
      var key': nat;
      st, key' := Append(rec, isDelta, baseId, baseOff, base, content, b, busy, waking);
      ghost var s1 := S();
      CopyOf(c, rec, content);
      if busy == -1 {
        FirstTop(c, top, rec.off);
        StallDecides(c, s, s1, offs0, rec, isDelta, b, content);
      } else {
        TopKept(s, s1, offs, top);
        FoundAgain(c, s, s1, offs0, busy, rec, isDelta, b, content);
      }
      WaitsSame(s, s1, key');
      ExcuseDone(c);
      Unlanded(c, s, offs0, busy, rec);
      st := Wake(key', depth, rec.off, top, waking);
      if st == Done {
        GrownTrans(s, s1, S());
        GrownLanded(s1, S(), rec.off);
        ShallowLand(c, offs0, offs, s, s1, S(), busy, rec.off, key', CHAIN_MAX - depth);
      }
    }

    /** A record whose base is not there: held back as it arrives; one taken out of the lane has its row already. */
    method HoldBack(rec: Rec, key: nat, ghost busy: int, ghost waking: set<nat>) returns (st: Status)
      requires Step(busy, waking) && Taken(rec, busy, waking) && Waits(c, S(), busy, rec, key)
      modifies this`map_, this`wait, this`holds, this`offs
      ensures st == if busy == -1 then Done else Stuck
      ensures st == Stuck ==> S() == old(S()) && offs == old(offs)
      ensures st == Done ==> Step(-1, {}) && offs == old(offs) + [rec.off] && |wait| == old(|wait|) + 1
      ensures st == Done ==> Grown(old(S()), S()) && logs == old(logs)
      ensures st == Done ==> forall m | m in map_ && m.val.Landed? :: m in old(map_)
    {
      hide Holds, Good, Inv, Quiet, Layout, RecAt, TakenOk, MustWait, Mapped, Filed, Grown, InRows;
      MapAscends(c, S(), offs, busy);
      if busy == -1 {
        NotMapped(c, S(), offs, busy);
      } else {
        TakenHeld(c, S(), offs, busy, rec);
      }
      var at := MapFind(map_, rec.off);
      if at >= 0 {
        return Stuck;
      }
      Park(rec, key);
      st := Done;
    }

    /** Lands one record: locates its base, resolves it out of the logs, emits the record (rotating first if it
      * would breach the cap), records where it went, indexes it, and wakes whatever waited on it.  A record taken out
      * of the lane that must wait again is stuck: it would be held again and taken out again, without end. */
    method Land(rec: Rec, depth: nat, ghost busy: int, ghost top: nat, ghost waking: set<nat>) returns (st: Status)
      requires Step(busy, waking) && Taken(rec, busy, waking) && Fits(c, S(), cap, log0, Cur(), rec.off)
      requires depth <= CHAIN_MAX && Cascade(c, top, rec.off, depth)
      requires if busy == -1 then depth == 0 else TopLanded(S(), offs, top)
      modifies this, rbase, rdelta
      ensures st == Done ==> Step(-1, waking) && Grown(old(S()), S())
      ensures st == Done ==> offs == if busy == -1 then old(offs) + [rec.off] else old(offs)
      ensures st == Done ==> |wait| <= old(|wait|) + if busy == -1 then 1 else 0
      ensures st == Done ==> Shallow(c, old(offs), old(S()), S(), CHAIN_MAX - depth)
      ensures st == Done && !IsDelta(rec.typ) ==> LandedAt(S(), rec.off)
      ensures Excused(c, slot, st) || st == Stuck
      ensures (st == Done ==> Begun(S(), log0, Cur())) && (st == Logs ==> Filled())
      ensures busy == -1 && Stalls(c, rec.off) ==> st == Stuck || st == Logs
      ensures busy == -1 && st == Stuck ==> Stalls(c, rec.off)
      ensures busy != -1 && depth < CHAIN_MAX ==> (st == Stuck <==> !InRows(old(rows), old(holds)[busy].key))
      ensures busy != -1 && depth == CHAIN_MAX ==> st == Base
      decreases |wait|, MAX_LOGS - slot, 2
    {
      hide Holds, Good, Inv, Quiet, Layout, RecAt, BaseHere, ContentOk, ShaOk, TakenOk, BaseReady, LogsGrow, Grown,
        Obj0, Emitted, GoodZlib, HashesTell, Excused, Baseless, Stalls, Cascade, TopLanded, InRows, MustWait, Mapped,
        Shallow, LandedAt, Filed, Fits, Begun, Breaches, Crowded, Overfull, BaseOf, TooMuch, NeedIn, RowsOk,
        WaitSorted, Ascends;
      if depth >= CHAIN_MAX {
        ExcuseDeep(c, slot, top, rec.off);
        return Base;
      }
      RecFields(c, rec);
      InvWaits(c, S(), offs, busy);
      MapAscends(c, S(), offs, busy);
      ghost var s0 := S();
      var park, isDelta: bool, key: nat, baseId: nat, baseOff: nat;
      ghost var b: Row;
      st, park, key, isDelta, baseId, baseOff, b := Locate(rec, busy, waking);
      if st != Done {
        if busy != -1 {
          TakenMapped(c, s0, offs, busy, rec);
        }
        ExcuseBaseless(c, s0, offs, slot, busy, rec);
        NotStalled(c, rec);
        return;
      }
      ExcuseDone(c);
      if park {
        ParkBegun(c, s0, cap, log0, Cur(), rec);
        st := HoldBack(rec, key, busy, waking);
        if st != Done {
          return;
        }
        BegunSame(s0, S(), log0, Cur());
        ParkedDelta(c, s0, rec, key);
        ShallowRefl(c, old(offs), s0, S(), CHAIN_MAX - depth);
        NotStalled(c, rec);
        return;
      }
      var content: Blob, base: Blob;
      st, content, base := Fetch(rec, isDelta, baseId, baseOff, b);
      if st != Done {
        ExcuseFetch(c, S(), slot, rec, isDelta, b, st);
        StalledFetch(c, rec);
        return;
      }
      if |logs[Cur()]| + HEADER_GUESS + (if isDelta && baseId != Cur() then SHA_LEN else 0) + |rec.z| > cap {
        BreachNow(c, S(), cap, Cur(), rec, if isDelta then Some(b) else None);
        st := Rotate(rec.off, busy, waking);
        if st != Done {
          ExcuseLogs(c, slot);
          return;
        }
        ghost var s1 := S();
        if busy != -1 {
          DueShows(c, s0, s1, offs, busy, rec);
          TopKept(s0, s1, offs, top);
        }
        st := Land(rec, depth, busy, top, waking);
        if st == Done {
          GrownTrans(s0, s1, S());
          ShallowShows(c, old(offs), s0, s1, S(), CHAIN_MAX - depth);
        }
        return;
      }
      st := LandHere(rec, isDelta, baseId, baseOff, base, content, b, depth, busy, top, waking);
    }

    /** Lands every record that waits for the object just landed, first come first. */
    method Wake(key: nat, depth: nat, ghost waker: nat, ghost top: nat, ghost waking: set<nat>) returns (st: Status)
      requires Step(-1, waking + {key}) && IsCopy(c, waker, key) && TopLanded(S(), offs, top)
      requires depth < CHAIN_MAX && Cascade(c, top, waker, depth) && Begun(S(), log0, Cur())
      modifies this, rbase, rdelta
      ensures st == Done ==> Step(-1, waking) && Grown(old(S()), S())
      ensures (st == Done ==> Begun(S(), log0, Cur())) && (st == Logs ==> Filled())
      ensures st == Done ==> offs == old(offs) && |wait| <= old(|wait|)
      ensures st == Done ==> !WaitsFor(S(), key) && Shallow(c, offs, old(S()), S(), CHAIN_MAX - depth - 1)
      ensures Excused(c, slot, st) || st == Stuck
      ensures st == Stuck ==> !InRows(old(rows), key) && old(WaitsFor(S(), key))
      ensures !InRows(old(rows), key) && old(WaitsFor(S(), key)) && depth + 1 < CHAIN_MAX ==> st == Stuck
      decreases |wait|, MAX_LOGS - slot, 0
    {
      hide Holds, Good, Inv, Quiet, Layout, RecAt, TakenOk, BaseReady, LogsGrow, Grown, WaitSorted, RowsOk, Excused,
        IsCopy, Cascade, TopLanded, InRows, Mapped, Shallow, Filed, Begun, Fits, Crowded, Overfull;
      InvWaits(c, S(), offs, -1);
      GrownRefl(S());
      ShallowRefl(c, offs, S(), S(), CHAIN_MAX - depth - 1);
      while true
        invariant Step(-1, waking + {key}) && Grown(old(S()), S()) && TopLanded(S(), offs, top)
        invariant offs == old(offs) && |wait| <= old(|wait|) && Begun(S(), log0, Cur())
        invariant Shallow(c, offs, old(S()), S(), CHAIN_MAX - depth - 1)
        invariant InRows(rows, key) <==> InRows(old(rows), key)
        invariant InRows(rows, key) || wait == old(wait)
        invariant |wait| < old(|wait|) || slot == old(slot)
        decreases |wait|
      {
        ghost var s := S();
        InvWaits(c, s, offs, -1);
        var at := WaitFind(wait, key);
        if at < 0 {
          QuietNow(s, waking, key);
          ExcuseDone(c);
          return Done;
        }
        assert wait[at] in wait;
        WakesDeeper(c, s, offs, top, waker, depth, wait[at]);
        var hold := holds[wait[at].slot];
        ghost var busy := wait[at].slot;
        WakeTakes(c, s, offs, at, waking + {key});
        wait := wait[..at] + wait[at + 1..];
        LayoutShows(w, s, S(), log0, Cur(), count, false);
        MappedSame(c, s, S());
        WokenRec(c, S(), offs, busy);
        ghost var s1 := S();
        GrownRefl(s);
        GrownShows(s, s, s1);
        FiledSame(c, s, s1, cap, log0, Cur());
        BegunSame(s, s1, log0, Cur());
        BegunFits(c, s1, cap, log0, Cur(), hold.rec.off);
        TopKept(s, s1, offs, top);
        st := Land(hold.rec, depth + 1, busy, top, waking + {key});
        if st != Done {
          return;
        }
        TopKept(s1, S(), offs, top);
        GrownIn(s1, S(), key);
        GrownTrans(s, s1, S());
        GrownTrans(old(S()), s, S());
        ShallowShows(c, offs, s, s1, S(), CHAIN_MAX - depth - 1);
        ShallowTrans(c, offs, old(S()), s, S(), CHAIN_MAX - depth - 1);
      }
    }

    /** A shard with its index, before anything is read. */
    constructor (w: World, log0: nat, cap: nat, policy: seq<nat> -> nat, rows: seq<Row>, index: Index,
            logs: map<nat, seq<Byte>>, rbase: array<Byte>, rdelta: array<Byte>, ghost c: Ctx)
      requires c.w == w && Good(c) && rbase != rdelta && w.room == Room(rbase.Length, rdelta.Length / 2) && cap < U64
      requires rows == c.rows0 && logs == c.logs0 && Holds(index, rows)
      requires forall id | id in logs :: id <= log0
      ensures this.w == w && this.log0 == log0 && this.cap == cap && this.rbase == rbase && this.rdelta == rdelta
      ensures this.c == c
      ensures S() == State([], [], [], rows, logs) && Idle()
    {
      this.w, this.log0, this.cap, this.policy, this.c := w, log0, cap, policy, c;
      this.rbase, this.rdelta := rbase, rdelta;
      map_, wait, holds, this.rows, this.index, this.logs := [], [], [], rows, index, logs;
      slot, count, start, first := 0, 0, 0, 0;
      offs := [];
    }

    /** Nothing consumed yet. */
    ghost predicate Idle()
      reads this
    {
      && c.w == w && Good(c) && rbase != rdelta && w.room == Room(rbase.Length, rdelta.Length / 2) && cap < U64
      && slot == 0 && offs == [] && S() == State([], [], [], c.rows0, c.logs0) && Holds(index, rows)
      && (forall id | id in logs :: id <= log0)
    }

    method Begin() returns (st: Status)
      requires Idle()
      modifies this`logs, this`count, this`start, this`first
      ensures st == Done ==> Step(-1, {}) && LogsGrow(old(logs), logs) && Begun(S(), log0, Cur())
      ensures st == if old(NoRoom()) then Big else Done
    {
      hide Holds, Good, RowsOk, Layout, LogsGrow, PackHdr, Filed, Begun;
      ghost var s := S();
      ShardHeaders(c);
      st := Open();
      if st == Done {
        Started(c, s, S());
        FiledFirst(c, S(), cap, log0);
        MappedStart(c, S());
        if Blank(c) {
          LayoutFirst(w, S(), log0);
        }
      }
    }

    /** One source record, parsed: its fields and where it ends. */
    method ReadRec(src: seq<Byte>, cur: nat) returns (st: Status, rec: Rec, end: nat)
      requires Good(c) && c.w == w && w.room == Room(rbase.Length, rdelta.Length / 2)
      ensures st == Fault(w, src, cur)
      ensures st == Done ==> Some(rec) == RecAt(w, src, cur) && rec.off == cur && rec.size <= w.room.base
      ensures st == Done ==> end == RecEnd(w, src, cur)
      ensures st != Done ==> RecAt(w, src, cur).None? || (st == Big && RecAt(w, src, cur).value.size > w.room.base)
    {
      hide Good, RecAt, RecEnd, DrainObjHdr;
      rec, end := Rec(cur, 0, 0, 0, [], []), cur;
      if cur >= |src| {
        NoRecPastEnd(w, src, cur);
        st := Failed(NoData);
        return;
      }
      RecTells(w, src, cur);
      var h := DrainObjHdrSteps(src[cur..]);
      if h.st != Ok {
        st := Failed(h.st);
        return;
      }
      if h.size > rbase.Length {
        st := Big;
        return;
      }
      var i := w.z.inflate(h.rest, h.size);
      if i.st == More {
        st := Torn;
        return;
      }
      if i.st != Ok {
        st := Failed(i.st);
        return;
      }
      if h.typ == OFS_DELTA && (h.ofs == 0 || h.ofs > cur) {
        st := Base;
        return;
      }
      RecNow(w, c, src, cur, h, i);
      st := Done;
      rec := Rec(cur, h.typ, h.size, if h.typ == OFS_DELTA then cur - h.ofs else 0, h.ref, h.rest[..i.used]);
      end := |src| - |h.rest| + i.used;
    }

    /** Why one record, the one after those at `n`, ended the run: it does not parse, it is too large, its landing
      * failed for its own reasons, or it stalls. */
    ghost predicate Ended(st: Status, n: nat)
      reads this
    {
      || (|c.recs| == n && st == Fault(w, c.src, StopAt(w, c.src, c.recs))) || (st == Big && Oversize(c))
      || (Excused(c, slot, st) && (st == Logs ==> Filled()))
      || (st == Stuck && n < |c.recs| && Stalls(c, c.recs[n]))
    }

    /** One source record: parsed, then landed or held. */
    method Next(src: seq<Byte>, cur: nat, ghost left: nat) returns (st: Status, cur': nat)
      requires Step(-1, {}) && src == c.src && left > 0 && c.recs == offs + Parse(w, src, cur, left)
      requires Begun(S(), log0, Cur()) && cur == StopAt(w, src, offs)
      modifies this, rbase, rdelta
      ensures st == Done ==> Step(-1, {}) && Grown(old(S()), S()) && Begun(S(), log0, Cur())
      ensures st == Done ==> c.recs == offs + Parse(w, src, cur', left - 1) && |offs| == old(|offs|) + 1
      ensures st == Done ==> cur' == StopAt(w, src, offs)
      ensures st == Done || Ended(st, old(|offs|))
      ensures old(|offs|) < |c.recs| && Stalls(c, c.recs[old(|offs|)]) ==> st == Stuck || st == Logs || st == Big
      ensures st == Done ==> offs == old(offs) + [c.recs[old(|offs|)]] && !Overhung(c, old(|offs|))
    {
      hide Holds, Good, Grown, Inv, Quiet, Layout, RecAt, RecEnd, Fault, LogsGrow, RowsOk, Obj0, PackGrows, Parse,
        Excused, Oversize, Stalls, Cascade, Mapped, Shallow, LandedAt, Overhung, Filed, Begun, Fits, Crowded, Overfull,
        StopAt;
      ParseShort(w, c, src, cur, left, offs);
      var rec: Rec;
      st, rec, cur' := ReadRec(src, cur);
      ghost var rest, offs0 := Parse(w, src, RecEnd(w, src, cur), left - 1), offs;
      if st != Done {
        assert |c.recs| == |offs0| ==> c.recs == offs0;
        return;
      }
      ParseFirst(w, src, cur, left, rec);
      StopNext(w, src, offs0, cur);
      CascadeStart(c, cur);
      ghost var s := S();
      BegunFits(c, s, cap, log0, Cur(), cur);
      st := Land(rec, 0, -1, cur, {});
      if st == Done {
        NotOverhung(c, s, S(), offs0, rec);
      }
      assert offs0 + ([cur] + rest) == offs0 + [cur] + rest;
    }

    /** The end of the run: nothing may still be held; the last log is sealed. */
    method Finish() returns (st: Status)
      requires Step(-1, {}) && offs == c.recs
      modifies this`logs, this`index
      ensures st == if forall off | off in c.recs :: CanLand(c, off) then Done else Base
      ensures st == Done ==> |c.recs| == |rows| - |c.rows0| && RowsOk(c, S()) && Holds(index, rows) && index.page == []
      ensures st == Done ==> LogsGrow(old(logs), logs) && forall off | off in c.recs :: Preserved(c, S(), off)
      ensures st == Done && Blank(c) ==> Layout(w, S(), log0, Cur(), |RowsOf(rows, Cur())|, true)
      ensures st == Done ==> Packed(c, S(), cap, log0, Cur())
    {
      hide Holds, Good, Inv, Quiet, Layout, LogsGrow, RowsOk, Preserved, LeftAt, Thrifty, PackHdr;
      NoneWaits(c, S());
      if wait != [] {
        return Base;
      }
      ghost var s := S();
      AllPreserved(c, s, offs);
      InvWaits(c, s, offs, -1);
      Seal();
      SealKeeps(c, s, S());
      FiledSealed(c, s, S(), cap, log0, Cur());
      if Blank(c) {
        LayoutCount(w, S(), log0, Cur(), count);
      }
      index := Flush(index, policy, rows);
      st := Done;
    }

    /** What ends the reading of records early, at whichever record. */
    ghost predicate Halted(st: Status, n: nat)
      reads this
    {
      exists k: nat :: k < n && Ended(st, k)
    }

    /** All records in turn. */
    method ReadAll(src: seq<Byte>, n: nat) returns (st: Status)
      requires Step(-1, {}) && offs == [] && src == c.src && c.recs == Parse(w, src, HEADER, n)
      requires Begun(S(), log0, Cur())
      modifies this, rbase, rdelta
      ensures st == Done ==> Step(-1, {}) && |c.recs| == n && offs == c.recs
      ensures st == Done ==> forall i: nat | i < n :: !Overhung(c, i)
      ensures st == Done || Halted(st, n)
    {
      hide Step, Ready, Parse, Ended, Overhung, Begun, Filled, RecEnd;
      var cur: nat, k: nat := HEADER, 0;
      while k < n
        invariant Begun(S(), log0, Cur()) && cur == StopAt(w, src, offs)
        invariant Step(-1, {}) && forall i: nat | i < k :: !Overhung(c, i)
        invariant k <= n && k == |offs| && c.recs == offs + Parse(w, src, cur, n - k)
      {
        st, cur := Next(src, cur, n - k);
        if st != Done {
          return;
        }
        k := k + 1;
      }
      ParseNone(w, src, cur);
      assert offs + [] == offs;
      st := Done;
    }

    /** Everything that ends a run early: no header, no room in the first log, what ends the reading of records, or a
      * record whose bases, followed down, are missing or over it. */
    ghost predicate CutShort(st: Status, src: seq<Byte>, full: bool)
      reads this
    {
      || (st == Hdr && |src| < HEADER)
      || (st.Failed? && DrainHdr(src).st != Ok)
      || (st == Big && full)
      || Halted(st, DrainHdr(src).count)
      || (st == Base && exists off :: off in c.recs && !CanLand(c, off))
    }

    /** The whole run: every record of the source pack in turn.  Done means every one landed and is indexed. */
    method Run(src: seq<Byte>) returns (st: Status)
      requires Idle() && src == c.src && c.recs == Parse(w, src, HEADER, DrainHdr(src).count)
      modifies this, rbase, rdelta
      ensures st == Done ==> |c.recs| == DrainHdr(src).count == |rows| - |c.rows0|
      ensures st == Done ==> RowsOk(c, S()) && Holds(index, rows)
      ensures st == Done ==> forall off | off in c.recs :: CanLand(c, off) && !Stalls(c, off) && Preserved(c, S(), off)
      ensures st == Done ==> forall i: nat | i < |c.recs| :: !Overhung(c, i)
      ensures st == Done && Blank(c) ==> Layout(w, S(), log0, Cur(), |RowsOf(rows, Cur())|, true)
      ensures st == Done ==> Packed(c, S(), cap, log0, Cur())
      ensures st == Done || CutShort(st, src, old(NoRoom()))
    {
      hide Step, Ready, Holds, Good, Layout, RowsOk, Preserved, DrainHdr, Parse, Halted, Stalls, Overhung, CanLand,
        Packed, Begun;
      if |src| < HEADER {
        return Hdr;
      }
      var hdr := DrainHdr(src);
      if hdr.st != Ok {
        return Failed(hdr.st);
      }
      st := Begin();
      if st != Done {
        return;
      }
      st := ReadAll(src, hdr.count);
      if st != Done {
        return;
      }
      st := Finish();
      if st == Done {
        NoneStalls(c);
      }
    }
  }
}
