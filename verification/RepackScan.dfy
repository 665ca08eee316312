/** Scanning a shard's logs back in file-id order: the rows a run indexed, found again from the bytes alone. */
module RepackScan {
  import opened Common
  import opened DeltaFormat
  import opened PackFormat
  import opened PackResolve
  import opened RepackChain
  import opened RepackState
  import opened RepackIndex
  import opened RepackRows
  import opened RepackDepth
  import opened RepackRead
  import opened RepackInv
  import opened RepackEmit
  import opened RepackLayout
  import opened RepackSteps

  datatype ScanStatus = Scanned | ScanFail | ScanBad(st: PackStatus)

  /** An entry a scan emits: key, type, offset. */
  datatype Entry = Entry(key: nat, typ: nat, off: nat)

  datatype Scan = Scan(st: ScanStatus, out: seq<Entry>)

  // ---------- one record ----------

  datatype End = End(st: PackStatus, end: nat)

  /** How far a record reaches: its header, then as much as the inflate used. */
  function RecordEnd(z: Zlib, pack: seq<Byte>, off: nat): End {
    var h := HeaderAt(Loc(pack, off));
    if h.st != Ok then End(h.st, 0)
    else
      var i := z.inflate(h.rest, h.size);
      if i.st != Ok then End(i.st, 0)
      else if i.used + |pack| < |h.rest| then End(PackFail, 0)
      else End(Ok, |pack| + i.used - |h.rest|)
  }

  lemma RecordEndIs(z: Zlib, pack: seq<Byte>, off: nat, end: nat)
    requires RecordEnds(z, pack, off, end)
    ensures RecordEnd(z, pack, off) == End(Ok, end)
  {
    hide HeaderAt;
  }

  datatype Emit = Emit(st: ScanStatus, out: seq<Entry>, next: nat)

  /** Resolve, hash, emit, step past. */
  function EmitStep(w: World, sto: Store, pack: seq<Byte>, off: nat, out: seq<Entry>): Emit {
    var o := Meant(sto, w.room, Loc(pack, off), CHAIN_MAX);
    if o.st != Ok then Emit(ScanBad(o.st), out, off)
    else
      var more := out + [Entry(Key(w, Blob(o.typ, o.bytes)), o.typ, off)];
      var e := RecordEnd(w.z, pack, off);
      if e.st != Ok then Emit(ScanBad(e.st), more, off)
      else if e.end <= off then Emit(ScanFail, more, off)
      else Emit(Scanned, more, e.end)
  }

  method EmitAt(w: World, sto: Store, pack: seq<Byte>, off: nat, out: seq<Entry>, base: array<Byte>,
          delta: array<Byte>) returns (r: Emit)
    requires GoodZlib(w.z) && sto.z == w.z && base != delta && w.room == Room(base.Length, delta.Length / 2)
      && base.Length >= delta.Length / 2
    modifies base, delta
    ensures r == EmitStep(w, sto, pack, off, out)
  {
    hide GoodZlib, Meant, RecordEnd, Holding;
    var rs, body, typ := Resolve(sto, pack, off, base, delta);
    if rs != Ok {
      return Emit(ScanBad(rs), out, off);
    }
    var bytes := if body.inBase then base[body.off..body.off + body.len] else delta[body.off..body.off + body.len];
    HoldingIs(base, delta, body);
    var more := out + [Entry(Key(w, Blob(typ, bytes)), typ, off)];
    var e := RecordEnd(w.z, pack, off);
    if e.st != Ok {
      return Emit(ScanBad(e.st), more, off);
    }
    if e.end <= off {
      return Emit(ScanFail, more, off);
    }
    r := Emit(Scanned, more, e.end);
  }

  // ---------- one log ----------

  /** The next `n` records. */
  function ScanCount(w: World, sto: Store, pack: seq<Byte>, off: nat, n: nat, out: seq<Entry>): Scan
    decreases n
  {
    if n == 0 then Scan(Scanned, out)
    else if off >= |pack| then Scan(ScanFail, out)
    else
      var e := EmitStep(w, sto, pack, off, out);
      if e.st != Scanned then Scan(e.st, e.out) else ScanCount(w, sto, pack, e.next, n - 1, e.out)
  }

  /** The records from a known boundary to the end. */
  function ScanTail(w: World, sto: Store, pack: seq<Byte>, off: nat, out: seq<Entry>): Scan
    decreases |pack| - off
  {
    if off >= |pack| then Scan(Scanned, out)
    else
      var e := EmitStep(w, sto, pack, off, out);
      if e.st != Scanned then Scan(e.st, e.out) else ScanTail(w, sto, pack, e.next, e.out)
  }

  function ScanLog(w: World, sto: Store, pack: seq<Byte>, from: nat): Scan {
    var hdr := DrainHdr(pack);
    if hdr.st != Ok then Scan(ScanBad(hdr.st), [])
    else if from > 0 then ScanTail(w, sto, pack, from, [])
    else ScanCount(w, sto, pack, HEADER, hdr.count, [])
  }

  /** A tail scan runs to the end; a whole-pack scan is bounded by the header's count. */
  method ScanRef(w: World, sto: Store, pack: seq<Byte>, from: nat, base: array<Byte>, delta: array<Byte>)
        returns (r: Scan)
    requires GoodZlib(w.z) && sto.z == w.z && base != delta && w.room == Room(base.Length, delta.Length / 2)
      && base.Length >= delta.Length / 2
    modifies base, delta
    ensures r == ScanLog(w, sto, pack, from)
  {
    hide GoodZlib, EmitStep, DrainHdr;
    var hdr := DrainHdr(pack);
    if hdr.st != Ok {
      return Scan(ScanBad(hdr.st), []);
    }
    var out: seq<Entry> := [];
    if from > 0 {
      var off := from;
      while off < |pack|
        invariant ScanTail(w, sto, pack, off, out) == ScanTail(w, sto, pack, from, [])
        decreases |pack| - off
      {
        var e := EmitAt(w, sto, pack, off, out, base, delta);
        if e.st != Scanned {
          return Scan(e.st, e.out);
        }
        EmitForward(w, sto, pack, off, out);
        off, out := e.next, e.out;
      }
    } else {
      var off: nat, n: nat := HEADER, hdr.count;
      while n > 0
        invariant ScanCount(w, sto, pack, off, n, out) == ScanCount(w, sto, pack, HEADER, hdr.count, [])
      {
        if off >= |pack| {
          return Scan(ScanFail, out);
        }
        var e := EmitAt(w, sto, pack, off, out, base, delta);
        if e.st != Scanned {
          return Scan(e.st, e.out);
        }
        off, out, n := e.next, e.out, n - 1;
      }
    }
    r := Scan(Scanned, out);
  }

  lemma EmitForward(w: World, sto: Store, pack: seq<Byte>, off: nat, out: seq<Entry>)
    ensures var e := EmitStep(w, sto, pack, off, out); e.st == Scanned ==> e.next > off
  {
    hide Meant, RecordEnd;
  }

  // ---------- a log a run wrote ----------

  function EntryOf(r: Row): Entry {
    Entry(r.key, r.typ, r.off)
  }

  function Entries(rs: seq<Row>): seq<Entry> {
    if rs == [] then [] else [EntryOf(rs[0])] + Entries(rs[1..])
  }

  /** Every row's object is within 256 deltas whichever copies are read. */
  ghost predicate AllWithin(c: Ctx, rs: seq<Row>) {
    forall r | r in rs :: Within(c, r.key, CHAIN_MAX)
  }

  /** No row's object is beyond 256 deltas whichever copies are read. */
  ghost predicate NoneBeyond(c: Ctx, rs: seq<Row>) {
    forall r | r in rs :: !Beyond(c, r.key, CHAIN_MAX)
  }

  /** Every row's object, and all it is over, comes in one copy. */
  ghost predicate AllAlone(c: Ctx, rs: seq<Row>) {
    forall r | r in rs :: Alone(c, r.key, CHAIN_MAX)
  }

  lemma AloneBoth(c: Ctx, rs: seq<Row>)
    requires AllAlone(c, rs)
    ensures AllWithin(c, rs) <==> NoneBeyond(c, rs)
  {
    hide Within, Beyond, Alone;
    forall r | r in rs
      ensures Within(c, r.key, CHAIN_MAX) <==> !Beyond(c, r.key, CHAIN_MAX)
    {
      AloneDecides(c, r.key, CHAIN_MAX);
    }
  }

  /** Every row is of one of the four object types. */
  ghost predicate AllBase(rs: seq<Row>) {
    forall r | r in rs :: IsBase(r.typ)
  }

  /** A finished run in a fresh shard. */
  ghost predicate RunOver(c: Ctx, s: State, lo: nat, hi: nat) {
    && Good(c) && RowsOk(c, s) && c.rows0 == [] && Layout(c.w, s, lo, hi, |RowsOf(s.rows, hi)|, true) && |s.rows| < U32
  }

  lemma RunLog(c: Ctx, s: State, lo: nat, hi: nat, id: nat)
    requires RunOver(c, s, lo, hi) && lo <= id <= hi
    ensures id in s.logs && Tiled(c.w.z, s.logs[id], RowsOf(s.rows, id)) && |s.logs[id]| >= HEADER
    ensures DrainHdr(s.logs[id]) == HdrRead(Ok, 2, |RowsOf(s.rows, id)|)
  {
    hide Tiled, RowsOf, Cites, RowOk, DrainHdr, PackHdr, Good, RowPlaced;
    RowsLogs(c, s);
    assert LogOk(c.w, s, id, |RowsOf(s.rows, id)|);
    RowsOfMembers(s.rows, id);
    HdrRoundTrip(|RowsOf(s.rows, id)|, s.logs[id][HEADER..]);
    assert s.logs[id] == s.logs[id][..HEADER] + s.logs[id][HEADER..];
  }

  lemma ScannedTyp(w: World, sto: Store, pack: seq<Byte>, off: nat)
    ensures var m := Meant(sto, w.room, Loc(pack, off), CHAIN_MAX); m.st == Ok ==> IsBase(m.typ)
  {
    hide Meant;
    if Meant(sto, w.room, Loc(pack, off), CHAIN_MAX).st == Ok {
      ResolvedTyp(sto, w.room, Loc(pack, off), CHAIN_MAX);
    }
  }

  lemma EmitIs(w: World, sto: Store, pack: seq<Byte>, off: nat, out: seq<Entry>, o: Blob, end: nat)
    requires RecordEnds(w.z, pack, off, end) && end > off
    requires var m := Meant(sto, w.room, Loc(pack, off), CHAIN_MAX); m.st == Ok ==> m == Obj(Ok, o.typ, o.bytes)
    ensures var m := Meant(sto, w.room, Loc(pack, off), CHAIN_MAX);
      EmitStep(w, sto, pack, off, out)
        == if m.st == Ok then Emit(Scanned, out + [Entry(Key(w, o), o.typ, off)], end)
           else Emit(ScanBad(m.st), out, off)
  {
    hide Meant, RecordEnd, RecordEnds;
    RecordEndIs(w.z, pack, off, end);
  }

  /** One of its records, scanned: its own row's entry, or the reason why it does not resolve; with only the earlier
    * logs' rows at hand it resolves if it is within 256 deltas and does not if it is beyond them. */
  lemma ScanRow(c: Ctx, s: State, lo: nat, hi: nat, id: nat, known: seq<Row>, p: Pick, i: nat, out: seq<Entry>)
    requires RunOver(c, s, lo, hi) && lo <= id <= hi && KnowsBefore(s.rows, known, id) && GoodPick(p, known)
    requires i < |RowsOf(s.rows, id)|
    ensures id in s.logs
    ensures var r, log := RowsOf(s.rows, id)[i], s.logs[id];
      var e := EmitStep(c.w, StoreOf(c.w, p, s.logs), log, r.off, out);
      && HEADER <= r.off < |log|
      && (Within(c, r.key, CHAIN_MAX) ==> e.st == Scanned) && (Beyond(c, r.key, CHAIN_MAX) ==> e.st != Scanned)
      && (e.st == Scanned ==> IsBase(r.typ))
      && (e.st == Scanned ==> e == Emit(Scanned, out + [EntryOf(r)], EndOf(RowsOf(s.rows, id), i, |log|)))
      && (e.st != Scanned ==> e.st.ScanBad? && e.st != ScanBad(NoBase) && e.out == out)
  {
    hide GoodPick, EmitStep, Meant, RowsOf, Good, RowsOk, Cites, RecordEnds, DrainHdr, KnowsBefore, StoreOf, Within,
      Beyond, ByKey, Answers;
    RunLog(c, s, lo, hi, id);
    var rs, log := RowsOf(s.rows, id), s.logs[id];
    RowsOfMembers(s.rows, id);
    var r := rs[i];
    assert r in rs;
    assert EndsAt(c.w.z, log, rs, i);
    BeforeAnswers(c, s, lo, hi, known, id);
    RowReads(c, s, known, p, Some(id), r, CHAIN_MAX);
    ScannedTyp(c.w, StoreOf(c.w, p, s.logs), log, r.off);
    RowObject(c, s, r);
    RowInside(c, s, r);
    EmitIs(c.w, StoreOf(c.w, p, s.logs), log, r.off, out, ByKey(c, r.key), EndOf(rs, i, |log|));
  }

  function OffAt(rs: seq<Row>, i: nat, len: nat): nat {
    if i < |rs| then rs[i].off else len
  }

  /** The records from the `i`th on: scanned in order if all are within 256 deltas, and not if one is beyond them. */
  lemma {:induction false} ScanRows(c: Ctx, s: State, lo: nat, hi: nat, id: nat, known: seq<Row>, p: Pick, i: nat,
          out: seq<Entry>)
    requires RunOver(c, s, lo, hi) && lo <= id <= hi && KnowsBefore(s.rows, known, id) && GoodPick(p, known)
    requires i <= |RowsOf(s.rows, id)|
    ensures id in s.logs
    ensures var rs, log := RowsOf(s.rows, id), s.logs[id];
      var sto := StoreOf(c.w, p, s.logs);
      && var a := ScanCount(c.w, sto, log, OffAt(rs, i, |log|), |rs| - i, out);
      && ScanTail(c.w, sto, log, OffAt(rs, i, |log|), out) == a
      && (AllWithin(c, rs[i..]) ==> a.st == Scanned)
      && (a.st == Scanned ==> NoneBeyond(c, rs[i..]) && AllBase(rs[i..]) && a.out == out + Entries(rs[i..]))
    decreases |RowsOf(s.rows, id)| - i
  {
    hide EmitStep, RowsOf, RunOver, KnowsBefore, StoreOf, Within, Beyond, AllWithin, NoneBeyond, AllBase, IsBase,
      GoodPick, EntryOf, DrainHdr, Tiled;
    RunLog(c, s, lo, hi, id);
    var rs, log := RowsOf(s.rows, id), s.logs[id];
    if i < |rs| {
      ScanRow(c, s, lo, hi, id, known, p, i, out);
      DepthCons(c, rs, i);
      if EmitStep(c.w, StoreOf(c.w, p, s.logs), log, rs[i].off, out).st == Scanned {
        ScanRows(c, s, lo, hi, id, known, p, i + 1, out + [EntryOf(rs[i])]);
        assert rs[i..][1..] == rs[i + 1..] && rs[i..][0] == rs[i];
        assert out + ([EntryOf(rs[i])] + Entries(rs[i + 1..])) == out + [EntryOf(rs[i])] + Entries(rs[i + 1..]);
      }
    } else {
      assert rs[i..] == [];
      DepthNone(c);
    }
  }

  lemma DepthCons(c: Ctx, rs: seq<Row>, i: nat)
    requires i < |rs|
    ensures AllWithin(c, rs[i..]) <==> Within(c, rs[i].key, CHAIN_MAX) && AllWithin(c, rs[i + 1..])
    ensures NoneBeyond(c, rs[i..]) <==> !Beyond(c, rs[i].key, CHAIN_MAX) && NoneBeyond(c, rs[i + 1..])
    ensures AllBase(rs[i..]) <==> IsBase(rs[i].typ) && AllBase(rs[i + 1..])
  {
    hide Within, Beyond;
    assert rs[i..] == [rs[i]] + rs[i + 1..];
  }

  lemma DepthNone(c: Ctx)
    ensures AllWithin(c, []) && NoneBeyond(c, []) && AllBase([])
  {
  }

  lemma FirstOff(c: Ctx, s: State, lo: nat, hi: nat, id: nat)
    requires RunOver(c, s, lo, hi) && lo <= id <= hi
    ensures id in s.logs && OffAt(RowsOf(s.rows, id), 0, |s.logs[id]|) == HEADER
  {
    hide RunOver, RowsOf, EndsAt, DrainHdr;
    RunLog(c, s, lo, hi, id);
  }

  // ---------- the whole shard ----------

  function RowsAt(es: seq<Entry>, id: nat): seq<Row> {
    if es == [] then [] else [Row(es[0].key, es[0].typ, id, es[0].off)] + RowsAt(es[1..], id)
  }

  /** The rows by log, in file-id order. */
  function ByLog(rows: seq<Row>, lo: nat, n: nat): seq<Row> {
    if n == 0 then [] else ByLog(rows, lo, n - 1) + RowsOf(rows, lo + n - 1)
  }

  lemma {:induction false} RowsAtBack(rs: seq<Row>, id: nat)
    requires forall r | r in rs :: r.id == id
    ensures RowsAt(Entries(rs), id) == rs
  {
    if rs != [] {
      assert rs[0] in rs;
      RowsAtBack(rs[1..], id);
      assert Entries(rs)[1..] == Entries(rs[1..]);
    }
  }

  lemma {:induction false} ByLogMembers(rows: seq<Row>, lo: nat, n: nat)
    ensures forall r :: r in ByLog(rows, lo, n) <==> r in rows && lo <= r.id < lo + n
  {
    hide RowsOf;
    if n > 0 {
      ByLogMembers(rows, lo, n - 1);
      RowsOfMembers(rows, lo + n - 1);
    }
  }

  /** What has been scanned before a log are exactly the rows of the earlier logs. */
  lemma ByLogKnows(c: Ctx, s: State, lo: nat, hi: nat, n: nat)
    requires RunOver(c, s, lo, hi)
    ensures KnowsBefore(s.rows, ByLog(s.rows, lo, n), lo + n)
  {
    hide RowsOk, Good, Cites, LogOk, ByLog, RowsOf;
    ByLogMembers(s.rows, lo, n);
    forall r | r in s.rows
      ensures r.id >= lo
    {
      assert RowPlaced(c.w, s, lo, hi, r);
    }
  }

  // ---------- the scanner's finder ----------

  /** A binary search by prefix between two places of the sorted rows. */
  function Search(rows: seq<Row>, key: nat, lo: nat, hi: nat): Option<Row>
    requires lo <= hi <= |rows|
    decreases hi - lo
  {
    if lo == hi then None
    else
      var mid := lo + (hi - lo) / 2;
      if rows[mid].key == key then Some(rows[mid])
      else if rows[mid].key < key then Search(rows, key, mid + 1, hi)
      else Search(rows, key, lo, mid)
  }

  function SearchIn(rows: seq<Row>): Pick {
    (key: nat) => Search(rows, key, 0, |rows|)
  }

  lemma {:induction false} SearchFinds(rows: seq<Row>, key: nat, lo: nat, hi: nat)
    requires Sorted(rows) && lo <= hi <= |rows|
    ensures Search(rows, key, lo, hi).Some? ==>
      Search(rows, key, lo, hi).value in rows && Search(rows, key, lo, hi).value.key == key
    ensures Search(rows, key, lo, hi).None? ==> forall i | lo <= i < hi :: rows[i].key != key
    decreases hi - lo
  {
    hide Sorted;
    if lo < hi {
      var mid := lo + (hi - lo) / 2;
      if rows[mid].key < key {
        SearchFinds(rows, key, mid + 1, hi);
        forall i | lo <= i <= mid
          ensures rows[i].key < key
        {
          SortedKeys(rows, i, mid);
        }
      } else if rows[mid].key > key {
        SearchFinds(rows, key, lo, mid);
        forall i | mid <= i < hi
          ensures rows[i].key > key
        {
          SortedKeys(rows, mid, i);
        }
      }
    }
  }

  /** It answers for the rows it was given, whichever of a prefix it comes upon. */
  lemma SortedFinds(sorted: seq<Row>, found: seq<Row>)
    requires Sorted(sorted) && multiset(sorted) == multiset(found) && AllBase(found)
    ensures GoodPick(SearchIn(sorted), found)
  {
    hide Sorted, Search, IsBase;
    SameRows(sorted, found);
    forall key: nat
      ensures PickOk(SearchIn(sorted), found, key)
    {
      SearchFinds(sorted, key, 0, |sorted|);
      if InRows(found, key) {
        var i :| 0 <= i < |found| && Admits(found[i], key);
        assert found[i] in sorted;
        var j :| 0 <= j < |sorted| && sorted[j] == found[i];
      }
      if Search(sorted, key, 0, |sorted|).Some? {
        RowIn(found, Search(sorted, key, 0, |sorted|).value);
      }
    }
  }

  /** Every log in file-id order, each with a finder that knows only the logs before it. */
  method ScanShard(w: World, logs: map<nat, seq<Byte>>, lo: nat, hi: nat, base: array<Byte>, delta: array<Byte>,
        ghost c: Ctx, ghost s: State) returns (st: ScanStatus, found: seq<Row>)
    requires GoodZlib(w.z) && base != delta && w.room == Room(base.Length, delta.Length / 2)
    requires base.Length >= delta.Length / 2
    requires c.w == w && s.logs == logs && RunOver(c, s, lo, hi) && lo <= hi
    modifies base, delta
    ensures AllWithin(c, s.rows) ==> st == Scanned
    ensures st == Scanned ==> NoneBeyond(c, s.rows)
    ensures AllAlone(c, s.rows) ==> (st == Scanned <==> AllWithin(c, s.rows))
    ensures st == Scanned ==> |found| == |s.rows| && forall r :: r in found <==> r in s.rows
  {
    hide GoodZlib, RunOver, ScanCount, ScanTail, ByLog, RowsOf, KnowsBefore, Entries, AllWithin, NoneBeyond, AllAlone,
      AllBase, IsBase, GoodPick, Sorted, EmitStep, DrainHdr;
    found := [];
    var n: nat := 0;
    NoLogs(c, s.rows, lo);
    if AllAlone(c, s.rows) {
      AloneBoth(c, s.rows);
    }
    while n <= hi - lo
      invariant n <= hi - lo + 1 && found == ByLog(s.rows, lo, n) && NoneBeyond(c, found) && AllBase(found)
    {
      var id := lo + n;
      RunLog(c, s, lo, hi, id);
      ByLogKnows(c, s, lo, hi, n);
      FirstOff(c, s, lo, hi, id);
      var sorted := Arrange(found);
      SortedFinds(sorted, found);
      ScanRows(c, s, lo, hi, id, found, SearchIn(sorted), 0, []);
      ghost var rs := RowsOf(s.rows, id);
      assert rs[0..] == rs;
      var r := ScanRef(w, StoreOf(w, SearchIn(sorted), logs), logs[id], 0, base, delta);
      RowsOfMembers(s.rows, id);
      if r.st != Scanned {
        DeepOne(c, s.rows, rs);
        return r.st, found;
      }
      assert [] + Entries(rs) == Entries(rs);
      RowsAtBack(rs, id);
      NextLog(c, s.rows, lo, n);
      found := found + RowsAt(r.out, id);
      n := n + 1;
    }
    AllLogs(c, s, lo, hi);
    st := Scanned;
  }

  lemma NoLogs(c: Ctx, rows: seq<Row>, lo: nat)
    ensures ByLog(rows, lo, 0) == [] && NoneBeyond(c, []) && AllBase([])
  {
  }

  lemma DeepOne(c: Ctx, rows: seq<Row>, rs: seq<Row>)
    requires !AllWithin(c, rs) && forall r | r in rs :: r in rows
    ensures !AllWithin(c, rows)
  {
    hide Within;
  }

  lemma NextLog(c: Ctx, rows: seq<Row>, lo: nat, n: nat)
    ensures ByLog(rows, lo, n + 1) == ByLog(rows, lo, n) + RowsOf(rows, lo + n)
    ensures AllBase(ByLog(rows, lo, n)) && AllBase(RowsOf(rows, lo + n)) ==> AllBase(ByLog(rows, lo, n + 1))
    ensures NoneBeyond(c, ByLog(rows, lo, n)) && NoneBeyond(c, RowsOf(rows, lo + n)) ==>
      NoneBeyond(c, ByLog(rows, lo, n + 1))
  {
    hide Beyond, RowsOf;
  }

  lemma AllLogs(c: Ctx, s: State, lo: nat, hi: nat)
    requires RunOver(c, s, lo, hi) && lo <= hi
    ensures var found := ByLog(s.rows, lo, hi - lo + 1);
      && (NoneBeyond(c, found) <==> NoneBeyond(c, s.rows))
      && |found| == |s.rows| && forall r :: r in found <==> r in s.rows
  {
    hide RowsOk, Good, Cites, LogOk, ByLog, Beyond;
    ByLogMembers(s.rows, lo, hi - lo + 1);
    forall r
      ensures r in ByLog(s.rows, lo, hi - lo + 1) <==> r in s.rows
    {
      if r in s.rows {
        assert RowPlaced(c.w, s, lo, hi, r);
      }
    }
    ByLogSize(s.rows, lo, hi - lo + 1);
  }

  function Below(rows: seq<Row>, lo: nat, n: nat): seq<Row> {
    if rows == [] then []
    else
      var m := Below(rows[..|rows| - 1], lo, n);
      if lo <= rows[|rows| - 1].id < lo + n then m + [rows[|rows| - 1]] else m
  }

  lemma {:induction false} BelowMore(rows: seq<Row>, lo: nat, n: nat)
    ensures |Below(rows, lo, n + 1)| == |Below(rows, lo, n)| + |RowsOf(rows, lo + n)|
  {
    if rows != [] {
      BelowMore(rows[..|rows| - 1], lo, n);
    }
  }

  lemma {:induction false} BelowNone(rows: seq<Row>, lo: nat)
    ensures Below(rows, lo, 0) == []
  {
    if rows != [] {
      BelowNone(rows[..|rows| - 1], lo);
    }
  }

  lemma {:induction false} BelowAll(rows: seq<Row>, lo: nat, n: nat)
    requires forall r | r in rows :: lo <= r.id < lo + n
    ensures |Below(rows, lo, n)| == |rows|
  {
    if rows != [] {
      BelowAll(rows[..|rows| - 1], lo, n);
      assert rows[|rows| - 1] in rows;
    }
  }

  lemma {:induction false} ByLogBelow(rows: seq<Row>, lo: nat, n: nat)
    ensures |ByLog(rows, lo, n)| == |Below(rows, lo, n)|
  {
    hide Below, RowsOf;
    if n == 0 {
      BelowNone(rows, lo);
    } else {
      ByLogBelow(rows, lo, n - 1);
      BelowMore(rows, lo, n - 1);
    }
  }

  lemma ByLogSize(rows: seq<Row>, lo: nat, n: nat)
    requires forall r | r in rows :: r in ByLog(rows, lo, n)
    ensures |ByLog(rows, lo, n)| == |rows|
  {
    hide ByLog, Below;
    ByLogMembers(rows, lo, n);
    ByLogBelow(rows, lo, n);
    BelowAll(rows, lo, n);
  }
}
