/** A run and the scan of what it wrote; and where an OK repack does not give back what went in: unknown types, results
  * over half the scratch, chains over 256 deltas, and objects that come twice. */
module RepackLimits {
  import opened Common
  import opened DeltaFormat
  import opened DeltaCodec
  import opened PackFormat
  import opened PackResolve
  import opened PackWrite
  import opened RepackChain
  import opened RepackState
  import opened RepackIndex
  import opened RepackRows
  import opened RepackDepth
  import opened RepackRead
  import opened RepackInv
  import opened RepackEmit
  import opened RepackLayout
  import opened RepackSteps
  import opened RepackOutcome
  import opened RepackOnce
  import opened RepackRun
  import opened RepackScan
  import opened RepackTwice

  // ---------- run, then scan back ----------

  lemma {:induction false} UnbigBound(b: seq<Byte>)
    ensures Unbig(b) < Pow256(|b|)
  {
    if b != [] {
      UnbigBound(b[..|b| - 1]);
    }
  }

  lemma HdrCountBound(pack: seq<Byte>)
    ensures DrainHdr(pack).count < U32
  {
    hide Unbig, Pow256;
    if |pack| >= HEADER {
      UnbigBound(pack[8..12]);
      Pow256Of4();
    }
  }

  /** Every object of the pack is within 256 deltas, whichever of its copies are read. */
  ghost predicate PackWithin(c: Ctx) {
    forall off | off in c.recs && Obj0(c, off).Some? :: Within(c, Key(c.w, Obj0(c, off).value), CHAIN_MAX)
  }

  /** None of them is beyond 256 deltas, whichever are read. */
  ghost predicate PackReached(c: Ctx) {
    forall off | off in c.recs && Obj0(c, off).Some? :: !Beyond(c, Key(c.w, Obj0(c, off).value), CHAIN_MAX)
  }

  /** Repack into an empty shard, then scan its logs: what is scanned is exactly what was indexed, which is every
    * source object once per record; the scan ends well if all are within 256 deltas, does not if one is beyond them,
    * and, if no object comes twice, ends well exactly if all are within them. */
  method RepackThenScan(w: World, log0: nat, cap: nat, policy: seq<nat> -> nat, src: seq<Byte>, rbase: array<Byte>,
        rdelta: array<Byte>, ghost c: Ctx)
      returns (st: Status, scan: ScanStatus, indexed: seq<Row>, logs: map<nat, seq<Byte>>, found: seq<Row>)
    requires c.w == w && Good(c) && Blank(c) && rbase != rdelta
      && w.room == Room(rbase.Length, rdelta.Length / 2) && cap < U64
    requires c.src == src && c.recs == Parse(w, src, HEADER, DrainHdr(src).count)
    modifies rbase, rdelta
    ensures st == Done ==> |indexed| == |c.recs| == DrainHdr(src).count && RowsOk(c, State([], [], [], indexed, logs))
    ensures st == Done ==> forall off | off in c.recs :: Preserved(c, State([], [], [], indexed, logs), off)
    ensures st == Done && PackWithin(c) ==> scan == Scanned
    ensures st == Done && scan == Scanned ==> PackReached(c)
    ensures st == Done && Once(c) ==> (scan == Scanned <==> PackWithin(c))
    ensures st == Done && scan == Scanned ==> |found| == |indexed| && forall r :: r in found <==> r in indexed
  {
    hide Holds, Good, RowsOk, Layout, Parse, Preserved, AllWithin, NoneBeyond, AllAlone, PackWithin, PackReached, Once,
      DrainHdr;
    scan, indexed, logs, found := ScanFail, [], map[], [];
    RoomHalf(c);
    NoRowsHeld();
    var rp := new Repack(w, log0, cap, policy, [], Index([], []), map[], rbase, rdelta, c);
    st := rp.Run(src);
    if st != Done {
      return;
    }
    indexed, logs := rp.rows, rp.logs;
    HdrCountBound(src);
    ghost var s, t := rp.S(), State([], [], [], rp.rows, rp.logs);
    RowsSame(c, s, t);
    AllSame(c, s, t);
    RunIsOver(c, s, log0, rp.Cur());
    PackRows(c, s);
    scan, found := ScanShard(w, rp.logs, log0, rp.Cur(), rbase, rdelta, c, s);
  }

  lemma NoRowsHeld()
    ensures Holds(Index([], []), [])
  {
  }

  lemma RoomHalf(c: Ctx)
    requires Good(c)
    ensures c.w.room.half <= c.w.room.base && GoodZlib(c.w.z)
  {
  }

  lemma RunIsOver(c: Ctx, s: State, lo: nat, hi: nat)
    requires Good(c) && Blank(c) && RowsOk(c, s) && Layout(c.w, s, lo, hi, |RowsOf(s.rows, hi)|, true) && |s.rows| < U32
    ensures RunOver(c, s, lo, hi)
  {
    hide Good, RowsOk, Layout;
  }

  lemma AllSame(c: Ctx, s: State, t: State)
    requires t.rows == s.rows && t.logs == s.logs && forall off | off in c.recs :: Preserved(c, s, off)
    ensures forall off | off in c.recs :: Preserved(c, t, off)
  {
    hide ReadsAs, Obj0, GoodPick;
    forall off | off in c.recs
      ensures Preserved(c, t, off)
    {
      var o := Obj0(c, off).value;
      assert Preserved(c, s, off);
      forall p: Pick, r | GoodPick(p, t.rows) && r in t.rows && r.key == Key(c.w, o)
        ensures ReadsAs(c, t, p, r, o)
      {
        assert ReadsAs(c, s, p, r, o);
        ReadsShow(c, s, t, p, r, o);
      }
    }
  }

  lemma ReadsShow(c: Ctx, s: State, t: State, p: Pick, r: Row, o: Blob)
    requires ReadsAs(c, s, p, r, o) && t.rows == s.rows && t.logs == s.logs
    ensures ReadsAs(c, t, p, r, o)
  {
    hide Meant, Within, Beyond, Alone, StoreOf;
  }

  /** The rows of a run in an empty shard are of the pack's objects, and of all of them. */
  lemma PackRows(c: Ctx, s: State)
    requires Good(c) && Blank(c) && RowsOk(c, s) && forall off | off in c.recs :: Preserved(c, s, off)
    ensures AllWithin(c, s.rows) <==> PackWithin(c)
    ensures NoneBeyond(c, s.rows) ==> PackReached(c)
    ensures Once(c) ==> AllAlone(c, s.rows)
  {
    hide Good, RowsOk, Within, Beyond, Alone, Preserved, Obj0, Once;
    forall off | off in c.recs && Obj0(c, off).Some?
      ensures exists r :: r in s.rows && r.key == Key(c.w, Obj0(c, off).value)
    {
      var r := PreservedRow(c, s, off);
    }
    forall r | r in s.rows
      ensures exists off :: off in c.recs && IsCopy(c, off, r.key)
    {
      var off := RowSource(c, s, r);
    }
    if Once(c) {
      forall r | r in s.rows
        ensures Alone(c, r.key, CHAIN_MAX)
      {
        OnceAlone(c, s, r, CHAIN_MAX);
      }
    }
  }

  lemma PreservedRow(c: Ctx, s: State, off: nat) returns (r: Row)
    requires Preserved(c, s, off)
    ensures Obj0(c, off).Some? && r in s.rows && r.key == Key(c.w, Obj0(c, off).value)
  {
    hide ReadsAs, Obj0, GoodPick;
    r :| r in s.rows && r.key == Key(c.w, Obj0(c, off).value);
  }

  lemma RowSource(c: Ctx, s: State, r: Row) returns (off: nat)
    requires Blank(c) && RowsOk(c, s) && r in s.rows
    ensures off in c.recs && IsCopy(c, off, r.key)
  {
    hide StoredAs, IsCopy, CanLand, Obj0, LogsGrow;
    assert RowOk(c, s, r);
    off :| Stored(c, s, r, off);
  }

  // ---------- types ----------

  /** A record of type 0 or 5 is landed like a whole object, but nothing reads it back. */
  lemma UnknownTypeLost(sto: Store, room: Room, log: seq<Byte>, typ: nat, size: nat, z: seq<Byte>, hops: nat)
    requires (typ == 0 || typ == 5) && size < U64
    ensures Meant(sto, room, Loc(log + RecordBytes(typ, size, 0, [], z), |log|), hops) == Bad(PackFail)
  {
    hide HeaderAt, RecordBytes, Patched;
    RecordHeader(log, typ, size, 0, [], z, []);
    assert log + RecordBytes(typ, size, 0, [], z) + [] == log + RecordBytes(typ, size, 0, [], z);
  }

  /** A source record nothing reads, whatever it is over, and the only one of its object: an OK run lands it all the
    * same, and indexes a row for it that nothing resolves. */
  lemma LandsLost(c: Ctx, s: State, p: Pick, off: nat) returns (r: Row)
    requires Preserved(c, s, off) && GoodPick(p, s.rows) && OnlyRec(c, Key(c.w, Obj0(c, off).value), off)
    requires RecBeyond(c, off, CHAIN_MAX)
    ensures r in s.rows && IsCopy(c, off, r.key) && r.typ == Obj0(c, off).value.typ && r.id in s.logs
    ensures Meant(StoreOf(c.w, p, s.logs), c.w.room, Loc(s.logs[r.id], r.off), CHAIN_MAX).st != Ok
  {
    hide Obj0, Within, RecBeyond, Alone, Meant, GoodPick;
    var o := Obj0(c, off).value;
    r :| r in s.rows && r.key == Key(c.w, o);
    assert ReadsAs(c, s, p, r, o);
  }

  /** A record of type 0 or 5 is such a record; its row has its own type. */
  lemma UnknownTypeLands(c: Ctx, s: State, p: Pick, off: nat) returns (r: Row)
    requires Preserved(c, s, off) && GoodPick(p, s.rows) && OnlyRec(c, Key(c.w, Obj0(c, off).value), off)
    requires RecAt(c.w, c.src, off).Some?
    requires RecAt(c.w, c.src, off).value.typ == 0 || RecAt(c.w, c.src, off).value.typ == 5
    ensures r in s.rows && IsCopy(c, off, r.key) && r.typ == RecAt(c.w, c.src, off).value.typ && r.id in s.logs
    ensures Meant(StoreOf(c.w, p, s.logs), c.w.room, Loc(s.logs[r.id], r.off), CHAIN_MAX).st != Ok
  {
    hide Preserved, Obj0, RecAt, OnlyRec, Meant, GoodPick;
    var q := PreservedRow(c, s, off);
    WholeType(c, off);
    r := LandsLost(c, s, p, off);
  }

  lemma WholeType(c: Ctx, off: nat)
    requires Obj0(c, off).Some? && RecAt(c.w, c.src, off).Some? && !IsDelta(RecAt(c.w, c.src, off).value.typ)
    ensures Obj0(c, off).value.typ == RecAt(c.w, c.src, off).value.typ
  {
    hide RecAt;
  }

  // ---------- sizes ----------

  /** A delta whose stream or result is over half the scratch is beyond any number of deltas, whatever it is over. */
  lemma HalfLost(c: Ctx, off: nat, n: nat)
    requires RecAt(c.w, c.src, off).Some? && IsDelta(RecAt(c.w, c.src, off).value.typ) && Obj0(c, off).Some?
    requires RecAt(c.w, c.src, off).value.size > c.w.room.half || |Obj0(c, off).value.bytes| > c.w.room.half
    ensures RecBeyond(c, off, n)
  {
    hide RecAt, Obj0;
  }

  // ---------- depth ----------

  /** The instructions for an empty object over an empty one. */
  const NOTHING: seq<Byte> := [0, 0]

  lemma NothingMeans(room: nat)
    ensures Meaning(NOTHING, [], room) == Outcome(OK, [])
  {
    assert DrainSize([0, 0], 0, 0) == DrainSize([0, 0], 0, 0);
    assert [0, 0][1..] == [0];
    assert [0][1..] == [];
  }

  datatype Deep = Deep(log: seq<Byte>, last: nat)

  /** A log with an empty blob and `n` deltas, each over the one before. */
  function DeepLog(z: Zlib, n: nat): Deep {
    if n == 0 then Deep(PackHdr(0) + RecordBytes(BLOB, 0, 0, [], z.deflate([])), HEADER)
    else
      var d := DeepLog(z, n - 1);
      var back := if d.last < |d.log| then |d.log| - d.last else 0;
      Deep(d.log + RecordBytes(OFS_DELTA, 2, back, [], z.deflate(NOTHING)), |d.log|)
  }

  lemma DeflatedPayload(z: Zlib, x: seq<Byte>)
    requires GoodZlib(z)
    ensures Payload(z, z.deflate(x), |x|, x)
  {
    hide GoodZlib;
    InflateFed(z, x);
  }

  /** A finder that knows no base. */
  function NoFinder(z: Zlib): Store {
    Store(z, Some((ref: seq<Byte>) => Found(NoBase, Loc([], 0))))
  }

  /** For every depth there is a record that reads back through exactly that many deltas: at 257 its base still
    * resolves, so it can land, and it is itself lost. */
  lemma {:induction false} DeepReads(z: Zlib, room: Room, n: nat)
    requires GoodZlib(z) && room.half >= 2 && |DeepLog(z, n).log| < U64
    ensures var d := DeepLog(z, n);
      Reads(NoFinder(z), room, Loc(d.log, d.last), n, Obj(Ok, BLOB, [])) && HEADER <= d.last < |d.log|
  {
    hide GoodZlib, RecordBytes, PackHdr, HeaderAt, Meaning, Reads;
    var sto := NoFinder(z);
    if n == 0 {
      DeflatedPayload(z, []);
      RawReads(sto, room, PackHdr(0), BLOB, 0, z.deflate([]), []);
      RecordNotEmpty(BLOB, 0, 0, [], z.deflate([]));
    } else {
      var d := DeepLog(z, n - 1);
      var rec := RecordBytes(OFS_DELTA, 2, if d.last < |d.log| then |d.log| - d.last else 0, [], z.deflate(NOTHING));
      assert DeepLog(z, n).log == d.log + rec;
      DeepReads(z, room, n - 1);
      var back := |d.log| - d.last;
      DeflatedPayload(z, NOTHING);
      NothingMeans(room.half);
      RecordHeader(d.log, OFS_DELTA, 2, back, [], z.deflate(NOTHING), []);
      assert d.log + rec + [] == d.log + rec;
      RecordNotEmpty(OFS_DELTA, 2, back, [], z.deflate(NOTHING));
      PackTailGrows(d.log, rec);
      ReadsGrow(sto, sto, room, Loc(d.log, d.last), Loc(d.log + rec, d.last), n - 1, Obj(Ok, BLOB, []));
      DeltaReads(sto, room, d.log, OFS_DELTA, 2, back, [], z.deflate(NOTHING), NOTHING, Loc(d.log + rec, d.last),
        n - 1, Obj(Ok, BLOB, []), []);
    }
  }

  lemma PackTailGrows(p: seq<Byte>, more: seq<Byte>)
    requires |p| >= HEADER
    ensures PackGrows(p, p + more)
  {
    assert (p + more)[HEADER..|p|] == p[HEADER..];
  }

  /** The base of the 257th delta resolves at the cap; the 257th itself does not. */
  lemma DeepLost(z: Zlib, room: Room)
    requires GoodZlib(z) && room.half >= 2 && |DeepLog(z, CHAIN_MAX + 1).log| < U64
    ensures var a, b := DeepLog(z, CHAIN_MAX), DeepLog(z, CHAIN_MAX + 1);
      && Meant(NoFinder(z), room, Loc(a.log, a.last), CHAIN_MAX) == Obj(Ok, BLOB, [])
      && Meant(NoFinder(z), room, Loc(b.log, b.last), CHAIN_MAX) == Bad(PackFail)
  {
    hide GoodZlib, DeepLog, Reads, Meant;
    var a, b := DeepLog(z, CHAIN_MAX), DeepLog(z, CHAIN_MAX + 1);
    DeepShorter(z, CHAIN_MAX);
    DeepReads(z, room, CHAIN_MAX);
    DeepReads(z, room, CHAIN_MAX + 1);
    ReadsMeant(NoFinder(z), room, Loc(a.log, a.last), CHAIN_MAX, Obj(Ok, BLOB, []), CHAIN_MAX);
    ReadsMeant(NoFinder(z), room, Loc(b.log, b.last), CHAIN_MAX + 1, Obj(Ok, BLOB, []), CHAIN_MAX);
  }

  lemma DeepShorter(z: Zlib, n: nat)
    ensures |DeepLog(z, n).log| <= |DeepLog(z, n + 1).log|
  {
    hide RecordBytes;
  }

  // ---------- an object that arrives twice ----------

  const A := Blob(BLOB, [])
  const B := Blob(BLOB, [1])
  const A_TO_B: seq<Byte> := [0, 1, 1, 1]
  const B_TO_A: seq<Byte> := [1, 0]

  /** A whole in one log, B over A by name in the next. */
  function Before(w: World): State {
    State([], [], [], [Row(Key(w, A), BLOB, 0, HEADER), Row(Key(w, B), BLOB, 1, HEADER)],
          map[0 := PackHdr(1) + RecordBytes(BLOB, 0, 0, [], w.z.deflate([])),
              1 := PackHdr(1) + RecordBytes(REF_DELTA, 4, 0, w.sha(A), w.z.deflate(A_TO_B))])
  }

  /** A once more, sent as a delta over B, landed in a third log and indexed. */
  function After(w: World): State {
    var s := Before(w);
    s.(rows := s.rows + [Row(Key(w, A), BLOB, 2, HEADER)],
       logs := s.logs[2 := PackHdr(1) + RecordBytes(REF_DELTA, 2, 0, w.sha(B), w.z.deflate(B_TO_A))])
  }

  lemma DeltaHeader(w: World, size: nat, sha: seq<Byte>, z: seq<Byte>)
    requires size < U64 && |sha| == SHA_LEN
    ensures HeaderAt(Loc(PackHdr(1) + RecordBytes(REF_DELTA, size, 0, sha, z), HEADER))
         == Header(Ok, REF_DELTA, size, 0, sha, z)
  {
    hide PackHdr, HeaderAt, RecordBytes;
    var log := PackHdr(1);
    RecordHeader(log, REF_DELTA, size, 0, sha, z, []);
    assert log + RecordBytes(REF_DELTA, size, 0, sha, z) + [] == log + RecordBytes(REF_DELTA, size, 0, sha, z);
    assert z + [] == z;
  }

  /** A's second copy is the newest row, so B is looked up over A's copy and A's copy over B: both are lost. */
  lemma TwiceLost(w: World, n: nat)
    requires GoodZlib(w.z) && |w.sha(A)| == SHA_LEN && |w.sha(B)| == SHA_LEN && Key(w, A) != Key(w, B)
    ensures var s := After(w);
      && var sto := StoreOf(w, Newest(s.rows), s.logs);
      && Meant(sto, w.room, Loc(s.logs[1], HEADER), n) == Bad(PackFail)
      && Meant(sto, w.room, Loc(s.logs[2], HEADER), n) == Bad(PackFail)
  {
    hide GoodZlib, HeaderAt, RecordBytes, PackHdr, Meant;
    var s := After(w);
    var sto := StoreOf(w, Newest(s.rows), s.logs);
    var x, y := Loc(s.logs[1], HEADER), Loc(s.logs[2], HEADER);
    DeltaHeader(w, 4, w.sha(A), w.z.deflate(A_TO_B));
    DeltaHeader(w, 2, w.sha(B), w.z.deflate(B_TO_A));
    var ra, rb, r2 := s.rows[0], s.rows[1], s.rows[2];
    assert s.rows[..2] == [ra, rb] && [ra, rb][..1] == [ra];
    assert RowFor(s.rows, Key(w, A)) == Some(r2) && RowFor(s.rows, Key(w, B)) == Some(rb);
    assert Reaches(sto, x, x, 0) && Reaches(sto, y, y, 0);
    assert Reaches(sto, y, x, 1) && Reaches(sto, x, y, 1);
    CycleLost(sto, w.room, x, x, 0, 2, n);
    CycleLost(sto, w.room, y, y, 0, 2, n);
  }

  /** Before the second copy came, B read back. */
  lemma OnceReads(w: World)
    requires GoodZlib(w.z) && |w.sha(A)| == SHA_LEN && |w.sha(B)| == SHA_LEN && Key(w, A) != Key(w, B)
      && 4 <= w.room.half <= w.room.base
    ensures var s := Before(w);
      Meant(StoreOf(w, Newest(s.rows), s.logs), w.room, Loc(s.logs[1], HEADER), CHAIN_MAX) == Obj(Ok, BLOB, [1])
  {
    hide GoodZlib, HeaderAt, RecordBytes, PackHdr, Meant, Meaning, Reads, BaseLoc, FindIn;
    var s := Before(w);
    var sto := StoreOf(w, Newest(s.rows), s.logs);
    DeflatedPayload(w.z, []);
    DeflatedPayload(w.z, A_TO_B);
    RawReads(sto, w.room, PackHdr(1), BLOB, 0, w.z.deflate([]), []);
    OneByteMeans(w.room.half);
    DeltaHeader(w, 4, w.sha(A), w.z.deflate(A_TO_B));
    FindsA(w);
    DeltaReads(sto, w.room, PackHdr(1), REF_DELTA, 4, 0, w.sha(A), w.z.deflate(A_TO_B), A_TO_B, Loc(s.logs[0],
      HEADER), 0, Obj(Ok, BLOB, []), [1]);
    ReadsMeant(sto, w.room, Loc(s.logs[1], HEADER), 1, Obj(Ok, BLOB, [1]), CHAIN_MAX);
  }

  lemma FindsA(w: World)
    requires |w.sha(A)| == SHA_LEN && Key(w, A) != Key(w, B)
    ensures var s := Before(w);
      var loc := Loc(s.logs[1], HEADER);
      BaseLoc(StoreOf(w, Newest(s.rows), s.logs), loc, HeaderAt(loc)) == Found(Ok, Loc(s.logs[0], HEADER))
  {
    hide HeaderAt, RecordBytes, PackHdr;
    var s := Before(w);
    DeltaHeader(w, 4, w.sha(A), w.z.deflate(A_TO_B));
    assert s.rows[..1] == [s.rows[0]];
    assert RowFor(s.rows, Key(w, A)) == Some(s.rows[0]);
  }

  lemma OneByteMeans(room: nat)
    requires room >= 1
    ensures Meaning(A_TO_B, [], room) == Outcome(OK, [1])
  {
    assert [0, 1, 1, 1][1..] == [1, 1, 1] && [1, 1, 1][1..] == [1, 1] && [1, 1][1..] == [1] && [1][..1] == [1];
    assert [1][1..] == [];
  }

  // ---------- an object sent again over itself ----------

  const A_TO_A: seq<Byte> := NOTHING

  /** A whole in one log; sent again as a delta that names A, it lands in the next log and cites its own name. */
  function SelfCited(w: World): State {
    State([], [], [], [Row(Key(w, A), BLOB, 0, HEADER), Row(Key(w, A), BLOB, 1, HEADER)],
          map[0 := PackHdr(1) + RecordBytes(BLOB, 0, 0, [], w.z.deflate([])),
              1 := PackHdr(1) + RecordBytes(REF_DELTA, 2, 0, w.sha(A), w.z.deflate(A_TO_A))])
  }

  /** The name now leads to the new copy itself, so A is lost, though what the copy is over, whole, cites nothing. */
  lemma SelfCitedLost(w: World, n: nat)
    requires |w.sha(A)| == SHA_LEN
    ensures var s := SelfCited(w);
      Meant(StoreOf(w, Newest(s.rows), s.logs), w.room, Loc(s.logs[1], HEADER), n) == Bad(PackFail)
  {
    hide HeaderAt, RecordBytes, PackHdr, Meant;
    var s := SelfCited(w);
    var sto, x := StoreOf(w, Newest(s.rows), s.logs), Loc(s.logs[1], HEADER);
    DeltaHeader(w, 2, w.sha(A), w.z.deflate(A_TO_A));
    assert RowFor(s.rows, Key(w, A)) == Some(s.rows[1]);
    assert Reaches(sto, x, x, 0);
    CycleLosesAll(sto, w.room, x, x, 0);
  }

  // ---------- a new copy that is deep ----------

  /** The rows of `DeepLog`: every record in it is A, the empty blob. */
  function DeepRows(w: World, n: nat): (r: seq<Row>)
    ensures r != [] && r[|r| - 1] == Row(Key(w, A), BLOB, 2, DeepLog(w.z, n).last)
  {
    (if n == 0 then [] else DeepRows(w, n - 1)) + [Row(Key(w, A), BLOB, 2, DeepLog(w.z, n).last)]
  }

  /** A whole, B over it by name, and then A again, at the end of a chain of 256 deltas. */
  function DeepCopy(w: World): State {
    var s := Before(w);
    s.(rows := s.rows + DeepRows(w, CHAIN_MAX), logs := s.logs[2 := DeepLog(w.z, CHAIN_MAX).log])
  }

  /** The new copy of A resolves, but B, which took one delta, now takes 257 through it and is lost. */
  lemma DeepCopyLost(w: World)
    requires GoodZlib(w.z) && |w.sha(A)| == SHA_LEN && |w.sha(B)| == SHA_LEN && Key(w, A) != Key(w, B)
      && 4 <= w.room.half <= w.room.base && |DeepLog(w.z, CHAIN_MAX).log| < U64
    ensures var s := DeepCopy(w);
      var sto := StoreOf(w, Newest(s.rows), s.logs);
      && Meant(sto, w.room, Loc(s.logs[2], DeepLog(w.z, CHAIN_MAX).last), CHAIN_MAX) == Obj(Ok, BLOB, [])
      && Meant(sto, w.room, Loc(s.logs[1], HEADER), CHAIN_MAX) == Bad(PackFail)
  {
    hide GoodZlib, HeaderAt, RecordBytes, PackHdr, Meant, Meaning, Reads, BaseLoc, FindIn, DeepLog, DeepRows;
    var s, d := DeepCopy(w), DeepLog(w.z, CHAIN_MAX);
    var sto, at := StoreOf(w, Newest(s.rows), s.logs), Loc(d.log, d.last);
    DeepReads(w.z, w.room, CHAIN_MAX);
    DeepFinds(w);
    NoFinderGrows(w, s);
    PackSame(d.log);
    ReadsGrow(NoFinder(w.z), sto, w.room, at, at, CHAIN_MAX, Obj(Ok, BLOB, []));
    ReadsMeant(sto, w.room, at, CHAIN_MAX, Obj(Ok, BLOB, []), CHAIN_MAX);
    DeflatedPayload(w.z, A_TO_B);
    OneByteMeans(w.room.half);
    DeltaReads(sto, w.room, PackHdr(1), REF_DELTA, 4, 0, w.sha(A), w.z.deflate(A_TO_B), A_TO_B, at, CHAIN_MAX,
      Obj(Ok, BLOB, []), [1]);
    ReadsMeant(sto, w.room, Loc(s.logs[1], HEADER), CHAIN_MAX + 1, Obj(Ok, BLOB, [1]), CHAIN_MAX);
  }

  lemma DeepFinds(w: World)
    requires |w.sha(A)| == SHA_LEN && DeepLog(w.z, CHAIN_MAX).log != []
    ensures var s, d := DeepCopy(w), DeepLog(w.z, CHAIN_MAX);
      var loc := Loc(s.logs[1], HEADER);
      BaseLoc(StoreOf(w, Newest(s.rows), s.logs), loc, HeaderAt(loc)) == Found(Ok, Loc(d.log, d.last))
  {
    hide HeaderAt, RecordBytes, PackHdr, DeepLog, DeepRows;
    var s := DeepCopy(w);
    DeltaHeader(w, 4, w.sha(A), w.z.deflate(A_TO_B));
    LastWins(Before(w).rows, DeepRows(w, CHAIN_MAX), Key(w, A));
  }

  lemma LastWins(rows: seq<Row>, more: seq<Row>, key: nat)
    requires more != [] && Admits(more[|more| - 1], key)
    ensures RowFor(rows + more, key) == Some(more[|more| - 1])
  {
  }

  lemma NoFinderGrows(w: World, s: State)
    requires GoodZlib(w.z)
    ensures StoreGrows(NoFinder(w.z), StoreOf(w, Newest(s.rows), s.logs))
  {
    hide GoodZlib;
  }

  lemma PackSame(p: seq<Byte>)
    requires |p| > HEADER
    ensures PackGrows(p, p)
  {
  }

  // ---------- the same records, in one log ----------

  /** One log with A whole, B over it, and A again over B, grown record by record. */
  function Together(z: Zlib): (r: seq<seq<Byte>>)
    ensures |r| == 3
  {
    var a := PackHdr(3) + RecordBytes(BLOB, 0, 0, [], z.deflate([]));
    var ab := a + RecordBytes(OFS_DELTA, 4, if |a| > HEADER then |a| - HEADER else 0, [], z.deflate(A_TO_B));
    var aba := ab + RecordBytes(OFS_DELTA, 2, if |ab| > |a| then |ab| - |a| else 0, [], z.deflate(B_TO_A));
    [a, ab, aba]
  }

  /** The source records of `After`, landed in one log. */
  function OneLog(w: World): State {
    var logs := Together(w.z);
    var ra, rb := Row(Key(w, A), BLOB, 0, HEADER), Row(Key(w, B), BLOB, 0, |logs[0]|);
    var r2 := Row(Key(w, A), BLOB, 0, |logs[1]|);
    State([], [], [], [ra, rb, r2], map[0 := logs[2]])
  }

  /** There offsets lead to the very copy each was landed over, and all read back: whether an object that comes both
    * whole and as a delta over itself is lost hangs on where the logs were cut. */
  lemma OneLogReads(w: World)
    requires GoodZlib(w.z) && 4 <= w.room.half <= w.room.base && |Together(w.z)[2]| < U64
    ensures var s := OneLog(w);
      var sto := StoreOf(w, Newest(s.rows), s.logs);
      && Meant(sto, w.room, Loc(s.logs[0], s.rows[1].off), CHAIN_MAX) == Obj(Ok, BLOB, [1])
      && Meant(sto, w.room, Loc(s.logs[0], s.rows[2].off), CHAIN_MAX) == Obj(Ok, BLOB, [])
  {
    hide GoodZlib, HeaderAt, RecordBytes, PackHdr, Meant, Meaning, Reads, StoreOf, NoFinder;
    var s, logs, none := OneLog(w), Together(w.z), NoFinder(w.z);
    var a, ab, aba := logs[0], logs[1], logs[2];
    var sto, oa, ob := StoreOf(w, Newest(s.rows), s.logs), Obj(Ok, BLOB, []), Obj(Ok, BLOB, [1]);
    FinderZlib(w.z);
    DeflatedPayload(w.z, []);
    RawReads(none, w.room, PackHdr(3), BLOB, 0, w.z.deflate([]), []);
    RecordNotEmpty(BLOB, 0, 0, [], w.z.deflate([]));
    OneByteMeans(w.room.half);
    RecordNotEmpty(OFS_DELTA, 4, |a| - HEADER, [], w.z.deflate(A_TO_B));
    OfsReads(w.z, w.room, a, HEADER, 0, oa, A_TO_B, [1]);
    BackMeans(w.room.half);
    RecordNotEmpty(OFS_DELTA, 2, |ab| - |a|, [], w.z.deflate(B_TO_A));
    OfsReads(w.z, w.room, ab, |a|, 1, ob, B_TO_A, []);
    NoFinderGrows(w, s);
    PackTailGrows(ab, RecordBytes(OFS_DELTA, 2, |ab| - |a|, [], w.z.deflate(B_TO_A)));
    ReadsGrow(none, sto, w.room, Loc(ab, |a|), Loc(aba, |a|), 1, ob);
    ReadsMeant(sto, w.room, Loc(aba, |a|), 1, ob, CHAIN_MAX);
    PackSame(aba);
    ReadsGrow(none, sto, w.room, Loc(aba, |ab|), Loc(aba, |ab|), 2, oa);
    ReadsMeant(sto, w.room, Loc(aba, |ab|), 2, oa, CHAIN_MAX);
  }

  lemma FinderZlib(z: Zlib)
    ensures NoFinder(z).z == z
  {
  }

  /** A delta at the end of a log, over an earlier record of it. */
  lemma OfsReads(z: Zlib, room: Room, log: seq<Byte>, off: nat, d: nat, b: Obj, delta: seq<Byte>, out: seq<Byte>)
    requires GoodZlib(z) && HEADER <= off < |log| < U64 && |delta| <= room.half && |delta| < U64
    requires Reads(NoFinder(z), room, Loc(log, off), d, b) && Meaning(delta, b.bytes, room.half) == Outcome(OK, out)
    ensures var log' := log + RecordBytes(OFS_DELTA, |delta|, |log| - off, [], z.deflate(delta));
      Reads(NoFinder(z), room, Loc(log', |log|), d + 1, Obj(Ok, b.typ, out))
  {
    hide GoodZlib, HeaderAt, RecordBytes, Meaning, Reads;
    var back := |log| - off;
    var rec := RecordBytes(OFS_DELTA, |delta|, back, [], z.deflate(delta));
    DeflatedPayload(z, delta);
    RecordHeader(log, OFS_DELTA, |delta|, back, [], z.deflate(delta), []);
    assert log + rec + [] == log + rec;
    RecordNotEmpty(OFS_DELTA, |delta|, back, [], z.deflate(delta));
    PackTailGrows(log, rec);
    ReadsGrow(NoFinder(z), NoFinder(z), room, Loc(log, off), Loc(log + rec, off), d, b);
    DeltaReads(NoFinder(z), room, log, OFS_DELTA, |delta|, back, [], z.deflate(delta), delta, Loc(log + rec, off), d, b,
      out);
  }

  lemma BackMeans(room: nat)
    ensures Meaning(B_TO_A, [1], room) == Outcome(OK, [])
  {
    assert [1, 0][1..] == [0] && [0][1..] == [];
  }
}
