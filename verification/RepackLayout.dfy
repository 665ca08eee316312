/** How the logs of one run are laid out: records back to back, counted in the header, named bases only in earlier
  * logs. */
module RepackLayout {
  import opened Common
  import opened DeltaFormat
  import opened PackFormat
  import opened PackResolve
  import opened PackWrite
  import opened RepackChain
  import opened RepackState
  import opened RepackRows
  import opened RepackRead
  import opened RepackInv
  import opened RepackEmit

  const U32 := 0x1_0000_0000

  // ---------- the pack header ----------

  /** The low `n` bytes of `v`, high byte first. */
  function BigBytes(v: nat, n: nat): (r: seq<Byte>)
    ensures |r| == n
  {
    if n == 0 then [] else BigBytes(v / 256, n - 1) + [v % 256]
  }

  function Unbig(b: seq<Byte>): nat {
    if b == [] then 0 else 256 * Unbig(b[..|b| - 1]) + b[|b| - 1]
  }

  lemma {:induction false} BigBytesBack(v: nat, n: nat)
    requires v < Pow256(n)
    ensures Unbig(BigBytes(v, n)) == v
  {
    if n > 0 {
      BigBytesBack(v / 256, n - 1);
      var b := BigBytes(v / 256, n - 1);
      assert (b + [v % 256])[..n - 1] == b;
    }
  }

  const MAGIC: seq<Byte> := [80, 65, 67, 75]

  /** Magic, version 2, and the low 32 bits of the record count. */
  function PackHdr(count: nat): (r: seq<Byte>)
    ensures |r| == HEADER
  {
    MAGIC + BigBytes(2, 4) + BigBytes(count, 4)
  }

  datatype HdrRead = HdrRead(st: PackStatus, version: nat, count: nat)

  function DrainHdr(pack: seq<Byte>): HdrRead {
    if |pack| < HEADER then HdrRead(NoData, 0, 0)
    else if pack[..4] != MAGIC then HdrRead(BadFormat, 0, 0)
    else HdrRead(Ok, Unbig(pack[4..8]), Unbig(pack[8..12]))
  }

  /** A fed pack header drains to its count. */
  lemma HdrRoundTrip(count: nat, rest: seq<Byte>)
    requires count < U32
    ensures DrainHdr(PackHdr(count) + rest) == HdrRead(Ok, 2, count)
  {
    hide BigBytes, Unbig, Pow256;
    var p := PackHdr(count) + rest;
    assert p[..4] == MAGIC && p[4..8] == BigBytes(2, 4) && p[8..12] == BigBytes(count, 4);
    Pow256Of4();
    BigBytesBack(2, 4);
    BigBytesBack(count, 4);
  }

  /** Byte by byte: the magic word, the version and the count, each of four bytes, high byte first. */
  lemma HdrWire(v0: Byte, v1: Byte, v2: Byte, v3: Byte, c0: Byte, c1: Byte, c2: Byte, c3: Byte, rest: seq<Byte>)
    ensures DrainHdr([80, 65, 67, 75, v0, v1, v2, v3, c0, c1, c2, c3] + rest)
         == HdrRead(Ok, 0x100_0000 * v0 + 0x1_0000 * v1 + 0x100 * v2 + v3,
                    0x100_0000 * c0 + 0x1_0000 * c1 + 0x100 * c2 + c3)
  {
    hide Unbig;
    var p := [80, 65, 67, 75, v0, v1, v2, v3, c0, c1, c2, c3] + rest;
    assert p[..4] == MAGIC && p[4..8] == [v0, v1, v2, v3] && p[8..12] == [c0, c1, c2, c3];
    UnbigFour(v0, v1, v2, v3);
    UnbigFour(c0, c1, c2, c3);
  }

  lemma UnbigFour(a: Byte, b: Byte, c: Byte, d: Byte)
    ensures Unbig([a, b, c, d]) == 0x100_0000 * a + 0x1_0000 * b + 0x100 * c + d
  {
    hide Unbig;
    UnbigNone();
    UnbigLast([], a);
    UnbigLast([a], b);
    UnbigLast([a, b], c);
    UnbigLast([a, b, c], d);
    assert [] + [a] == [a] && [a] + [b] == [a, b] && [a, b] + [c] == [a, b, c] && [a, b, c] + [d] == [a, b, c, d];
  }

  lemma UnbigNone()
    ensures Unbig([]) == 0
  {
  }

  lemma UnbigLast(s: seq<Byte>, c: Byte)
    ensures Unbig(s + [c]) == 256 * Unbig(s) + c
  {
    assert (s + [c])[..|s|] == s;
  }

  lemma Pow256Of4()
    ensures Pow256(4) == U32
  {
    assert Pow256(2) == 65536;
  }

  // ---------- rows by log ----------

  /** The rows of one log, oldest first. */
  function RowsOf(rows: seq<Row>, id: nat): seq<Row> {
    if rows == [] then []
    else
      var m := rows[..|rows| - 1];
      if rows[|rows| - 1].id == id then RowsOf(m, id) + [rows[|rows| - 1]] else RowsOf(m, id)
  }

  lemma RowsOfSnoc(rows: seq<Row>, r: Row, id: nat)
    ensures RowsOf(rows + [r], id) == if r.id == id then RowsOf(rows, id) + [r] else RowsOf(rows, id)
  {
    assert (rows + [r])[..|rows|] == rows;
  }

  lemma {:induction false} RowsOfMembers(rows: seq<Row>, id: nat)
    ensures forall r :: r in RowsOf(rows, id) <==> r in rows && r.id == id
    ensures |RowsOf(rows, id)| <= |rows|
  {
    if rows != [] {
      var m := rows[..|rows| - 1];
      RowsOfMembers(m, id);
      assert rows == m + [rows[|rows| - 1]];
    }
  }

  /** Where a log's `i`th record ends: where the next one starts, or at the end of the log. */
  function EndOf(rs: seq<Row>, i: nat, len: nat): nat {
    if i + 1 < |rs| then rs[i + 1].off else len
  }

  ghost predicate EndsAt(z: Zlib, log: seq<Byte>, rs: seq<Row>, i: nat) {
    i < |rs| && HEADER <= rs[i].off < EndOf(rs, i, |log|) && RecordEnds(z, log, rs[i].off, EndOf(rs, i, |log|))
  }

  /** The records fill the log from the header to the end. */
  ghost predicate Tiled(z: Zlib, log: seq<Byte>, rs: seq<Row>) {
    && (if rs == [] then |log| == HEADER else rs[0].off == HEADER)
    && forall i | 0 <= i < |rs| :: EndsAt(z, log, rs, i)
  }

  lemma RecordEndsGrow(z: Zlib, p: seq<Byte>, q: seq<Byte>, off: nat, end: nat)
    requires GoodZlib(z) && PackGrows(p, q) && off >= HEADER && RecordEnds(z, p, off, end)
    ensures RecordEnds(z, q, off, end)
  {
    hide HeaderAt, GoodZlib;
    HeaderGrows(Loc(p, off), Loc(q, off));
    InflateExtend(z, HeaderAt(Loc(p, off)).rest, HeaderAt(Loc(p, off)).size, q[|p|..]);
  }

  /** A patched header moves nothing. */
  lemma TiledPatched(z: Zlib, log: seq<Byte>, hdr: seq<Byte>, rs: seq<Row>)
    requires GoodZlib(z) && Tiled(z, log, rs) && |log| >= HEADER == |hdr|
    ensures Tiled(z, hdr + log[HEADER..], rs)
  {
    hide RecordEnds, GoodZlib;
    var q := hdr + log[HEADER..];
    assert q[HEADER..|log|] == log[HEADER..];
    forall i | 0 <= i < |rs|
      ensures EndsAt(z, q, rs, i)
    {
      assert EndsAt(z, log, rs, i);
      RecordEndsGrow(z, log, q, rs[i].off, EndOf(rs, i, |log|));
    }
  }

  /** One more record at the end. */
  lemma TiledMore(z: Zlib, log: seq<Byte>, more: seq<Byte>, rs: seq<Row>, r: Row)
    requires GoodZlib(z) && Tiled(z, log, rs) && |log| >= HEADER && r.off == |log| && more != []
    requires RecordEnds(z, log + more, |log|, |log| + |more|)
    ensures Tiled(z, log + more, rs + [r])
  {
    hide RecordEnds, GoodZlib;
    var q, rs' := log + more, rs + [r];
    assert q[HEADER..|log|] == log[HEADER..];
    forall i | 0 <= i < |rs'|
      ensures EndsAt(z, q, rs', i)
    {
      if i < |rs| {
        assert EndsAt(z, log, rs, i);
        RecordEndsGrow(z, log, q, rs[i].off, EndOf(rs, i, |log|));
      }
    }
  }

  // ---------- which base a record names ----------

  ghost predicate OffsetBase(rows: seq<Row>, r: Row, ofs: nat) {
    0 < ofs <= r.off && exists b :: b in rows && b.id == r.id && b.off == r.off - ofs
  }

  ghost predicate NamedBase(w: World, rows: seq<Row>, r: Row, ref: seq<Byte>) {
    exists b :: b in rows && Admits(b, w.prefix(ref)) && b.id < r.id
  }

  /** An offset leads to another record of the same log, a name into an earlier log. */
  ghost predicate Cites(w: World, s: State, r: Row) {
    && r.id in s.logs && r.off >= HEADER
    && var h := HeaderAt(Loc(s.logs[r.id], r.off));
    && h.st == Ok
    && (h.typ == OFS_DELTA ==> OffsetBase(s.rows, r, h.ofs))
    && (h.typ == REF_DELTA ==> NamedBase(w, s.rows, r, h.ref))
  }

  lemma CitesGrow(w: World, s: State, t: State, r: Row)
    requires Cites(w, s, r) && LogsGrow(s.logs, t.logs) && s.rows <= t.rows
    ensures Cites(w, t, r)
  {
    hide HeaderAt;
    HeaderGrows(Loc(s.logs[r.id], r.off), Loc(t.logs[r.id], r.off));
    var h := HeaderAt(Loc(s.logs[r.id], r.off));
    if h.typ == OFS_DELTA {
      var b :| b in s.rows && b.id == r.id && b.off == r.off - h.ofs;
      assert b in t.rows;
    } else if h.typ == REF_DELTA {
      var b :| b in s.rows && Admits(b, w.prefix(h.ref)) && b.id < r.id;
      assert b in t.rows;
    }
  }

  // ---------- the layout of a run ----------

  ghost predicate Counted(log: seq<Byte>, n: nat) {
    |log| >= HEADER && log[..HEADER] == PackHdr(n)
  }

  ghost predicate LogOk(w: World, s: State, id: nat, n: nat)
    requires id in s.logs
  {
    Tiled(w.z, s.logs[id], RowsOf(s.rows, id)) && Counted(s.logs[id], n)
  }

  ghost predicate RowPlaced(w: World, s: State, lo: nat, cur: nat, r: Row) {
    lo <= r.id <= cur && Cites(w, s, r)
  }

  /** Logs `lo` to `cur` and nothing else; `count` records in the last one, which has its count only once sealed. */
  ghost predicate Layout(w: World, s: State, lo: nat, cur: nat, count: nat, sealed_: bool) {
    && lo <= cur && (forall id :: id in s.logs <==> lo <= id <= cur)
    && (forall r | r in s.rows :: RowPlaced(w, s, lo, cur, r))
    && (forall id | lo <= id < cur :: LogOk(w, s, id, |RowsOf(s.rows, id)|))
    && LogOk(w, s, cur, if sealed_ then count else 0) && count == |RowsOf(s.rows, cur)|
  }

  lemma LayoutFirst(w: World, s: State, lo: nat)
    requires s.rows == [] && s.logs == map[lo := PackHdr(0)]
    ensures Layout(w, s, lo, lo, 0, false)
  {
    hide PackHdr;
  }

  lemma LayoutHeaders(w: World, s: State, lo: nat, cur: nat, count: nat, sealed_: bool)
    requires Layout(w, s, lo, cur, count, sealed_)
    ensures forall id | id in s.logs :: |s.logs[id]| >= HEADER
  {
    hide Tiled, RowsOf, Cites, PackHdr;
    forall id | id in s.logs
      ensures |s.logs[id]| >= HEADER
    {
      assert id < cur ==> LogOk(w, s, id, |RowsOf(s.rows, id)|);
    }
  }

  /** Sealing: the count goes into the header. */
  lemma LayoutSeal(w: World, s: State, t: State, lo: nat, cur: nat, count: nat)
    requires GoodZlib(w.z) && Layout(w, s, lo, cur, count, false)
    requires t == s.(logs := s.logs[cur := PackHdr(count) + s.logs[cur][HEADER..]])
    ensures Layout(w, t, lo, cur, count, true)
  {
    hide GoodZlib, Tiled, RowsOf, Cites, PackHdr;
    TiledPatched(w.z, s.logs[cur], PackHdr(count), RowsOf(s.rows, cur));
    forall id | lo <= id < cur
      ensures LogOk(w, t, id, |RowsOf(t.rows, id)|)
    {
      assert LogOk(w, s, id, |RowsOf(s.rows, id)|);
    }
    LayoutHeaders(w, s, lo, cur, count, false);
    assert t.logs[cur][HEADER..|s.logs[cur]|] == s.logs[cur][HEADER..|s.logs[cur]|];
    forall r | r in t.rows
      ensures RowPlaced(w, t, lo, cur, r)
    {
      assert RowPlaced(w, s, lo, cur, r);
      CitesGrow(w, s, t, r);
    }
  }

  /** Nothing to seal in an empty log: its header already says zero. */
  lemma LayoutSealEmpty(w: World, s: State, lo: nat, cur: nat, count: nat)
    requires Layout(w, s, lo, cur, count, false) && |s.logs[cur]| <= HEADER
    ensures count == 0 && Layout(w, s, lo, cur, count, true)
  {
    hide RecordEnds, RowsOf, Cites, PackHdr;
    var rs := RowsOf(s.rows, cur);
    if rs != [] {
      LastEnds(w.z, s.logs[cur], rs);
    }
  }

  lemma LastEnds(z: Zlib, log: seq<Byte>, rs: seq<Row>)
    requires Tiled(z, log, rs) && rs != []
    ensures |log| > HEADER
  {
    hide RecordEnds;
    assert EndsAt(z, log, rs, |rs| - 1);
  }

  /** A fresh log after a sealed one. */
  lemma LayoutOpen(w: World, s: State, t: State, lo: nat, cur: nat, count: nat)
    requires Layout(w, s, lo, cur, count, true) && t == s.(logs := s.logs[cur + 1 := PackHdr(0)])
    ensures Layout(w, t, lo, cur + 1, 0, false)
  {
    hide RecordEnds, Cites, PackHdr, RowsOf;
    forall r | r in t.rows
      ensures RowPlaced(w, t, lo, cur + 1, r)
    {
      assert RowPlaced(w, s, lo, cur, r);
      CitesSame(w, s, t, r);
    }
    assert forall r | r in s.rows :: r.id != cur + 1 by {
      forall r | r in s.rows
        ensures r.id != cur + 1
      {
        assert RowPlaced(w, s, lo, cur, r);
      }
    }
    NoRowsOf(s.rows, cur + 1);
    forall id | lo <= id < cur + 1
      ensures LogOk(w, t, id, |RowsOf(t.rows, id)|)
    {
      if id < cur {
        assert LogOk(w, s, id, |RowsOf(s.rows, id)|);
      }
    }
  }

  lemma {:induction false} NoRowsOf(rows: seq<Row>, id: nat)
    requires forall r | r in rows :: r.id != id
    ensures RowsOf(rows, id) == []
  {
    if rows != [] {
      NoRowsOf(rows[..|rows| - 1], id);
    }
  }

  lemma CitesSame(w: World, s: State, t: State, r: Row)
    requires Cites(w, s, r) && t.rows == s.rows && r.id in t.logs && t.logs[r.id] == s.logs[r.id]
    ensures Cites(w, t, r)
  {
    hide HeaderAt;
  }

  /** A record written: laid out behind the others, its base where it must be. */
  lemma LayoutWrite(c: Ctx, s: State, t: State, lo: nat, cur: nat, count: nat, rec: Rec, base: Option<Row>,
          sha: seq<Byte>, o: Blob, zb: seq<Byte>)
    requires Good(c) && RowsOk(c, s) && Layout(c.w, s, lo, cur, count, false)
    requires Wrote(c, s, t, cur, rec, base, sha, o) && |s.logs[cur]| < U64
    requires rec.typ < 8 && rec.size < U64 && Payload(c.w.z, rec.z, rec.size, zb)
    requires base.None? ==> !IsDelta(rec.typ)
    requires base.Some? ==> base.value in s.rows && IsBase(base.value.typ)
    requires ShaOk(c, cur, base, sha)
    ensures Layout(c.w, t, lo, cur, count + 1, false)
  {
    hide GoodZlib, Tiled, RowsOf, Cites, PackHdr, LogsGrow, Emitted, RowOk, RecordEnds, HashesTell, ShardOk, RecGood;
    var r := Row(Key(c.w, o), o.typ, cur, |s.logs[cur]|);
    var more := Emitted(rec, s.logs[cur], cur, base, sha);
    LogsAppend(s, t, cur, more);
    assert s.rows <= t.rows;
    forall x | x in t.rows
      ensures RowPlaced(c.w, t, lo, cur, x)
    {
      if x in s.rows {
        assert RowPlaced(c.w, s, lo, cur, x);
        CitesGrow(c.w, s, t, x);
      } else {
        NewPlaced(c, s, t, lo, cur, count, rec, base, sha, o);
      }
    }
    forall id | lo <= id < cur
      ensures LogOk(c.w, t, id, |RowsOf(t.rows, id)|)
    {
      assert LogOk(c.w, s, id, |RowsOf(s.rows, id)|);
      RowsOfSnoc(s.rows, r, id);
    }
    RowsOfSnoc(s.rows, r, cur);
    EmittedEnds(c, s, cur, rec, base, sha, zb);
    TiledMore(c.w.z, s.logs[cur], more, RowsOf(s.rows, cur), r);
    assert (s.logs[cur] + more)[..HEADER] == s.logs[cur][..HEADER];
  }

  /** The emitted bytes are one record, from end to end. */
  lemma EmittedEnds(c: Ctx, s: State, cur: nat, rec: Rec, base: Option<Row>, sha: seq<Byte>, zb: seq<Byte>)
    requires GoodZlib(c.w.z) && cur in s.logs && |s.logs[cur]| < U64
    requires rec.typ < 8 && rec.size < U64 && Payload(c.w.z, rec.z, rec.size, zb)
    requires base.None? ==> !IsDelta(rec.typ)
    requires ShaOk(c, cur, base, sha)
    ensures var more := Emitted(rec, s.logs[cur], cur, base, sha);
      more != [] && RecordEnds(c.w.z, s.logs[cur] + more, |s.logs[cur]|, |s.logs[cur]| + |more|)
  {
    hide GoodZlib, RecordEnds, RecordBytes;
    var log := s.logs[cur];
    var more := Emitted(rec, log, cur, base, sha);
    var etyp := if base.None? then rec.typ else if base.value.id == cur then OFS_DELTA else REF_DELTA;
    var back := if base.None? || base.value.id != cur || base.value.off >= |log| then 0 else |log| - base.value.off;
    var ref := if base.None? || base.value.id == cur then [] else sha;
    RecordExtent(c.w.z, log, etyp, rec.size, back, ref, rec.z, zb, []);
    assert log + RecordBytes(etyp, rec.size, back, ref, rec.z) + []
        == log + RecordBytes(etyp, rec.size, back, ref, rec.z);
    RecordNotEmpty(etyp, rec.size, back, ref, rec.z);
  }

  lemma NewPlaced(c: Ctx, s: State, t: State, lo: nat, cur: nat, count: nat, rec: Rec, base: Option<Row>,
          sha: seq<Byte>, o: Blob)
    requires Good(c) && RowsOk(c, s) && Layout(c.w, s, lo, cur, count, false)
    requires Wrote(c, s, t, cur, rec, base, sha, o) && |s.logs[cur]| < U64
    requires rec.typ < 8 && rec.size < U64
    requires base.None? ==> !IsDelta(rec.typ)
    requires base.Some? ==> base.value in s.rows && IsBase(base.value.typ)
    requires ShaOk(c, cur, base, sha)
    ensures RowPlaced(c.w, t, lo, cur, Row(Key(c.w, o), o.typ, cur, |s.logs[cur]|))
  {
    hide Good, RowOk, LogOk, HeaderAt, Emitted, RowsOf;
    var log := s.logs[cur];
    RowsLogs(c, s);
    if base.Some? {
      RowInside(c, s, base.value);
      assert RowPlaced(c.w, s, lo, cur, base.value);
      assert base.value in t.rows;
    }
    EmittedHeader(rec, log, cur, base, sha);
  }

  // ---------- reading with less of the index ----------

  /** `known` holds the rows of the logs before `id`, and no others. */
  ghost predicate KnowsBefore(rows: seq<Row>, known: seq<Row>, id: nat) {
    forall r :: r in known <==> r in rows && r.id < id
  }

  /** The rows of the earlier logs answer every name the records of the first logs cite. */
  lemma BeforeAnswers(c: Ctx, s: State, lo: nat, cur: nat, known: seq<Row>, id: nat)
    requires c.rows0 == [] && (forall x | x in s.rows :: RowPlaced(c.w, s, lo, cur, x))
    requires KnowsBefore(s.rows, known, id)
    ensures Answers(c, s, known, Some(id))
  {
    hide HeaderAt;
    forall r | r in s.rows && r.id <= id
      ensures Answered(c, s, known, r)
    {
      assert RowPlaced(c.w, s, lo, cur, r);
      var h := HeaderAt(Loc(s.logs[r.id], r.off));
      if h.typ == REF_DELTA {
        var b :| b in s.rows && Admits(b, c.w.prefix(h.ref)) && b.id < r.id;
        RowIn(known, b);
      }
    }
  }
}
