/** What a shard's index rows stand for: the records of before a run, and the ones it landed. */
module RepackRows {
  import opened Common
  import opened DeltaFormat
  import opened DeltaCodec
  import opened PackFormat
  import opened PackResolve
  import opened PackWrite
  import opened RepackChain
  import opened RepackState

  /** The world, the objects at hand, the source pack, its records' offsets, and the shard before the run: its rows, its
    * logs, and which row a lookup there answers with. */
  datatype Ctx = Ctx(w: World, objs: set<Blob>, src: seq<Byte>, recs: seq<nat>, rows0: seq<Row>,
          logs0: map<nat, seq<Byte>>, pick0: Pick)

  ghost function Obj0(c: Ctx, off: nat): Option<Blob> {
    Source(c.w, c.objs, c.src, off)
  }

  /** The object at hand under a prefix. */
  ghost function ByKey(c: Ctx, key: nat): Blob {
    if o :| o in c.objs && Key(c.w, o) == key then o else Blob(0, [])
  }

  lemma KeyOne(c: Ctx, o: Blob)
    requires HashesTell(c.w, c.objs) && o in c.objs
    ensures ByKey(c, Key(c.w, o)) == o
  {
  }

  // ---------- the shard before the run ----------

  ghost function OldStore(c: Ctx): Store {
    StoreOf(c.w, c.pick0, c.logs0)
  }

  ghost predicate OldIs(c: Ctx, r: Row, d: nat, o: Blob) {
    && r.id in c.logs0 && o in c.objs && Key(c.w, o) == r.key && o.typ == r.typ
    && Reads(OldStore(c), c.w.room, Loc(c.logs0[r.id], r.off), d, Obj(Ok, o.typ, o.bytes))
  }

  /** A row that reads back as an object of its own prefix and type. */
  ghost predicate OldOk(c: Ctx, r: Row) {
    exists d: nat, o :: OldIs(c, r, d, o)
  }

  /** Every row reads back; a prefix may have any number of them. */
  ghost predicate ShardOk(c: Ctx) {
    && GoodPick(c.pick0, c.rows0)
    && (forall r | r in c.rows0 :: OldOk(c, r))
    && (forall id | id in c.logs0 :: |c.logs0[id]| >= HEADER)
  }

  // ---------- the source pack ----------

  /** A source record: past the header, parsed, its object at hand; a name it cites is no other object's. */
  ghost predicate RecGood(c: Ctx, off: nat) {
    && off >= HEADER && RecAt(c.w, c.src, off).Some?
    && (Obj0(c, off).Some? ==> Obj0(c, off).value in c.objs)
    && (RecAt(c.w, c.src, off).value.typ == REF_DELTA ==> CitesOwn(c.w, c.objs, RecAt(c.w, c.src, off).value.ref))
  }

  /** `off` brings the object under `key`. */
  ghost predicate IsCopy(c: Ctx, off: nat, key: nat) {
    Obj0(c, off).Some? && Key(c.w, Obj0(c, off).value) == key
  }

  /** A delta that names its base by `key`. */
  ghost predicate NamesIt(c: Ctx, off: nat, key: nat) {
    && RecAt(c.w, c.src, off).Some? && RecAt(c.w, c.src, off).value.typ == REF_DELTA
    && c.w.prefix(RecAt(c.w, c.src, off).value.ref) == key
  }

  /** If it is held, it is held under `key`: it names `key`, or is over a record that is. */
  ghost predicate HeldUnder(c: Ctx, off: nat, key: nat)
    decreases off
  {
    off in c.recs && RecAt(c.w, c.src, off).Some?
    && var rec := RecAt(c.w, c.src, off).value;
    || NamesIt(c, off, key)
    || (rec.typ == OFS_DELTA && rec.baseOff < off && HeldUnder(c, rec.baseOff, key))
  }

  /** `off` brings the object under `key`, of a type a lookup admits. */
  ghost predicate Brings(c: Ctx, off: nat, key: nat) {
    IsCopy(c, off, key) && IsBase(Obj0(c, off).value.typ)
  }

  /** Any source pack over any shard whose rows all read back. */
  ghost predicate Good(c: Ctx) {
    && GoodZlib(c.w.z) && HashesTell(c.w, c.objs) && c.w.room.half <= c.w.room.base < U64
    && (forall off | off in c.recs :: RecGood(c, off))
    && (forall i, j | 0 <= i < j < |c.recs| :: c.recs[i] < c.recs[j])
    && ShardOk(c)
  }

  /** The prefix of a delta's base. */
  ghost function BaseKey(c: Ctx, rec: Rec): nat {
    if rec.typ == REF_DELTA then c.w.prefix(rec.ref)
    else if Obj0(c, rec.baseOff).Some? then Key(c.w, Obj0(c, rec.baseOff).value)
    else 0
  }

  // ---------- what can land at all ----------

  /** Down at most `n` bases the record comes to one that is whole, or to a name the shard has. */
  ghost predicate Rooted(c: Ctx, off: nat, n: nat)
    decreases n, 0
  {
    off in c.recs && RecAt(c.w, c.src, off).Some?
    && var rec := RecAt(c.w, c.src, off).value;
    || !IsDelta(rec.typ)
    || (n > 0 && if rec.typ == OFS_DELTA then Rooted(c, rec.baseOff, n - 1)
                 else NameRooted(c, c.w.prefix(rec.ref), n - 1))
  }

  ghost predicate NameRooted(c: Ctx, key: nat, n: nat)
    decreases n, 1
  {
    InRows(c.rows0, key) || exists off :: Brings(c, off, key) && Rooted(c, off, n)
  }

  /** Nothing the record is over, however far down, is missing from pack and shard or over itself. */
  ghost predicate CanLand(c: Ctx, off: nat) {
    exists n: nat :: Rooted(c, off, n)
  }

  // ---------- the rows of a run ----------

  /** What a stored record cites: a row's record of the same log, or a prefix some row is under. */
  ghost predicate CitesBase(c: Ctx, s: State, r: Row, h: Header, key: nat) {
    || (h.typ == OFS_DELTA && 0 < h.ofs <= r.off && exists b :: b in s.rows && IsAt(b, r.id, r.off - h.ofs, key))
    || (h.typ == REF_DELTA && c.w.prefix(h.ref) == key && InRows(s.rows, key))
  }

  predicate IsAt(b: Row, id: nat, off: nat, key: nat) {
    b.id == id && b.off == off && b.key == key
  }

  /** The stored header and payload are the source record's own; a delta cites its own base. */
  ghost predicate StoredAs(c: Ctx, s: State, r: Row, rec: Rec, h: Header) {
    && h.st == Ok && h.size == rec.size <= c.w.room.base
    && c.w.z.inflate(h.rest, h.size).st == Ok && c.w.z.inflate(rec.z, rec.size).st == Ok
    && c.w.z.inflate(h.rest, h.size).bytes == c.w.z.inflate(rec.z, rec.size).bytes
    && (rec.typ == OFS_DELTA ==> rec.baseOff in c.recs)
    && if IsDelta(rec.typ) then CitesBase(c, s, r, h, BaseKey(c, rec)) else h.typ == rec.typ
  }

  /** Row `r` is the landed source record `off`. */
  ghost predicate Stored(c: Ctx, s: State, r: Row, off: nat) {
    && off in c.recs && CanLand(c, off) && RecAt(c.w, c.src, off).Some? && IsCopy(c, off, r.key)
    && r.typ == Obj0(c, off).value.typ
    && r.id in s.logs && HEADER <= r.off < |s.logs[r.id]|
    && StoredAs(c, s, r, RecAt(c.w, c.src, off).value, HeaderAt(Loc(s.logs[r.id], r.off)))
  }

  ghost predicate RowOk(c: Ctx, s: State, r: Row) {
    r in c.rows0 || exists off :: Stored(c, s, r, off)
  }

  /** The shard's rows and logs carried on, and every row accounted for. */
  ghost predicate RowsOk(c: Ctx, s: State) {
    && c.rows0 <= s.rows && LogsGrow(c.logs0, s.logs) && (forall id | id in s.logs :: |s.logs[id]| >= HEADER)
    && forall r | r in s.rows :: RowOk(c, s, r)
  }

  lemma RowsLogs(c: Ctx, s: State)
    requires RowsOk(c, s)
    ensures forall id | id in s.logs :: |s.logs[id]| >= HEADER
  {
  }

  // ---------- growth ----------

  lemma LogsGrowTrans(a: map<nat, seq<Byte>>, b: map<nat, seq<Byte>>, c: map<nat, seq<Byte>>)
    requires LogsGrow(a, b) && LogsGrow(b, c)
    ensures LogsGrow(a, c)
  {
    hide PackGrows;
    forall id | id in a
      ensures PackGrows(a[id], c[id])
    {
      assert id in b;
      PackGrowsTrans(a[id], b[id], c[id]);
    }
  }

  lemma LogsGrowRefl(a: map<nat, seq<Byte>>)
    requires forall id | id in a :: |a[id]| >= HEADER
    ensures LogsGrow(a, a)
  {
  }

  lemma CitesMore(c: Ctx, s: State, t: State, r: Row, h: Header, h': Header, key: nat)
    requires CitesBase(c, s, r, h, key) && s.rows <= t.rows && h' == h.(rest := h'.rest)
    ensures CitesBase(c, t, r, h', key)
  {
    if h.typ == OFS_DELTA && 0 < h.ofs <= r.off && exists b :: b in s.rows && IsAt(b, r.id, r.off - h.ofs, key) {
      var b :| b in s.rows && IsAt(b, r.id, r.off - h.ofs, key);
      assert b in t.rows;
    } else {
      InRowsMore(s.rows, t.rows, key);
    }
  }

  /** What a landed record is does not change as logs and rows grow. */
  lemma StoredGrows(c: Ctx, s: State, t: State, r: Row, off: nat)
    requires GoodZlib(c.w.z) && Stored(c, s, r, off) && LogsGrow(s.logs, t.logs) && s.rows <= t.rows
    ensures Stored(c, t, r, off)
  {
    hide GoodZlib, HeaderAt, RecAt, Obj0, CitesBase, BaseKey, LogsGrow;
    LogGrew(s.logs, t.logs, r.id);
    var a, b := Loc(s.logs[r.id], r.off), Loc(t.logs[r.id], r.off);
    var h := HeaderAt(a);
    HeaderGrows(a, b);
    InflateExtend(c.w.z, h.rest, h.size, t.logs[r.id][|s.logs[r.id]|..]);
    var rec := RecAt(c.w, c.src, off).value;
    if IsDelta(rec.typ) {
      CitesMore(c, s, t, r, h, HeaderAt(b), BaseKey(c, rec));
    }
  }

  lemma RowGrows(c: Ctx, s: State, t: State, r: Row)
    requires GoodZlib(c.w.z) && RowOk(c, s, r) && LogsGrow(s.logs, t.logs) && s.rows <= t.rows
    ensures RowOk(c, t, r)
  {
    hide GoodZlib, Stored, LogsGrow;
    if r !in c.rows0 {
      var off :| Stored(c, s, r, off);
      StoredGrows(c, s, t, r, off);
    }
  }

  /** Logs that grew, and one more row at most. */
  lemma RowsGrow(c: Ctx, s: State, t: State)
    requires GoodZlib(c.w.z) && RowsOk(c, s) && LogsGrow(s.logs, t.logs) && s.rows <= t.rows
    requires forall id | id in t.logs :: |t.logs[id]| >= HEADER
    requires forall r | r in t.rows[|s.rows|..] :: RowOk(c, t, r)
    ensures RowsOk(c, t)
  {
    hide GoodZlib, RowOk, LogsGrow;
    LogsGrowTrans(c.logs0, s.logs, t.logs);
    assert t.rows == s.rows + t.rows[|s.rows|..];
    forall r | r in t.rows
      ensures RowOk(c, t, r)
    {
      if r in s.rows {
        assert RowOk(c, s, r);
        RowGrows(c, s, t, r);
      }
    }
  }

  /** The rows read the logs and the rows only. */
  lemma RowsSame(c: Ctx, s: State, t: State)
    requires RowsOk(c, s) && t.rows == s.rows && t.logs == s.logs
    ensures RowsOk(c, t)
  {
    hide Stored;
    forall r | r in t.rows
      ensures RowOk(c, t, r)
    {
      assert RowOk(c, s, r);
      if r !in c.rows0 {
        var off :| Stored(c, s, r, off);
        StoredSame(c, s, t, r, off);
      }
    }
  }

  lemma StoredSame(c: Ctx, s: State, t: State, r: Row, off: nat)
    requires Stored(c, s, r, off) && t.rows == s.rows && t.logs == s.logs
    ensures Stored(c, t, r, off)
  {
    hide HeaderAt, RecAt, Obj0, BaseKey;
  }
}
