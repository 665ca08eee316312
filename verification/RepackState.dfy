/** The repacker's state: where every consumed record went, what is held back, and what the index promises. */
module RepackState {
  import opened Common
  import opened DeltaFormat
  import opened DeltaCodec
  import opened PackFormat
  import opened PackResolve
  import opened PackWrite
  import opened RepackChain

  // ---------- the world outside ----------

  /** An object: its type and its bytes. */
  datatype Blob = Blob(typ: nat, bytes: seq<Byte>)

  /** The codec, the object hash, its 60-bit prefix, and the scratch: `base` bytes for a landing record and for a
    * resolved base object, `half` of that for a resolved delta or its result. */
  datatype World = World(z: Zlib, sha: Blob -> seq<Byte>, prefix: seq<Byte> -> nat, room: Room)

  function Key(w: World, o: Blob): nat {
    w.prefix(w.sha(o))
  }

  /** Hashes tell the objects at hand apart, also by prefix. */
  ghost predicate HashesTell(w: World, objs: set<Blob>) {
    && (forall o | o in objs :: |w.sha(o)| == SHA_LEN)
    && (forall o, p | o in objs && p in objs && Key(w, o) == Key(w, p) :: o == p)
  }

  /** A cited hash names no object at hand but its own. */
  ghost predicate CitesOwn(w: World, objs: set<Blob>, ref: seq<Byte>) {
    forall o | o in objs && Key(w, o) == w.prefix(ref) :: w.sha(o) == ref
  }

  // ---------- the source pack ----------

  /** One source record: where it starts, its header's fields, its compressed payload. */
  datatype Rec = Rec(off: nat, typ: nat, size: nat, baseOff: nat, ref: seq<Byte>, z: seq<Byte>)

  /** The source record at `off`. */
  ghost function RecAt(w: World, src: seq<Byte>, off: nat): Option<Rec> {
    var h := HeaderAt(Loc(src, off));
    if h.st != Ok then None
    else
      var i := w.z.inflate(h.rest, h.size);
      if i.st != Ok || i.used > |h.rest| then None
      else if h.typ == OFS_DELTA && (h.ofs == 0 || h.ofs > off) then None
      else Some(Rec(off, h.typ, h.size, if h.typ == OFS_DELTA then off - h.ofs else 0, h.ref, h.rest[..i.used]))
  }

  /** The object a hash names, among those at hand. */
  ghost function BySha(w: World, objs: set<Blob>, ref: seq<Byte>): Option<Blob> {
    if o :| o in objs && w.sha(o) == ref then Some(o) else None
  }

  ghost function Delta(w: World, rec: Rec, base: Option<Blob>): Option<Blob> {
    if base.None? then None
    else
      var i := w.z.inflate(rec.z, rec.size);
      var r := Meaning(i.bytes, base.value.bytes, w.room.base);
      if i.st != Ok || r.st != OK then None else Some(Blob(base.value.typ, r.out))
  }

  predicate IsDelta(typ: nat) {
    typ == OFS_DELTA || typ == REF_DELTA
  }

  /** What the source record at `off` is: a delta over an earlier record or a named object, or whole; any type that is
    * no delta lands as a whole object. */
  ghost function Source(w: World, objs: set<Blob>, src: seq<Byte>, off: nat): Option<Blob>
    decreases off
  {
    var r := RecAt(w, src, off);
    if r.None? then None
    else if r.value.typ == OFS_DELTA then Delta(w, r.value, Source(w, objs, src, r.value.baseOff))
    else if r.value.typ == REF_DELTA then Delta(w, r.value, BySha(w, objs, r.value.ref))
    else
      var i := w.z.inflate(r.value.z, r.value.size);
      if i.st != Ok then None else Some(Blob(r.value.typ, i.bytes))
  }

  // ---------- the state ----------

  /** An index row: hash prefix, type, and where. */
  datatype Row = Row(key: nat, typ: nat, id: nat, off: nat)

  datatype Place = Landed(id: nat, off: nat) | Held(slot: nat)

  /** Where the record at a source offset went. */
  datatype MapRow = MapRow(key: nat, val: Place)

  /** A held record's slot, under the prefix it waits for. */
  datatype WaitRow = WaitRow(key: nat, slot: nat)

  datatype Hold = Hold(rec: Rec, key: nat)

  datatype State = State(map_: seq<MapRow>, wait: seq<WaitRow>, holds: seq<Hold>, rows: seq<Row>, logs: map<nat,
          seq<Byte>>)

  // ---------- the index ----------

  /** A row a lookup of `key` admits: under that prefix, and of one of the four object types. */
  predicate Admits(r: Row, key: nat) {
    r.key == key && IsBase(r.typ)
  }

  /** Some row is admitted. */
  ghost predicate InRows(rows: seq<Row>, key: nat) {
    exists i :: 0 <= i < |rows| && Admits(rows[i], key)
  }

  /** A lookup: which row it answers with. */
  type Pick = nat -> Option<Row>

  ghost predicate PickOk(p: Pick, rows: seq<Row>, key: nat) {
    && (p(key).Some? <==> InRows(rows, key))
    && (p(key).Some? ==> p(key).value in rows && Admits(p(key).value, key))
  }

  /** It answers with an admitted row whenever there is one, whichever of them. */
  ghost predicate GoodPick(p: Pick, rows: seq<Row>) {
    forall key: nat :: PickOk(p, rows, key)
  }

  lemma PickFinds(p: Pick, rows: seq<Row>, key: nat)
    requires GoodPick(p, rows)
    ensures PickOk(p, rows, key)
  {
    hide PickOk;
  }

  function FindIn(w: World, p: Pick, logs: map<nat, seq<Byte>>, ref: seq<Byte>): Found {
    var r := p(w.prefix(ref));
    if r.None? || r.value.id !in logs then Found(NoBase, Loc([], 0))
    else Found(Ok, Loc(logs[r.value.id], r.value.off))
  }

  /** The resolver's view of the logs and the index. */
  function StoreOf(w: World, p: Pick, logs: map<nat, seq<Byte>>): Store {
    Store(w.z, Some((ref: seq<Byte>) => FindIn(w, p, logs, ref)))
  }

  lemma InRowsLast(rows: seq<Row>, key: nat)
    requires rows != []
    ensures InRows(rows, key) <==> InRows(rows[..|rows| - 1], key) || Admits(rows[|rows| - 1], key)
  {
    var m := rows[..|rows| - 1];
    if InRows(m, key) {
      var i :| 0 <= i < |m| && Admits(m[i], key);
      assert Admits(rows[i], key);
    }
    if InRows(rows, key) {
      var i :| 0 <= i < |rows| && Admits(rows[i], key);
      assert i < |m| ==> Admits(m[i], key);
    }
  }

  lemma InRowsMore(rows: seq<Row>, more: seq<Row>, key: nat)
    requires rows <= more && InRows(rows, key)
    ensures InRows(more, key)
  {
    var i :| 0 <= i < |rows| && Admits(rows[i], key);
    assert Admits(more[i], key);
  }

  lemma RowIn(rows: seq<Row>, r: Row)
    requires r in rows && IsBase(r.typ)
    ensures InRows(rows, r.key)
  {
    var i :| 0 <= i < |rows| && rows[i] == r;
    assert Admits(rows[i], r.key);
  }

  // ---------- newest first ----------

  /** The newest row admitted. */
  function RowFor(rows: seq<Row>, key: nat): Option<Row> {
    if rows == [] then None
    else if Admits(rows[|rows| - 1], key) then Some(rows[|rows| - 1])
    else RowFor(rows[..|rows| - 1], key)
  }

  lemma {:induction false} RowForIn(rows: seq<Row>, key: nat)
    ensures RowFor(rows, key).Some? ==> RowFor(rows, key).value in rows && Admits(RowFor(rows, key).value, key)
    ensures RowFor(rows, key).Some? <==> InRows(rows, key)
  {
    hide InRows;
    if rows == [] {
      NoRows(key);
    } else {
      RowForIn(rows[..|rows| - 1], key);
      InRowsLast(rows, key);
    }
  }

  lemma NoRows(key: nat)
    ensures !InRows([], key)
  {
  }

  /** Lookups by the newest row. */
  function Newest(rows: seq<Row>): Pick {
    (key: nat) => RowFor(rows, key)
  }

  lemma NewestGood(rows: seq<Row>)
    ensures GoodPick(Newest(rows), rows)
  {
    hide RowFor, InRows;
    forall key: nat
      ensures PickOk(Newest(rows), rows, key)
    {
      RowForIn(rows, key);
    }
  }

  // ---------- growth ----------

  ghost predicate LogsGrow(a: map<nat, seq<Byte>>, b: map<nat, seq<Byte>>) {
    forall id | id in a :: id in b && PackGrows(a[id], b[id])
  }

  lemma LogGrew(a: map<nat, seq<Byte>>, b: map<nat, seq<Byte>>, id: nat)
    requires LogsGrow(a, b) && id in a
    ensures id in b && PackGrows(a[id], b[id])
  {
  }
}
