/** When a log is left for the next one: only for a record it has no room for.  So the logs run out only on a source
  * that fills them. */
module RepackFill {
  import opened Common
  import opened DeltaFormat
  import opened PackFormat
  import opened PackResolve
  import opened RepackChain
  import opened RepackState
  import opened RepackRows
  import opened RepackInv
  import opened RepackEmit
  import opened RepackSteps
  import opened RepackCauses
  import opened RepackOutcome
  import opened RepackDeep

  // ---------- what a record asks for ----------

  /** Where a record's base is: where the source record at its offset landed, or a row of the hash it names; a whole
    * record has none. */
  ghost predicate BaseOf(c: Ctx, s: State, rec: Rec, base: Option<Row>) {
    if rec.typ == OFS_DELTA then
      base.Some? && MapRow(rec.baseOff, Landed(base.value.id, base.value.off)) in s.map_
    else if rec.typ == REF_DELTA then
      base.Some? && base.value in s.rows && Admits(base.value, c.w.prefix(rec.ref))
    else base.None?
  }

  /** The longest header, the base's name if it is in another log, the payload. */
  ghost function NeedIn(rec: Rec, base: Option<Row>, id: nat): nat {
    HEADER_GUESS + (if base.Some? && base.value.id != id then SHA_LEN else 0) + |rec.z|
  }

  ghost predicate TooMuch(c: Ctx, s: State, cap: nat, id: nat, rec: Rec, base: Option<Row>) {
    BaseOf(c, s, rec, base) && id in s.logs && |s.logs[id]| + NeedIn(rec, base, id) > cap
  }

  /** The source record at `off` would have taken log `id` past its cap. */
  ghost predicate Breaches(c: Ctx, s: State, cap: nat, id: nat, off: nat) {
    && off in c.recs && RecAt(c.w, c.src, off).Some?
    && exists base: Option<Row> :: TooMuch(c, s, cap, id, RecAt(c.w, c.src, off).value, base)
  }

  lemma BreachGrows(c: Ctx, s: State, t: State, cap: nat, id: nat, off: nat)
    requires Breaches(c, s, cap, id, off) && Grown(s, t)
    ensures Breaches(c, t, cap, id, off)
  {
    hide RecAt;
    var rec := RecAt(c.w, c.src, off).value;
    var base: Option<Row> :| TooMuch(c, s, cap, id, rec, base);
    LogGrew(s.logs, t.logs, id);
    assert TooMuch(c, t, cap, id, rec, base);
  }

  lemma BreachNow(c: Ctx, s: State, cap: nat, id: nat, rec: Rec, base: Option<Row>)
    requires rec.off in c.recs && Some(rec) == RecAt(c.w, c.src, rec.off) && BaseOf(c, s, rec, base) && id in s.logs
    requires |s.logs[id]| + HEADER_GUESS + (if base.Some? && base.value.id != id then SHA_LEN else 0) + |rec.z| > cap
    ensures Breaches(c, s, cap, id, rec.off)
  {
    hide RecAt, BaseOf;
    assert TooMuch(c, s, cap, id, rec, base);
  }

  /** Only the logs changed, and they grew. */
  lemma LogsOnly(s: State, t: State)
    requires t == s.(logs := t.logs) && LogsGrow(s.logs, t.logs)
    ensures Grown(s, t)
  {
    hide LogsGrow;
  }

  /** No base anywhere: the base of a record is held. */
  lemma HeldNoBase(c: Ctx, s: State, offs: seq<nat>, busy: int, rec: Rec, at: nat)
    requires Good(c) && Inv(c, s, offs, busy) && rec.typ == OFS_DELTA
    requires at < |s.map_| && s.map_[at].key == rec.baseOff && s.map_[at].val.Held?
    ensures forall base: Option<Row> :: !BaseOf(c, s, rec, base)
  {
    hide Good, Inv;
    assert s.map_[at] in s.map_;
    forall m | m in s.map_ && m.key == rec.baseOff
      ensures m.val.Held?
    {
      MapOne(c, s, offs, busy, s.map_[at], m);
    }
  }

  /** No base anywhere: no row is of the object it names. */
  lemma MissingNoBase(c: Ctx, s: State, rec: Rec)
    requires rec.typ == REF_DELTA && !InRows(s.rows, c.w.prefix(rec.ref))
    ensures forall base: Option<Row> :: !BaseOf(c, s, rec, base)
  {
    hide InRows;
    forall r | r in s.rows
      ensures !Admits(r, c.w.prefix(rec.ref))
    {
      if Admits(r, c.w.prefix(rec.ref)) {
        RowIn(s.rows, r);
      }
    }
  }

  // ---------- why a log was left ----------

  /** Log `id` was left for the record at `off`: it is the first of the next log, or that one is empty. */
  ghost predicate LeftFor(c: Ctx, s: State, cap: nat, id: nat, off: nat) {
    && Breaches(c, s, cap, id, off) && id + 1 in s.logs
    && (|s.logs[id + 1]| <= HEADER || MapRow(off, Landed(id + 1, HEADER)) in s.map_)
  }

  ghost predicate LeftAt(c: Ctx, s: State, cap: nat, id: nat) {
    exists off :: LeftFor(c, s, cap, id, off)
  }

  /** Every log before `cur` was left for a record it had no room for. */
  ghost predicate Packed(c: Ctx, s: State, cap: nat, lo: nat, cur: nat) {
    forall id | lo <= id < cur :: LeftAt(c, s, cap, id)
  }

  /** Nothing landed in the next log, or something did behind its first record: the same reason still. */
  lemma LeftStays(c: Ctx, s: State, t: State, cap: nat, id: nat)
    requires LeftAt(c, s, cap, id) && Grown(s, t)
    requires id + 1 in s.logs ==> id + 1 in t.logs && (|s.logs[id + 1]| <= HEADER ==> |t.logs[id + 1]| <= HEADER)
    ensures LeftAt(c, t, cap, id)
  {
    hide Breaches, Grown;
    var off :| LeftFor(c, s, cap, id, off);
    BreachGrows(c, s, t, cap, id, off);
    LandedStays(s, t, MapRow(off, Landed(id + 1, HEADER)));
    assert LeftFor(c, t, cap, id, off);
  }

  lemma LandedStays(s: State, t: State, m: MapRow)
    requires Grown(s, t) && m.val.Landed?
    ensures m in s.map_ ==> m in t.map_
  {
    hide LogsGrow;
  }

  // ---------- what the logs hold ----------

  /** What the source record at `off` may take of a log. */
  ghost function NeedOf(c: Ctx, off: nat): nat {
    if RecAt(c.w, c.src, off).Some? then HEADER_GUESS + SHA_LEN + |RecAt(c.w, c.src, off).value.z| else 0
  }

  ghost function Total(c: Ctx, offs: seq<nat>): nat {
    if offs == [] then 0 else Total(c, offs[..|offs| - 1]) + NeedOf(c, offs[|offs| - 1])
  }

  /** The same for the records landed so far. */
  ghost function Spent(c: Ctx, m: seq<MapRow>): nat {
    if m == [] then 0
    else Spent(c, m[..|m| - 1]) + if m[|m| - 1].val.Landed? then NeedOf(c, m[|m| - 1].key) else 0
  }

  ghost function Bytes(logs: map<nat, seq<Byte>>, lo: nat, n: nat): nat {
    if n == 0 then 0 else Bytes(logs, lo, n - 1) + if lo + n - 1 in logs then |logs[lo + n - 1]| else 0
  }

  /** What the shard's log held before the run. */
  ghost function Before(c: Ctx, lo: nat): nat {
    if lo in c.logs0 then |c.logs0[lo]| else 0
  }

  /** The first `n` logs hold no more than what they held, their headers, and what landed. */
  ghost predicate Thrifty(c: Ctx, s: State, lo: nat, n: nat) {
    Bytes(s.logs, lo, n) <= Before(c, lo) + HEADER * n + Spent(c, s.map_)
  }

  lemma SpentMore(c: Ctx, m: seq<MapRow>, r: MapRow)
    ensures Spent(c, m + [r]) == Spent(c, m) + if r.val.Landed? then NeedOf(c, r.key) else 0
  {
    assert (m + [r])[..|m|] == m;
  }

  lemma {:induction false} SpentPatched(c: Ctx, m: seq<MapRow>, at: nat, r: MapRow)
    requires at < |m| && m[at].val.Held? && r.val.Landed?
    ensures Spent(c, m[at := r]) == Spent(c, m) + NeedOf(c, r.key)
    decreases |m|
  {
    hide NeedOf;
    var k, m' := |m| - 1, m[at := r];
    if at == k {
      assert m'[..k] == m[..k];
    } else {
      SpentPatched(c, m[..k], at, r);
      assert m'[..k] == m[..k][at := r];
    }
  }

  lemma {:induction false} SpentTotal(c: Ctx, m: seq<MapRow>, offs: seq<nat>)
    requires |m| == |offs| && forall k | 0 <= k < |m| :: m[k].key == offs[k]
    ensures Spent(c, m) <= Total(c, offs)
    decreases |m|
  {
    hide NeedOf;
    if m != [] {
      SpentTotal(c, m[..|m| - 1], offs[..|m| - 1]);
    }
  }

  lemma {:induction false} TotalPrefix(c: Ctx, offs: seq<nat>, all: seq<nat>)
    requires offs <= all
    ensures Total(c, offs) <= Total(c, all)
    decreases |all|
  {
    hide NeedOf;
    if |offs| < |all| {
      TotalPrefix(c, offs, all[..|all| - 1]);
    } else {
      assert offs == all;
    }
  }

  lemma {:induction false} BytesSet(logs: map<nat, seq<Byte>>, lo: nat, n: nat, id: nat, log: seq<Byte>)
    requires lo <= id && id in logs
    ensures Bytes(logs[id := log], lo, n) == Bytes(logs, lo, n) + if id < lo + n then |log| - |logs[id]| else 0
    decreases n
  {
    if n > 0 {
      BytesSet(logs, lo, n - 1, id, log);
    }
  }

  lemma {:induction false} BytesNew(logs: map<nat, seq<Byte>>, lo: nat, n: nat, id: nat, log: seq<Byte>)
    requires lo + n <= id
    ensures Bytes(logs[id := log], lo, n) == Bytes(logs, lo, n)
    decreases n
  {
    if n > 0 {
      BytesNew(logs, lo, n - 1, id, log);
    }
  }

  /** The same logs, each as long as it was. */
  ghost predicate SameSizes(a: map<nat, seq<Byte>>, b: map<nat, seq<Byte>>) {
    a.Keys == b.Keys && forall id | id in a :: |a[id]| == |b[id]|
  }

  lemma SizesKeys(a: map<nat, seq<Byte>>, b: map<nat, seq<Byte>>)
    requires SameSizes(a, b)
    ensures a.Keys == b.Keys
  {
  }

  lemma {:induction false} BytesSame(a: map<nat, seq<Byte>>, b: map<nat, seq<Byte>>, lo: nat, n: nat)
    requires SameSizes(a, b)
    ensures Bytes(a, lo, n) == Bytes(b, lo, n)
    decreases n
  {
    if n > 0 {
      BytesSame(a, b, lo, n - 1);
    }
  }

  // ---------- what a run keeps ----------

  /** Logs `lo` to `cur`, each left for a reason, and no more in them than landed. */
  ghost predicate Filed(c: Ctx, s: State, cap: nat, lo: nat, cur: nat) {
    && lo <= cur && (forall id | lo <= id <= cur :: id in s.logs)
    && Packed(c, s, cap, lo, cur) && Thrifty(c, s, lo, cur - lo + 1)
  }

  /** The current log has something in it, or is the first. */
  ghost predicate Begun(s: State, lo: nat, cur: nat) {
    cur == lo || (cur in s.logs && |s.logs[cur]| > HEADER)
  }

  /** The next record to land is one the log before had no room for, or no log was left just now. */
  ghost predicate Fits(c: Ctx, s: State, cap: nat, lo: nat, cur: nat, off: nat) {
    Begun(s, lo, cur) || (cur > lo && Breaches(c, s, cap, cur - 1, off))
  }

  lemma BegunSame(s: State, t: State, lo: nat, cur: nat)
    requires Begun(s, lo, cur) && t.logs == s.logs
    ensures Begun(t, lo, cur)
  {
  }

  lemma BegunFits(c: Ctx, s: State, cap: nat, lo: nat, cur: nat, off: nat)
    requires Begun(s, lo, cur)
    ensures Fits(c, s, cap, lo, cur, off)
  {
  }

  /** A record whose base is nowhere is none a log was left for. */
  lemma ParkBegun(c: Ctx, s: State, cap: nat, lo: nat, cur: nat, rec: Rec)
    requires Fits(c, s, cap, lo, cur, rec.off) && Some(rec) == RecAt(c.w, c.src, rec.off)
    requires forall base: Option<Row> :: !BaseOf(c, s, rec, base)
    ensures Begun(s, lo, cur)
  {
    hide RecAt, BaseOf;
  }

  lemma FiledFirst(c: Ctx, s: State, cap: nat, lo: nat)
    requires lo in s.logs && |s.logs[lo]| <= Before(c, lo) + HEADER
    ensures Filed(c, s, cap, lo, lo) && Begun(s, lo, lo)
  {
    var one: nat := 1;
    assert Bytes(s.logs, lo, one) == Bytes(s.logs, lo, one - 1) + |s.logs[lo]| && Bytes(s.logs, lo, one - 1) == 0;
  }

  /** The map has more held records at most: nothing changes. */
  lemma FiledSame(c: Ctx, s: State, t: State, cap: nat, lo: nat, cur: nat)
    requires Filed(c, s, cap, lo, cur) && Grown(s, t) && t.logs == s.logs
    requires t.map_ == s.map_ || exists m: MapRow :: m.val.Held? && t.map_ == s.map_ + [m]
    ensures Filed(c, t, cap, lo, cur)
  {
    hide LeftAt, Grown, Bytes, Spent;
    if t.map_ != s.map_ {
      var m: MapRow :| m.val.Held? && t.map_ == s.map_ + [m];
      SpentMore(c, s.map_, m);
    }
    forall id | lo <= id < cur
      ensures LeftAt(c, t, cap, id)
    {
      LeftStays(c, s, t, cap, id);
    }
  }

  /** A header patched in place moves nothing. */
  lemma FiledSealed(c: Ctx, s: State, t: State, cap: nat, lo: nat, cur: nat)
    requires Filed(c, s, cap, lo, cur) && t == s.(logs := t.logs) && LogsGrow(s.logs, t.logs)
    requires SameSizes(s.logs, t.logs)
    ensures Filed(c, t, cap, lo, cur)
  {
    hide LeftAt, LogsGrow, Bytes, Spent;
    LogsOnly(s, t);
    BytesSame(s.logs, t.logs, lo, cur - lo + 1);
    forall id | lo <= id < cur
      ensures LeftAt(c, t, cap, id)
    {
      LeftStays(c, s, t, cap, id);
    }
  }

  /** Sealed for a record it has no room for; if it is the last there may be, they have all run out. */
  lemma SealedFull(c: Ctx, s: State, t: State, offs: seq<nat>, busy: int, cap: nat, lo: nat, cur: nat, off: nat)
    requires Inv(c, s, offs, busy) && Filed(c, s, cap, lo, cur) && Breaches(c, s, cap, cur, off)
    requires t == s.(logs := t.logs) && LogsGrow(s.logs, t.logs) && SameSizes(s.logs, t.logs)
    ensures Filed(c, t, cap, lo, cur) && Breaches(c, t, cap, cur, off)
    ensures cur + 1 == lo + MAX_LOGS ==> Crowded(c, t, cap, lo) && Overfull(c, cap, lo)
  {
    hide Inv, Filed, Breaches, Crowded, Overfull, LogsGrow, SameSizes;
    SlotLimit(c, s, offs, busy, cap, lo, cur, off);
    FiledSealed(c, s, t, cap, lo, cur);
    LogsOnly(s, t);
    BreachGrows(c, s, t, cap, cur, off);
    CrowdGrows(c, s, t, cap, lo);
  }

  /** A log left for a record it has no room for, and a fresh one. */
  lemma FiledOpened(c: Ctx, s: State, t: State, cap: nat, lo: nat, cur: nat, off: nat, hdr: seq<Byte>)
    requires Filed(c, s, cap, lo, cur) && Breaches(c, s, cap, cur, off) && LogsGrow(s.logs, t.logs)
    requires t == s.(logs := s.logs[cur + 1 := hdr]) && |hdr| == HEADER && cur + 1 !in s.logs
    ensures Filed(c, t, cap, lo, cur + 1) && Fits(c, t, cap, lo, cur + 1, off)
  {
    hide LeftAt, LogsGrow, Bytes, Spent, Breaches;
    LogsOnly(s, t);
    var n := cur - lo + 1;
    BreachGrows(c, s, t, cap, cur, off);
    forall id | lo <= id < cur + 1
      ensures LeftAt(c, t, cap, id)
    {
      if id < cur {
        LeftStays(c, s, t, cap, id);
      } else {
        LeftNow(c, t, cap, cur, off);
      }
    }
    BytesNew(s.logs, lo, n, cur + 1, hdr);
    BytesLast(t.logs, lo, n);
  }

  /** Sealed and the next one opened: all that a step keeps. */
  lemma Rotated(c: Ctx, s: State, x: State, t: State, offs: seq<nat>, busy: int, waking: set<nat>, cap: nat, lo: nat,
          cur: nat, off: nat, hdr: seq<Byte>)
    requires Good(c) && Inv(c, s, offs, busy) && Quiet(s, waking) && Mapped(c, s)
    requires x == s.(logs := x.logs) && LogsGrow(s.logs, x.logs) && LogsGrow(x.logs, t.logs)
    requires forall id | id in t.logs :: |t.logs[id]| >= HEADER
    requires Filed(c, x, cap, lo, cur) && Breaches(c, x, cap, cur, off)
    requires t == x.(logs := x.logs[cur + 1 := hdr]) && |hdr| == HEADER && cur + 1 !in x.logs
    ensures Inv(c, t, offs, busy) && Quiet(t, waking) && Mapped(c, t) && Grown(s, t)
    ensures Filed(c, t, cap, lo, cur + 1) && Fits(c, t, cap, lo, cur + 1, off)
  {
    hide Good, Inv, Quiet, Mapped, LogsGrow, Filed, Fits, Breaches, Grown;
    LogsGrowTrans(s.logs, x.logs, t.logs);
    LogsOnly(s, t);
    RotateKeeps(c, s, t, offs, busy);
    QuietShows(s, t, waking);
    MappedSame(c, s, t);
    FiledOpened(c, x, t, cap, lo, cur, off, hdr);
  }

  lemma LeftNow(c: Ctx, s: State, cap: nat, id: nat, off: nat)
    requires Breaches(c, s, cap, id, off) && id + 1 in s.logs
    requires |s.logs[id + 1]| <= HEADER || MapRow(off, Landed(id + 1, HEADER)) in s.map_
    ensures LeftAt(c, s, cap, id)
  {
    hide Breaches;
    assert LeftFor(c, s, cap, id, off);
  }

  lemma BytesLast(logs: map<nat, seq<Byte>>, lo: nat, n: nat)
    requires lo + n in logs
    ensures Bytes(logs, lo, n + 1) == Bytes(logs, lo, n) + |logs[lo + n]|
  {
  }

  /** The row `m` joined the map, or took the place of a held one. */
  ghost predicate MapLanded(a: seq<MapRow>, b: seq<MapRow>, m: MapRow) {
    b == a + [m] || exists at :: 0 <= at < |a| && a[at].val.Held? && b == a[at := m]
  }

  lemma MapSpent(c: Ctx, a: seq<MapRow>, b: seq<MapRow>, m: MapRow)
    requires MapLanded(a, b, m) && m.val.Landed?
    ensures m in b && Spent(c, b) == Spent(c, a) + NeedOf(c, m.key)
  {
    hide Spent, NeedOf;
    if b == a + [m] {
      SpentMore(c, a, m);
    } else {
      var at :| 0 <= at < |a| && a[at].val.Held? && b == a[at := m];
      SpentPatched(c, a, at, m);
      assert b[at] == m;
    }
  }

  /** Where a record lands the map has no row for it, or a held one. */
  lemma LandsInto(c: Ctx, s: State, offs: seq<nat>, busy: int, m: MapRow, at: int, b: seq<MapRow>)
    requires Good(c) && Inv(c, s, offs, busy) && -1 <= busy && -1 <= at < |s.map_|
    requires busy == -1 ==> |offs| < |c.recs| && m.key == c.recs[|offs|]
    requires busy != -1 ==> WokenOk(c, s, offs, busy) && s.holds[busy].rec.off == m.key
    requires at >= 0 ==> s.map_[at].key == m.key
    requires b == if at >= 0 then s.map_[at := m] else s.map_ + [m]
    ensures MapLanded(s.map_, b, m)
  {
    hide Good, Inv, HoldOk, BaseReady, InRows;
    if at >= 0 {
      assert s.map_[at] in s.map_;
      if busy == -1 {
        NotMapped(c, s, offs, busy);
      } else {
        MapOne(c, s, offs, busy, s.map_[at], MapRow(m.key, Held(busy)));
      }
    }
  }

  /** A record landed: if the log was empty, it is the one the log before was left for. */
  lemma FiledLanded(c: Ctx, s: State, t: State, cap: nat, lo: nat, cur: nat, rec: Rec, log: seq<Byte>)
    requires Filed(c, s, cap, lo, cur) && Fits(c, s, cap, lo, cur, rec.off) && Grown(s, t)
    requires Some(rec) == RecAt(c.w, c.src, rec.off)
    requires |log| <= HEADER_GUESS + SHA_LEN + |rec.z| && log != []
    requires cur in s.logs && |s.logs[cur]| >= HEADER && t.logs == s.logs[cur := s.logs[cur] + log]
    requires MapLanded(s.map_, t.map_, MapRow(rec.off, Landed(cur, |s.logs[cur]|)))
    ensures Filed(c, t, cap, lo, cur) && Begun(t, lo, cur)
  {
    hide LeftAt, Grown, Bytes, Spent, Breaches, RecAt, MapLanded;
    MapSpent(c, s.map_, t.map_, MapRow(rec.off, Landed(cur, |s.logs[cur]|)));
    BytesSet(s.logs, lo, cur - lo + 1, cur, s.logs[cur] + log);
    forall id | lo <= id < cur
      ensures LeftAt(c, t, cap, id)
    {
      if id + 1 == cur && |s.logs[cur]| <= HEADER {
        BreachGrows(c, s, t, cap, id, rec.off);
        LeftNow(c, t, cap, id, rec.off);
      } else {
        LeftStays(c, s, t, cap, id);
      }
    }
  }

  // ---------- running out of logs ----------

  ghost predicate Breached(c: Ctx, s: State, cap: nat, id: nat) {
    exists off :: Breaches(c, s, cap, id, off)
  }

  /** All the logs a run may have were left for records they had no room for. */
  ghost predicate Crowded(c: Ctx, s: State, cap: nat, lo: nat) {
    forall id | lo <= id < lo + MAX_LOGS :: Breached(c, s, cap, id)
  }

  /** No record asks for more than `m` bytes. */
  ghost predicate AtMost(c: Ctx, m: nat) {
    forall off | off in c.recs :: NeedOf(c, off) <= m
  }

  /** The source fills all the logs: what its records ask for, with what the shard's log held, makes up for 64 logs
    * filled to within a record of the cap. */
  ghost predicate Overfull(c: Ctx, cap: nat, lo: nat) {
    forall m: nat | AtMost(c, m) :: FillsAll(c, cap, lo, m)
  }

  ghost predicate FillsAll(c: Ctx, cap: nat, lo: nat, m: nat) {
    MAX_LOGS * (cap + 1) <= Before(c, lo) + MAX_LOGS * (HEADER + m) + Total(c, c.recs)
  }

  lemma BreachBytes(c: Ctx, s: State, cap: nat, id: nat, m: nat)
    requires Breached(c, s, cap, id) && AtMost(c, m)
    ensures id in s.logs && cap + 1 <= |s.logs[id]| + m
  {
    hide RecAt, BaseOf;
    var off :| Breaches(c, s, cap, id, off);
    assert NeedOf(c, off) <= m;
  }

  lemma {:induction false} CrowdBytes(c: Ctx, s: State, cap: nat, lo: nat, n: nat, m: nat)
    requires AtMost(c, m) && forall id | lo <= id < lo + n :: Breached(c, s, cap, id)
    ensures n * (cap + 1) <= Bytes(s.logs, lo, n) + n * m
    decreases n
  {
    hide Breached, AtMost;
    if n > 0 {
      CrowdBytes(c, s, cap, lo, n - 1, m);
      BreachBytes(c, s, cap, lo + n - 1, m);
      assert n * (cap + 1) == (n - 1) * (cap + 1) + (cap + 1) && n * m == (n - 1) * m + m;
    }
  }

  /** Left for one record more, the last log there may be. */
  lemma LogsRunOut(c: Ctx, s: State, offs: seq<nat>, busy: int, cap: nat, lo: nat, cur: nat, off: nat)
    requires Inv(c, s, offs, busy) && Filed(c, s, cap, lo, cur) && Breaches(c, s, cap, cur, off)
    requires cur + 1 == lo + MAX_LOGS
    ensures Crowded(c, s, cap, lo) && Overfull(c, cap, lo)
  {
    hide Breaches, Bytes, Spent, Total, AtMost, RowsOk, PlaceOk, WaitOk, WaitSorted;
    forall id | lo <= id < lo + MAX_LOGS
      ensures Breached(c, s, cap, id)
    {
      if id < cur {
        assert LeftAt(c, s, cap, id);
        var o :| LeftFor(c, s, cap, id, o);
        BreachedBy(c, s, cap, id, o);
      } else {
        BreachedBy(c, s, cap, id, off);
      }
    }
    SpentTotal(c, s.map_, offs);
    TotalPrefix(c, offs, c.recs);
    forall m: nat | AtMost(c, m)
      ensures FillsAll(c, cap, lo, m)
    {
      CrowdBytes(c, s, cap, lo, MAX_LOGS, m);
    }
  }

  lemma BreachedBy(c: Ctx, s: State, cap: nat, id: nat, off: nat)
    requires Breaches(c, s, cap, id, off)
    ensures Breached(c, s, cap, id)
  {
    hide Breaches;
  }

  lemma CrowdGrows(c: Ctx, s: State, t: State, cap: nat, lo: nat)
    requires Grown(s, t)
    ensures Crowded(c, s, cap, lo) ==> Crowded(c, t, cap, lo)
  {
    hide Breaches, Grown;
    if Crowded(c, s, cap, lo) {
      forall id | lo <= id < lo + MAX_LOGS
        ensures Breached(c, t, cap, id)
      {
        assert Breached(c, s, cap, id);
        var off :| Breaches(c, s, cap, id, off);
        BreachGrows(c, s, t, cap, id, off);
      }
    }
  }

  /** The last log there may be, left as well. */
  lemma SlotLimit(c: Ctx, s: State, offs: seq<nat>, busy: int, cap: nat, lo: nat, cur: nat, off: nat)
    requires Inv(c, s, offs, busy) && Filed(c, s, cap, lo, cur) && Breaches(c, s, cap, cur, off)
    ensures cur + 1 == lo + MAX_LOGS ==> Crowded(c, s, cap, lo) && Overfull(c, cap, lo)
  {
    hide Inv, Filed, Breaches, Crowded, Overfull;
    if cur + 1 == lo + MAX_LOGS {
      LogsRunOut(c, s, offs, busy, cap, lo, cur, off);
    }
  }
}
