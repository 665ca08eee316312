/** An object that arrives a second time, as a delta: exactly when its new copy, and all that reads through it, still
  * read back. */
module RepackTwice {
  import opened Common
  import opened DeltaFormat
  import opened DeltaCodec
  import opened PackFormat
  import opened PackResolve
  import opened PackWrite
  import opened RepackChain
  import opened RepackState
  import opened RepackRows
  import opened RepackRead
  import opened RepackInv
  import opened RepackEmit

  /** The first `d` hops from `loc` cite nothing under prefix `key`. */
  ghost predicate Avoids(w: World, sto: Store, loc: Loc, d: nat, key: nat)
    decreases d
  {
    var h := HeaderAt(loc);
    d > 0 ==> (h.typ == REF_DELTA ==> w.prefix(h.ref) != key) && Avoids(w, sto, BaseLoc(sto, loc, h).loc, d - 1, key)
  }

  /** The second finder finds in grown packs all the first one does, but for one prefix, which it finds at `x`. */
  ghost predicate GrowsBut(w: World, s: Store, t: Store, key: nat, x: Loc) {
    && GoodZlib(s.z) && t.z == s.z && s.find.Some? && t.find.Some? && x.pack != []
    && (forall sha: seq<Byte> | w.prefix(sha) != key :: FoundGrows(s.find.value(sha), t.find.value(sha)))
    && (forall sha: seq<Byte> | w.prefix(sha) == key :: t.find.value(sha) == Found(Ok, x))
  }

  lemma HopGrows(w: World, s: Store, t: Store, key: nat, x: Loc, a: Loc, b: Loc)
    requires GrowsBut(w, s, t, key, x) && LocGrows(a, b) && a.off >= HEADER && HeaderAt(a).st == Ok
    requires BaseLoc(s, a, HeaderAt(a)).st == Ok
    ensures BaseLoc(t, b, HeaderAt(b)).st == Ok
    ensures var u, v := BaseLoc(s, a, HeaderAt(a)).loc, BaseLoc(t, b, HeaderAt(b)).loc;
      if HeaderAt(a).typ == REF_DELTA && w.prefix(HeaderAt(a).ref) == key then v == x else LocGrows(u, v)
  {
    hide HeaderAt;
    HeaderGrows(a, b);
    var h := HeaderAt(a);
    if h.typ == REF_DELTA && w.prefix(h.ref) != key {
      assert FoundGrows(s.find.value(h.ref), t.find.value(h.ref));
    }
  }

  // ---------- harmless ----------

  /** A chain that never cites the prefix reads on unchanged. */
  lemma {:induction false} AvoidingReads(w: World, s: Store, t: Store, key: nat, x: Loc, room: Room, a: Loc, b: Loc,
          d: nat, o: Obj)
    requires GrowsBut(w, s, t, key, x) && LocGrows(a, b) && Reads(s, room, a, d, o) && Avoids(w, s, a, d, key)
    ensures Reads(t, room, b, d, o)
    decreases d
  {
    hide HeaderAt, Meaning, GoodZlib, Meant, BaseLoc;
    var h := HeaderAt(a);
    HeaderGrows(a, b);
    if IsBase(h.typ) {
      WholeGrows(s, t, room, h, b.pack[|a.pack|..], o);
    } else {
      HopGrows(w, s, t, key, x, a, b);
      var u, v := BaseLoc(s, a, h).loc, BaseLoc(t, b, HeaderAt(b)).loc;
      var base := Meant(s, room, u, d - 1);
      AvoidingReads(w, s, t, key, x, room, u, v, d - 1, base);
      ReadsMeant(t, room, v, d - 1, base, d - 1);
      PatchedGrows(s, t, room, h, b.pack[|a.pack|..], base, o);
    }
  }

  /** If the new copy reads as the old one did, so does all that reads through it, deeper or less deep by as much. */
  lemma {:induction false} OthersRead(w: World, s: Store, t: Store, key: nat, x: Loc, room: Room, old_: Loc, d0: nat,
          dx: nat, ox: Obj,
        a: Loc, b: Loc, d: nat, o: Obj) returns (e: nat)
    requires GrowsBut(w, s, t, key, x) && LocGrows(a, b) && Reads(s, room, a, d, o)
    requires forall sha: seq<Byte> | w.prefix(sha) == key :: s.find.value(sha) == Found(Ok, old_)
    requires Reads(s, room, old_, d0, ox) && Reads(t, room, x, dx, ox)
    ensures Reads(t, room, b, e, o)
    ensures e == if Avoids(w, s, a, d, key) then d else d - d0 + dx
    decreases d
  {
    hide HeaderAt, Meaning, GoodZlib, Meant, BaseLoc;
    var h := HeaderAt(a);
    ReadsHeader(s, room, a, d, o);
    HeaderGrows(a, b);
    if IsBase(h.typ) {
      WholeGrows(s, t, room, h, b.pack[|a.pack|..], o);
      e := 0;
    } else {
      HopGrows(w, s, t, key, x, a, b);
      var u, v := BaseLoc(s, a, h).loc, BaseLoc(t, b, HeaderAt(b)).loc;
      var base := Meant(s, room, u, d - 1);
      if h.typ == REF_DELTA && w.prefix(h.ref) == key {
        CitedLoc(s, a, h, old_);
        ReadsOnce(s, room, old_, d0, ox, d - 1, base);
        DepthOnce(s, room, old_, d0, ox, d - 1, base);
        e := dx + 1;
      } else {
        var f := OthersRead(w, s, t, key, x, room, old_, d0, dx, ox, u, v, d - 1, base);
        e := f + 1;
      }
      ReadsMeant(t, room, v, e - 1, base, e - 1);
      PatchedGrows(s, t, room, h, b.pack[|a.pack|..], base, o);
    }
  }

  /** A record reads at one depth. */
  lemma {:induction false} DepthOnce(sto: Store, room: Room, a: Loc, d: nat, o: Obj, e: nat, p: Obj)
    requires Reads(sto, room, a, d, o) && Reads(sto, room, a, e, p)
    ensures d == e
    decreases d
  {
    hide Meant, HeaderAt, BaseLoc, Whole, Patched;
    ReadsHeader(sto, room, a, d, o);
    ReadsHeader(sto, room, a, e, p);
    if !IsBase(HeaderAt(a).typ) {
      var u := BaseLoc(sto, a, HeaderAt(a)).loc;
      DepthOnce(sto, room, u, d - 1, Meant(sto, room, u, d - 1), e - 1, Meant(sto, room, u, e - 1));
    }
  }

  lemma CitedLoc(sto: Store, a: Loc, h: Header, to: Loc)
    requires h.typ == REF_DELTA && sto.find.Some? && sto.find.value(h.ref) == Found(Ok, to)
    requires BaseLoc(sto, a, h).st == Ok
    ensures BaseLoc(sto, a, h).loc == to
  {
  }

  // ---------- harmful ----------

  /** `v` is `k` hops from `u`. */
  ghost predicate Reaches(sto: Store, u: Loc, v: Loc, k: nat)
    decreases k
  {
    if k == 0 then u == v
    else
      var h := HeaderAt(u);
      h.st == Ok && !IsBase(h.typ) && BaseLoc(sto, u, h).st == Ok && Reaches(sto, BaseLoc(sto, u, h).loc, v, k - 1)
  }

  /** A chain that runs into a cycle never reads back, however many hops are allowed. */
  lemma {:induction false} CycleLost(sto: Store, room: Room, u: Loc, x: Loc, k: nat, len: nat, n: nat)
    requires Reaches(sto, u, x, k) && Reaches(sto, x, x, len) && len > 0
    ensures Meant(sto, room, u, n) == Bad(PackFail)
    decreases n
  {
    hide HeaderAt, BaseLoc;
    var left := if k > 0 then k else len;
    if n > 0 {
      CycleLost(sto, room, BaseLoc(sto, u, HeaderAt(u)).loc, x, left - 1, len, n - 1);
    }
  }

  /** What leads to a record that never resolves does not resolve either. */
  lemma {:induction false} ReachLost(sto: Store, room: Room, u: Loc, x: Loc, k: nat, n: nat)
    requires Reaches(sto, u, x, k) && forall m: nat :: Meant(sto, room, x, m).st != Ok
    ensures Meant(sto, room, u, n).st != Ok
    decreases n
  {
    hide HeaderAt, BaseLoc;
    if k > 0 && n > 0 {
      ReachLost(sto, room, BaseLoc(sto, u, HeaderAt(u)).loc, x, k - 1, n - 1);
    }
  }

  /** A chain that cites the prefix somewhere runs, in the grown store, into the new copy. */
  lemma {:induction false} CitingReaches(w: World, s: Store, t: Store, key: nat, x: Loc, room: Room, a: Loc, b: Loc,
          d: nat, o: Obj) returns (k: nat)
    requires GrowsBut(w, s, t, key, x) && LocGrows(a, b) && Reads(s, room, a, d, o) && !Avoids(w, s, a, d, key)
    ensures k > 0 && Reaches(t, b, x, k)
    decreases d
  {
    hide HeaderAt, Meaning, GoodZlib, Meant, BaseLoc, LocGrows;
    ReadsHeader(s, room, a, d, o);
    HeaderGrows(a, b);
    var h := HeaderAt(a);
    BaseHasNoHops(s, room, a, d, o);
    HopGrows(w, s, t, key, x, a, b);
    var u, v := BaseLoc(s, a, h).loc, BaseLoc(t, b, HeaderAt(b)).loc;
    if h.typ == REF_DELTA && w.prefix(h.ref) == key {
      k := 1;
      assert Reaches(t, v, x, 0);
    } else {
      var j := CitingReaches(w, s, t, key, x, room, u, v, d - 1, Meant(s, room, u, d - 1));
      k := j + 1;
    }
  }

  lemma BaseHasNoHops(sto: Store, room: Room, a: Loc, d: nat, o: Obj)
    requires Reads(sto, room, a, d, o)
    ensures IsBase(HeaderAt(a).typ) <==> d == 0
  {
    hide HeaderAt, BaseLoc, Meant, Whole, Patched;
  }

  // ---------- a second copy lands ----------

  /** From `p` to `q` one lookup changed: its prefix is answered by the new row now. */
  ghost predicate Shadows(p: Pick, q: Pick, r: Row) {
    q(r.key) == Some(r) && forall key: nat | key != r.key :: q(key) == p(key)
  }

  /** As it does in a page scanned newest first. */
  lemma NewestShadows(rows: seq<Row>, r: Row)
    requires IsBase(r.typ)
    ensures Shadows(Newest(rows), Newest(rows + [r]), r)
  {
    assert (rows + [r])[..|rows|] == rows;
  }

  /** The record a delta emitted into log `cur` over `base` leads to: `base` in the same log, else what its prefix
    * finds. */
  function LedTo(p: Pick, cur: nat, base: Row): Option<Row> {
    if base.id == cur then Some(base) else p(base.key)
  }

  /** What landing a record over `base` needs: what it will cite, `at`, reads back as `ob`, and the delta makes `o` of
    * it. */
  ghost predicate Applies(c: Ctx, s: State, p: Pick, cur: nat, rec: Rec, base: Row, sha: seq<Byte>, at: Row, d: nat,
          ob: Blob, o: Blob) {
    && GoodZlib(c.w.z) && (forall id | id in s.logs :: |s.logs[id]| >= HEADER) && cur in s.logs && |s.logs[cur]| < U64
    && LedTo(p, cur, base) == Some(at) && at.key == base.key && at.id in s.logs
    && Reads(StoreOf(c.w, p, s.logs), c.w.room, Loc(s.logs[at.id], at.off), d, Obj(Ok, ob.typ, ob.bytes))
    && IsDelta(rec.typ) && rec.size <= c.w.room.base < U64 && c.w.room.half <= c.w.room.base
    && (base.id != cur ==> |sha| == SHA_LEN && c.w.prefix(sha) == base.key)
    && (var i := c.w.z.inflate(rec.z, rec.size);
        i.st == Ok && Meaning(i.bytes, ob.bytes, c.w.room.base) == Outcome(OK, o.bytes) && o.typ == ob.typ)
  }

  /** The new copy leads nowhere back to itself: it does not cite its own name, and nor does what it is over. */
  ghost predicate Clear(c: Ctx, s: State, p: Pick, cur: nat, base: Row, at: Row, d: nat, o: Blob) {
    && (base.id == cur || base.key != Key(c.w, o))
    && at.id in s.logs && Avoids(c.w, StoreOf(c.w, p, s.logs), Loc(s.logs[at.id], at.off), d, Key(c.w, o))
  }

  /** The resolver has scratch for it. */
  predicate FitsScratch(c: Ctx, rec: Rec, o: Blob) {
    rec.size <= c.w.room.half && |o.bytes| <= c.w.room.half
  }

  lemma TwiceGrows(c: Ctx, s: State, t: State, p: Pick, q: Pick, cur: nat, rec: Rec, base: Option<Row>, sha: seq<Byte>,
          o: Blob)
    requires GoodZlib(c.w.z) && (forall id | id in s.logs :: |s.logs[id]| >= HEADER)
    requires Wrote(c, s, t, cur, rec, base, sha, o)
    requires Shadows(p, q, t.rows[|s.rows|])
    ensures var x := Loc(t.logs[cur], |s.logs[cur]|);
      GrowsBut(c.w, StoreOf(c.w, p, s.logs), StoreOf(c.w, q, t.logs), Key(c.w, o), x)
    ensures LogsGrow(s.logs, t.logs)
  {
    hide GoodZlib, Emitted, LogsGrow;
    LogsAppend(s, t, cur, Emitted(rec, s.logs[cur], cur, base, sha));
    forall ref: seq<Byte> | c.w.prefix(ref) != Key(c.w, o)
      ensures FoundGrows(FindIn(c.w, p, s.logs, ref), FindIn(c.w, q, t.logs, ref))
    {
      assert q(c.w.prefix(ref)) == p(c.w.prefix(ref));
      if p(c.w.prefix(ref)).Some? && p(c.w.prefix(ref)).value.id in s.logs {
        LogGrew(s.logs, t.logs, p(c.w.prefix(ref)).value.id);
      }
    }
    LogGrew(s.logs, t.logs, cur);
  }

  /** Where the new copy's reference leads: to its base, or to itself if it cites its own name. */
  lemma NewHop(c: Ctx, s: State, t: State, p: Pick, q: Pick, cur: nat, rec: Rec, base: Row, sha: seq<Byte>, at: Row,
          d: nat, ob: Blob, o: Blob)
    requires Applies(c, s, p, cur, rec, base, sha, at, d, ob, o) && Wrote(c, s, t, cur, rec, Some(base), sha, o)
    requires Shadows(p, q, t.rows[|s.rows|])
    ensures at.id in t.logs && PackGrows(s.logs[at.id], t.logs[at.id]) && HEADER <= at.off < |s.logs[at.id]|
    ensures var x := Loc(t.logs[cur], |s.logs[cur]|);
      var h := HeaderAt(x);
      && h.st == Ok && !IsBase(h.typ) && h.size == rec.size && h.rest == rec.z && x.off >= HEADER
      && BaseLoc(StoreOf(c.w, q, t.logs), x, h)
           == Found(Ok, if base.id != cur && base.key == Key(c.w, o) then x else Loc(t.logs[at.id], at.off))
  {
    hide Reads, HeaderAt, Emitted, GoodZlib, Meaning, LogsGrow, GrowsBut;
    var log := s.logs[cur];
    ReadsInside(StoreOf(c.w, p, s.logs), c.w.room, Loc(s.logs[at.id], at.off), d, Obj(Ok, ob.typ, ob.bytes));
    TwiceGrows(c, s, t, p, q, cur, rec, Some(base), sha, o);
    LogGrew(s.logs, t.logs, at.id);
    EmittedHeader(rec, log, cur, Some(base), sha);
  }

  /** A second copy of an object, landed as a delta: it resolves if and only if it leads nowhere back to itself, fits
    * the resolver's scratch, and lies within 256 deltas of something whole. */
  lemma SecondCopy(c: Ctx, s: State, t: State, p: Pick, q: Pick, cur: nat, rec: Rec, base: Row, sha: seq<Byte>, at: Row,
          d: nat, ob: Blob, o: Blob)
    requires Applies(c, s, p, cur, rec, base, sha, at, d, ob, o) && Wrote(c, s, t, cur, rec, Some(base), sha, o)
    requires Shadows(p, q, t.rows[|s.rows|])
    ensures var sto, x := StoreOf(c.w, q, t.logs), Loc(t.logs[cur], |s.logs[cur]|);
      var sound := Clear(c, s, p, cur, base, at, d, o) && FitsScratch(c, rec, o);
      && (Meant(sto, c.w.room, x, CHAIN_MAX).st == Ok <==> sound && d < CHAIN_MAX)
      && (sound ==> Reads(sto, c.w.room, x, d + 1, Obj(Ok, o.typ, o.bytes)))
      && (!sound ==> forall n: nat :: Meant(sto, c.w.room, x, n).st != Ok)
  {
    hide Reads, HeaderAt, Emitted, GoodZlib, Meaning, LogsGrow, GrowsBut, BaseLoc, Meant, Avoids;
    var a := Loc(s.logs[at.id], at.off);
    var from, sto, x := StoreOf(c.w, p, s.logs), StoreOf(c.w, q, t.logs), Loc(t.logs[cur], |s.logs[cur]|);
    TwiceGrows(c, s, t, p, q, cur, rec, Some(base), sha, o);
    NewHop(c, s, t, p, q, cur, rec, base, sha, at, d, ob, o);
    var b := Loc(t.logs[at.id], at.off);
    var pb, po := Obj(Ok, ob.typ, ob.bytes), Obj(Ok, o.typ, o.bytes);
    if base.id != cur && base.key == Key(c.w, o) {
      CycleLosesAll(sto, c.w.room, x, x, 0);
    } else if Avoids(c.w, from, a, d, Key(c.w, o)) {
      AvoidingReads(c.w, from, sto, Key(c.w, o), x, c.w.room, a, b, d, pb);
      CopyOver(c, sto, x, rec, b, d, ob, o);
    } else {
      var j := CitingReaches(c.w, from, sto, Key(c.w, o), x, c.w.room, a, b, d, pb);
      CycleLosesAll(sto, c.w.room, x, b, j);
    }
  }

  /** A record one hop from one that leads back to it. */
  lemma CycleLosesAll(sto: Store, room: Room, x: Loc, b: Loc, j: nat)
    requires HeaderAt(x).st == Ok && !IsBase(HeaderAt(x).typ) && BaseLoc(sto, x, HeaderAt(x)) == Found(Ok, b)
    requires Reaches(sto, b, x, j)
    ensures forall n: nat :: Meant(sto, room, x, n) == Bad(PackFail)
  {
    hide HeaderAt, BaseLoc, Meant;
    assert Reaches(sto, x, x, j + 1);
    forall n: nat
      ensures Meant(sto, room, x, n) == Bad(PackFail)
    {
      CycleLost(sto, room, x, x, 0, j + 1, n);
    }
  }

  /** A delta over one that reads back: its scratch decides. */
  lemma CopyOver(c: Ctx, sto: Store, x: Loc, rec: Rec, b: Loc, d: nat, ob: Blob, o: Blob)
    requires GoodZlib(sto.z) && sto.z == c.w.z && c.w.room.half <= c.w.room.base && x.off >= HEADER
    requires var h := HeaderAt(x);
      && h.st == Ok && !IsBase(h.typ) && h.size == rec.size && h.rest == rec.z && BaseLoc(sto, x, h) == Found(Ok, b)
    requires Reads(sto, c.w.room, b, d, Obj(Ok, ob.typ, ob.bytes))
    requires c.w.z.inflate(rec.z, rec.size).st == Ok && o.typ == ob.typ
    requires Meaning(c.w.z.inflate(rec.z, rec.size).bytes, ob.bytes, c.w.room.base) == Outcome(OK, o.bytes)
    ensures if FitsScratch(c, rec, o) then Reads(sto, c.w.room, x, d + 1, Obj(Ok, o.typ, o.bytes))
            else forall n: nat :: Meant(sto, c.w.room, x, n).st != Ok
    ensures Meant(sto, c.w.room, x, CHAIN_MAX).st == Ok <==> FitsScratch(c, rec, o) && d < CHAIN_MAX
  {
    hide HeaderAt, GoodZlib, Meaning, BaseLoc, Patched;
    var pb, po := Obj(Ok, ob.typ, ob.bytes), Obj(Ok, o.typ, o.bytes);
    HalfDecides(sto, c.w.room, HeaderAt(x), pb);
    ReadsMeant(sto, c.w.room, b, d, pb, d);
    if FitsScratch(c, rec, o) {
      assert Reads(sto, c.w.room, x, d + 1, po);
      ReadsMeant(sto, c.w.room, x, d + 1, po, CHAIN_MAX);
    } else {
      forall n: nat
        ensures Meant(sto, c.w.room, x, n).st != Ok
      {
        if n > 0 {
          ReadsMeant(sto, c.w.room, b, d, pb, n - 1);
          PatchedFails(sto, c.w.room, HeaderAt(x), Bad(PackFail));
        }
      }
    }
  }

  /** What the second copy does to a record that read back before: nothing if its chain does not cite the object;
    * else it resolves if and only if the new copy is sound and its own depth, counted through the new copy, is
    * within 256. */
  lemma OthersAfter(c: Ctx, s: State, t: State, p: Pick, q: Pick, cur: nat, rec: Rec, base: Row, sha: seq<Byte>,
          at: Row, d: nat, ob: Blob, o: Blob,
        old_: Row, d0: nat, id: nat, off: nat, da: nat, oa: Obj)
    requires Applies(c, s, p, cur, rec, base, sha, at, d, ob, o) && Wrote(c, s, t, cur, rec, Some(base), sha, o)
    requires Shadows(p, q, t.rows[|s.rows|])
    requires p(Key(c.w, o)) == Some(old_) && old_.id in s.logs && id in s.logs
    requires Reads(StoreOf(c.w, p, s.logs), c.w.room, Loc(s.logs[old_.id], old_.off), d0, Obj(Ok, o.typ, o.bytes))
    requires Reads(StoreOf(c.w, p, s.logs), c.w.room, Loc(s.logs[id], off), da, oa)
    ensures id in t.logs
    ensures var m := Meant(StoreOf(c.w, q, t.logs), c.w.room, Loc(t.logs[id], off), CHAIN_MAX);
      && (m.st == Ok ==> m == oa)
      && (m.st == Ok <==>
            if Avoids(c.w, StoreOf(c.w, p, s.logs), Loc(s.logs[id], off), da, Key(c.w, o)) then da <= CHAIN_MAX
            else Clear(c, s, p, cur, base, at, d, o) && FitsScratch(c, rec, o) && da - d0 + d < CHAIN_MAX)
  {
    hide Reads, Applies, Emitted, GoodZlib, LogsGrow, GrowsBut, Meant, Avoids, Clear, FitsScratch, Reaches, LocGrows;
    var from, sto, x := StoreOf(c.w, p, s.logs), StoreOf(c.w, q, t.logs), Loc(t.logs[cur], |s.logs[cur]|);
    var key, room := Key(c.w, o), c.w.room;
    AppliesLogs(c, s, p, cur, rec, base, sha, at, d, ob, o);
    TwiceGrows(c, s, t, p, q, cur, rec, Some(base), sha, o);
    LogGrew(s.logs, t.logs, id);
    var a, b := Loc(s.logs[id], off), Loc(t.logs[id], off);
    LocSame(a, b);
    ReadsHeader(from, room, a, da, oa);
    SecondCopy(c, s, t, p, q, cur, rec, base, sha, at, d, ob, o);
    if Avoids(c.w, from, a, da, key) {
      AvoidingReads(c.w, from, sto, key, x, room, a, b, da, oa);
      ReadsMeant(sto, room, b, da, oa, CHAIN_MAX);
    } else if Clear(c, s, p, cur, base, at, d, o) && FitsScratch(c, rec, o) {
      var at0, ox := Loc(s.logs[old_.id], old_.off), Obj(Ok, o.typ, o.bytes);
      var e := OthersRead(c.w, from, sto, key, x, room, at0, d0, d + 1, ox, a, b, da, oa);
      ReadsMeant(sto, room, b, e, oa, CHAIN_MAX);
    } else {
      var k := CitingReaches(c.w, from, sto, key, x, room, a, b, da, oa);
      ReachLost(sto, room, b, x, k, CHAIN_MAX);
    }
  }

  lemma AppliesLogs(c: Ctx, s: State, p: Pick, cur: nat, rec: Rec, base: Row, sha: seq<Byte>, at: Row, d: nat, ob: Blob,
          o: Blob)
    requires Applies(c, s, p, cur, rec, base, sha, at, d, ob, o)
    ensures GoodZlib(c.w.z) && forall id | id in s.logs :: |s.logs[id]| >= HEADER
  {
  }
}
