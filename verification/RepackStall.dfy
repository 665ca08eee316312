/** A delta before the record of type 0 or 5 it names: the wake loop takes it out of the lane and holds it again, in
  * round after round, and nothing ends it. */
module RepackStall {
  import opened Common
  import opened DeltaFormat
  import opened DeltaCodec
  import opened PackFormat
  import opened PackResolve
  import opened PackWrite
  import opened RepackChain
  import opened RepackState
  import opened RepackRows
  import opened RepackRead
  import opened RepackInv
  import opened RepackEmit
  import opened RepackLayout
  import opened RepackSteps
  import opened RepackOutcome
  import opened RepackLimits

  // ---------- the loop ----------

  /** The code holds `rec`, under `key`: its named base is not indexed, or its base is held under `key`. */
  ghost predicate HeldAgain(w: World, s: State, rec: Rec, key: nat) {
    || (rec.typ == REF_DELTA && key == w.prefix(rec.ref) && !InRows(s.rows, key))
    || (rec.typ == OFS_DELTA && exists m :: m in s.map_ && m.key == rec.baseOff && HeldAs(s, m, key))
  }

  /** A round of waking `key`: the first row that waits for it is taken out, and its record held again, in a new slot.
    * */
  ghost predicate Round(w: World, s: State, key: nat, t: State) {
    exists at: nat, under: nat :: RoundAt(w, s, key, t, at, under)
  }

  ghost predicate RoundAt(w: World, s: State, key: nat, t: State, at: nat, under: nat) {
    && at < |s.wait| && s.wait[at].key == key && (at > 0 ==> s.wait[at - 1].key != key) && s.wait[at].slot < |s.holds|
    && var rec := s.holds[s.wait[at].slot].rec;
    && HeldAgain(w, s, rec, under) && t == s.(holds := s.holds + [Hold(rec, under)], wait := t.wait)
    && WaitSorted(t.wait)
    && forall x :: x in t.wait <==> (x in s.wait && x != s.wait[at]) || x == WaitRow(under, |s.holds|)
  }

  ghost predicate Rounds(w: World, s: State, key: nat, n: nat, t: State)
    decreases n
  {
    if n == 0 then t == s else exists u :: Rounds(w, s, key, n - 1, u) && Round(w, u, key, t)
  }

  /** Something waits for `key`, no lookup finds it, and all that waits for it the code would hold under it again. */
  ghost predicate Again(w: World, s: State, key: nat) {
    && Ascends(s.map_) && WaitSorted(s.wait) && WaitsFor(s, key) && !InRows(s.rows, key)
    && (forall wr | wr in s.wait :: wr.slot < |s.holds|)
    && forall wr | wr in s.wait && wr.key == key :: HeldAgain(w, s, s.holds[wr.slot].rec, key)
  }

  /** When a landed object cannot be found, that is exactly what its waiting records come to. */
  lemma StallLoops(c: Ctx, s: State, offs: seq<nat>, key: nat)
    requires Good(c) && Inv(c, s, offs, -1)
    ensures Again(c.w, s, key) <==> !InRows(s.rows, key) && WaitsFor(s, key)
  {
    hide Good, RowsOk, PlaceOk, InRows, RecAt, HeldUnder, WaitSorted, Ascends, WaitsFor;
    MapAscends(c, s, offs, -1);
    InvWaits(c, s, offs, -1);
    if !InRows(s.rows, key) {
      forall wr | wr in s.wait && wr.key == key
        ensures HeldAgain(c.w, s, s.holds[wr.slot].rec, key)
      {
        assert WaitOk(c, s, -1, wr);
      }
    }
  }

  lemma AgainUnder(w: World, s: State, rec: Rec, key: nat, under: nat)
    requires Ascends(s.map_) && HeldAgain(w, s, rec, key) && HeldAgain(w, s, rec, under)
    ensures under == key
  {
    hide InRows;
    if rec.typ == OFS_DELTA {
      var m :| m in s.map_ && m.key == rec.baseOff && HeldAs(s, m, key);
      var m' :| m' in s.map_ && m'.key == rec.baseOff && HeldAs(s, m', under);
      var i :| 0 <= i < |s.map_| && s.map_[i] == m;
      var j :| 0 <= j < |s.map_| && s.map_[j] == m';
      assert !(i < j) && !(j < i);
    }
  }

  lemma AgainMore(w: World, s: State, t: State, rec: Rec, key: nat)
    requires HeldAgain(w, s, rec, key) && t.map_ == s.map_ && t.rows == s.rows && s.holds <= t.holds
    ensures HeldAgain(w, t, rec, key)
  {
    hide InRows;
    if rec.typ == OFS_DELTA {
      var m :| m in s.map_ && m.key == rec.baseOff && HeldAs(s, m, key);
      assert HeldAs(t, m, key);
    }
  }

  /** A round lands nothing, uses up one more slot, and leaves another round to do. */
  lemma RoundAgain(w: World, s: State, key: nat, t: State)
    requires Again(w, s, key) && Round(w, s, key, t)
    ensures Again(w, t, key) && t.map_ == s.map_ && t.rows == s.rows && t.logs == s.logs && |t.holds| == |s.holds| + 1
  {
    hide InRows, WaitSorted, Ascends, HeldAgain;
    var at: nat, under: nat :| RoundAt(w, s, key, t, at, under);
    var rec := s.holds[s.wait[at].slot].rec;
    assert s.wait[at] in s.wait;
    AgainUnder(w, s, rec, key, under);
    assert WaitRow(key, |s.holds|) in t.wait;
    forall wr | wr in t.wait && wr.key == key
      ensures HeldAgain(w, t, t.holds[wr.slot].rec, key)
    {
      AgainMore(w, s, t, t.holds[wr.slot].rec, key);
    }
  }

  lemma {:induction false} WaitAdded(wait: seq<WaitRow>, row: WaitRow) returns (r: seq<WaitRow>)
    requires WaitSorted(wait) && row !in wait
    ensures WaitSorted(r) && forall x :: x in r <==> x in wait || x == row
  {
    if wait == [] || WaitLt(wait[|wait| - 1], row) {
      r := wait + [row];
    } else {
      var m, last := wait[..|wait| - 1], wait[|wait| - 1];
      assert wait == m + [last];
      var r' := WaitAdded(m, row);
      r := r' + [last];
      forall i, j | 0 <= i < j < |r|
        ensures WaitLt(r[i], r[j])
      {
        assert j == |r'| ==> r'[i] in r' && (r'[i] in m ==> exists k :: 0 <= k < |m| && wait[k] == r'[i]);
        assert last in wait && last != row;
      }
    }
  }

  lemma FirstFor(s: State, key: nat) returns (at: nat)
    requires WaitsFor(s, key)
    ensures at < |s.wait| && s.wait[at].key == key && (at > 0 ==> s.wait[at - 1].key != key)
  {
    var wr :| wr in s.wait && wr.key == key;
    at :| at < |s.wait| && s.wait[at] == wr;
    while at > 0 && s.wait[at - 1].key == key
      invariant at < |s.wait| && s.wait[at].key == key
    {
      at := at - 1;
    }
  }

  lemma RoundNext(w: World, s: State, key: nat) returns (t: State)
    requires Again(w, s, key)
    ensures Round(w, s, key, t)
  {
    hide InRows, WaitSorted, Ascends, HeldAgain, WaitsFor;
    var at := FirstFor(s, key);
    var wr := s.wait[at];
    assert wr in s.wait;
    WaitWithout(s.wait, at);
    var rest := s.wait[..at] + s.wait[at + 1..];
    var wait := WaitAdded(rest, WaitRow(key, |s.holds|));
    t := s.(holds := s.holds + [Hold(s.holds[wr.slot].rec, key)], wait := wait);
    assert RoundAt(w, s, key, t, at, key);
  }

  /** However many rounds have gone by, nothing has landed, each has used up a slot, and there is one more to do. */
  lemma {:induction false} RoundsOn(w: World, s: State, key: nat, n: nat, t: State) returns (u: State)
    requires Again(w, s, key) && Rounds(w, s, key, n, t)
    ensures Again(w, t, key) && t.map_ == s.map_ && t.rows == s.rows && t.logs == s.logs && |t.holds| == |s.holds| + n
    ensures Rounds(w, s, key, n + 1, u)
    decreases n
  {
    hide Again, Round;
    if n > 0 {
      var v :| Rounds(w, s, key, n - 1, v) && Round(w, v, key, t);
      var t' := RoundsOn(w, s, key, n - 1, v);
      RoundAgain(w, v, key, t);
    }
    u := RoundNext(w, t, key);
  }

  // ---------- two records that do not end ----------

  /** An object of type 5. */
  const ODD := Blob(5, [])

  lemma PackRec(w: World, log: seq<Byte>, typ: nat, ref: seq<Byte>, x: seq<Byte>, more: seq<Byte>)
    requires GoodZlib(w.z) && typ < 8 && typ != OFS_DELTA && |x| < U64
    requires |ref| == if typ == REF_DELTA then SHA_LEN else 0
    ensures var r := RecordBytes(typ, |x|, 0, ref, w.z.deflate(x));
      && RecAt(w, log + r + more, |log|) == Some(Rec(|log|, typ, |x|, 0, ref, w.z.deflate(x)))
      && RecEnd(w, log + r + more, |log|) == |log| + |r|
  {
    hide RecordBytes, HeaderAt;
    var z := w.z.deflate(x);
    var r := RecordBytes(typ, |x|, 0, ref, z);
    RecordHeader(log, typ, |x|, 0, ref, z, more);
    assert InflatesBack(w.z, x, more);
    assert (z + more)[..|z|] == z;
  }

  function OddRec(w: World): seq<Byte> {
    RecordBytes(5, 0, 0, [], w.z.deflate([]))
  }

  /** The same object again, as a delta that names it. */
  function OverOddRec(w: World): seq<Byte> {
    RecordBytes(REF_DELTA, |NOTHING|, 0, w.sha(ODD), w.z.deflate(NOTHING))
  }

  /** A pack of two records over an empty shard. */
  ghost function PairOf(w: World, a: seq<Byte>, b: seq<Byte>): Ctx {
    Ctx(w, {ODD}, PackHdr(2) + a + b, [HEADER, HEADER + |a|], [], map[], (key: nat) => None)
  }

  lemma PairParse(w: World, a: seq<Byte>, b: seq<Byte>)
    requires var c := PairOf(w, a, b);
      RecAt(w, c.src, HEADER).Some? && RecEnd(w, c.src, HEADER) == HEADER + |a| && RecAt(w, c.src, HEADER + |a|).Some?
    ensures var c := PairOf(w, a, b);
      DrainHdr(c.src).st == Ok && c.recs == Parse(w, c.src, HEADER, DrainHdr(c.src).count)
  {
    hide RecAt, RecEnd, PackHdr, DrainHdr;
    var c := PairOf(w, a, b);
    HdrRoundTrip(2, a + b);
    assert PackHdr(2) + (a + b) == c.src;
    var n := RecEnd(w, c.src, HEADER + |a|);
    assert Parse(w, c.src, n, 0) == [];
    assert Parse(w, c.src, HEADER + |a|, 1) == [HEADER + |a|] + Parse(w, c.src, n, 0);
  }

  /** Both records bring the one object. */
  lemma PairGood(w: World, a: seq<Byte>, b: seq<Byte>)
    requires GoodZlib(w.z) && |w.sha(ODD)| == SHA_LEN && w.room.half <= w.room.base < U64 && |a| > 0
    requires var c := PairOf(w, a, b);
      forall off | off in c.recs :: RecAt(w, c.src, off).Some? && Obj0(c, off) == Some(ODD)
        && (RecAt(w, c.src, off).value.typ == REF_DELTA ==> RecAt(w, c.src, off).value.ref == w.sha(ODD))
    ensures Good(PairOf(w, a, b)) && Blank(PairOf(w, a, b))
  {
    hide RecAt, Obj0, GoodZlib, InRows, PackHdr;
    var c := PairOf(w, a, b);
    forall off | off in c.recs
      ensures RecGood(c, off)
    {
      assert RecAt(w, c.src, off).Some?;
    }
    forall key: nat
      ensures PickOk(c.pick0, c.rows0, key)
    {
      NoRows(key);
    }
  }

  lemma OddObject(w: World, c: Ctx, off: nat)
    requires GoodZlib(w.z) && c.w == w && c.objs == {ODD}
    requires RecAt(w, c.src, off) == Some(Rec(off, 5, 0, 0, [], w.z.deflate([])))
      || RecAt(w, c.src, off) == Some(Rec(off, REF_DELTA, |NOTHING|, 0, w.sha(ODD), w.z.deflate(NOTHING)))
    ensures Obj0(c, off) == Some(ODD)
  {
    hide RecAt, GoodZlib, Meaning;
    InflateFed(w.z, []);
    InflateFed(w.z, NOTHING);
    NothingMeans(w.room.base);
  }

  /** The delta first: a pack like any other, and its second record stalls. */
  lemma StallInput(w: World)
    requires GoodZlib(w.z) && |w.sha(ODD)| == SHA_LEN && w.room.half <= w.room.base < U64
    ensures var c := PairOf(w, OverOddRec(w), OddRec(w));
      && Good(c) && Blank(c) && DrainHdr(c.src).st == Ok && c.recs == Parse(w, c.src, HEADER, DrainHdr(c.src).count)
      && |c.recs| == 2 && Stalls(c, c.recs[1])
  {
    hide GoodZlib, RecordBytes, PackHdr, RecAt, RecEnd, Obj0, Good, Parse, DrainHdr;
    var a, b := OverOddRec(w), OddRec(w);
    var c := PairOf(w, a, b);
    PackRec(w, PackHdr(2), REF_DELTA, w.sha(ODD), NOTHING, b);
    PackRec(w, PackHdr(2) + a, 5, [], [], []);
    assert PackHdr(2) + a + b + [] == c.src;
    RecordNotEmpty(REF_DELTA, |NOTHING|, 0, w.sha(ODD), w.z.deflate(NOTHING));
    OddObject(w, c, HEADER);
    OddObject(w, c, HEADER + |a|);
    PairParse(w, a, b);
    PairGood(w, a, b);
    assert NamesIt(c, HEADER, Key(w, ODD));
  }

  /** The delta last: nothing stalls, and the delta is held for good. */
  lemma LateInput(w: World)
    requires GoodZlib(w.z) && |w.sha(ODD)| == SHA_LEN && w.room.half <= w.room.base < U64
    ensures var c := PairOf(w, OddRec(w), OverOddRec(w));
      && Good(c) && Blank(c) && DrainHdr(c.src).st == Ok && c.recs == Parse(w, c.src, HEADER, DrainHdr(c.src).count)
      && |c.recs| == 2 && (forall off | off in c.recs :: !Stalls(c, off)) && !CanLand(c, c.recs[1])
  {
    hide GoodZlib, RecordBytes, PackHdr, RecAt, RecEnd, Obj0, Good, Parse, DrainHdr, CanLand;
    var a, b := OddRec(w), OverOddRec(w);
    var c := PairOf(w, a, b);
    PackRec(w, PackHdr(2), 5, [], [], b);
    PackRec(w, PackHdr(2) + a, REF_DELTA, w.sha(ODD), NOTHING, []);
    assert PackHdr(2) + a + b + [] == c.src;
    RecordNotEmpty(5, 0, 0, [], w.z.deflate([]));
    OddObject(w, c, HEADER);
    OddObject(w, c, HEADER + |a|);
    PairParse(w, a, b);
    PairGood(w, a, b);
    NamedUnadmitted(c, HEADER, HEADER + |a|);
  }
}
