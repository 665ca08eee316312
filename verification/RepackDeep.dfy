/** Chains of held deltas: a cascade of wakes lands every link one call deeper than the link before, so a chain as long
  * as the cap never lands whole, whatever its records would resolve to. */
module RepackDeep {
  import opened Common
  import opened DeltaFormat
  import opened PackFormat
  import opened PackResolve
  import opened RepackChain
  import opened RepackState
  import opened RepackRows
  import opened RepackDepth
  import opened RepackRead
  import opened RepackInv
  import opened RepackSteps
  import opened RepackOutcome

  /** The only copy of its object in pack and shard. */
  ghost predicate Lone(c: Ctx, off: nat) {
    Obj0(c, off).Some? && OnlyRec(c, Key(c.w, Obj0(c, off).value), off)
  }

  /** `q` is a delta that names the object of `b`, both objects coming once. */
  ghost predicate Link(c: Ctx, q: nat, b: nat) {
    q != b && Lone(c, q) && Lone(c, b) && NamesIt(c, q, Key(c.w, Obj0(c, b).value))
  }

  /** `n` of the records `offs`, each a link over the one before, the first over `b`; `last` is the last. */
  ghost predicate Hung(c: Ctx, offs: seq<nat>, b: nat, last: nat, n: nat)
    decreases n
  {
    if n == 0 then last == b
    else exists q :: q in offs && Link(c, q, b) && Hung(c, offs, q, last, n - 1)
  }

  /** A whole record with a chain of 256 links over it, all before it in the pack. */
  ghost predicate Overhung(c: Ctx, i: nat) {
    && i < |c.recs| && RecAt(c.w, c.src, c.recs[i]).Some? && !IsDelta(RecAt(c.w, c.src, c.recs[i]).value.typ)
    && exists last :: Hung(c, c.recs[..i], c.recs[i], last, CHAIN_MAX)
  }

  lemma {:induction false} HungMore(c: Ctx, offs: seq<nat>, offs': seq<nat>, b: nat, last: nat, n: nat)
    requires Hung(c, offs, b, last, n) && offs <= offs'
    ensures Hung(c, offs', b, last, n)
    decreases n
  {
    hide Link;
    if n > 0 {
      var q :| q in offs && Link(c, q, b) && Hung(c, offs, q, last, n - 1);
      HungMore(c, offs, offs', q, last, n - 1);
    }
  }

  /** A chain without its last link. */
  lemma {:induction false} HungLess(c: Ctx, offs: seq<nat>, b: nat, last: nat, n: nat) returns (l: nat)
    requires Hung(c, offs, b, last, n) && n > 0
    ensures Hung(c, offs, b, l, n - 1)
    decreases n
  {
    hide Link;
    if n == 1 {
      l := b;
    } else {
      var q :| q in offs && Link(c, q, b) && Hung(c, offs, q, last, n - 1);
      l := HungLess(c, offs, q, last, n - 1);
    }
  }

  /** Over a record within `d` deltas, the `n`-th link is within `d + n`: nothing is wrong with the chain itself. */
  lemma {:induction false} HungWithin(c: Ctx, offs: seq<nat>, b: nat, last: nat, d: nat, n: nat)
    requires Hung(c, offs, b, last, n) && RecWithin(c, b, d)
    requires forall q | q in offs && RecAt(c.w, c.src, q).Some? :: FitsHalf(c, q, RecAt(c.w, c.src, q).value)
    ensures RecWithin(c, last, d + n)
    decreases n
  {
    hide Link, RecWithin, RecAt, FitsHalf;
    if n > 0 {
      var q :| q in offs && Link(c, q, b) && Hung(c, offs, q, last, n - 1);
      LinkWithin(c, q, b, d);
      HungWithin(c, offs, q, last, d + 1, n - 1);
    }
  }

  lemma LinkWithin(c: Ctx, q: nat, b: nat, d: nat)
    requires Link(c, q, b) && RecWithin(c, b, d)
    requires RecAt(c.w, c.src, q).Some? ==> FitsHalf(c, q, RecAt(c.w, c.src, q).value)
    ensures RecWithin(c, q, d + 1)
  {
    hide RecAt, FitsHalf, OldWithin;
    var key := Key(c.w, Obj0(c, b).value);
    assert OnlyRec(c, key, b);
    assert Within(c, key, d);
  }

  // ---------- rows and places ----------

  /** Every row the run added is of a record the map says has landed. */
  ghost predicate Mapped(c: Ctx, s: State) {
    forall r | r in s.rows :: r in c.rows0 || exists off :: off in c.recs && IsCopy(c, off, r.key) && LandedAt(s, off)
  }

  lemma LandedKept(s: State, t: State, off: nat)
    requires LandedAt(s, off) && forall m | m in s.map_ && m.val.Landed? :: m in t.map_
    ensures LandedAt(t, off)
  {
  }

  lemma MappedSame(c: Ctx, s: State, t: State)
    requires Mapped(c, s) && t.rows == s.rows && forall m | m in s.map_ && m.val.Landed? :: m in t.map_
    ensures Mapped(c, t)
  {
    hide IsCopy, LandedAt;
    forall r | r in t.rows && r !in c.rows0
      ensures exists off :: off in c.recs && IsCopy(c, off, r.key) && LandedAt(t, off)
    {
      var off :| off in c.recs && IsCopy(c, off, r.key) && LandedAt(s, off);
      LandedKept(s, t, off);
    }
  }

  lemma MappedMore(c: Ctx, s: State, t: State, off: nat, r: Row)
    requires Mapped(c, s) && t.rows == s.rows + [r] && Grown(s, t)
    requires off in c.recs && IsCopy(c, off, r.key) && LandedAt(t, off)
    ensures Mapped(c, t)
  {
    hide IsCopy, LandedAt, LogsGrow;
    forall q | q in t.rows && q !in c.rows0 && q != r
      ensures exists off :: off in c.recs && IsCopy(c, off, q.key) && LandedAt(t, off)
    {
      var o :| o in c.recs && IsCopy(c, o, q.key) && LandedAt(s, o);
      LandedKept(s, t, o);
    }
  }

  lemma MappedStart(c: Ctx, s: State)
    requires s.rows == c.rows0
    ensures Mapped(c, s)
  {
  }

  /** A row of an object that comes once says that its record has landed. */
  lemma LoneLanded(c: Ctx, s: State, b: nat, r: Row)
    requires Mapped(c, s) && Lone(c, b) && r in s.rows && r.key == Key(c.w, Obj0(c, b).value)
    ensures LandedAt(s, b)
  {
    hide IsCopy, LandedAt;
    var off :| off in c.recs && IsCopy(c, off, r.key) && LandedAt(s, off);
  }

  /** What is over a record that has not landed has not landed either. */
  lemma OverUnlanded(c: Ctx, s: State, offs: seq<nat>, busy: int, q: nat, b: nat)
    requires Inv(c, s, offs, busy) && Mapped(c, s) && Link(c, q, b) && !LandedAt(s, b)
    ensures !LandedAt(s, q)
  {
    hide Mapped, WaitOk, WaitSorted, RecAt, Obj0, CanLand, HeaderAt, LogsGrow, IsCopy, InRows;
    if LandedAt(s, q) {
      var m :| m in s.map_ && m.key == q && m.val.Landed?;
      assert PlaceOk(c, s, busy, m);
      var o := Obj0(c, q).value;
      var r := Row(Key(c.w, o), o.typ, m.val.id, m.val.off);
      assert RowOk(c, s, r);
      var off :| Stored(c, s, r, off);
      var key := Key(c.w, Obj0(c, b).value);
      var x := BaseInRows(c, s, r, q, key);
      LoneLanded(c, s, b, x);
    }
  }

  /** The name a stored delta is over is in the rows. */
  lemma BaseInRows(c: Ctx, s: State, r: Row, off: nat, key: nat) returns (x: Row)
    requires Stored(c, s, r, off) && NamesIt(c, off, key)
    ensures x in s.rows && x.key == key
  {
    hide RecAt, Obj0, CanLand, HeaderAt, IsCopy;
    var h := HeaderAt(Loc(s.logs[r.id], r.off));
    if h.typ == OFS_DELTA && 0 < h.ofs <= r.off && exists b :: b in s.rows && IsAt(b, r.id, r.off - h.ofs, key) {
      x :| x in s.rows && IsAt(x, r.id, r.off - h.ofs, key);
    } else {
      var i :| 0 <= i < |s.rows| && Admits(s.rows[i], key);
      x := s.rows[i];
    }
  }

  // ---------- what lands how deep ----------

  /** What landed from `s` to `t` has no chain of `n` links over it. */
  ghost predicate Shallow(c: Ctx, offs: seq<nat>, s: State, t: State, n: nat) {
    forall q, last | LandedAt(t, q) && !LandedAt(s, q) :: !Hung(c, offs, q, last, n)
  }

  lemma ShallowRefl(c: Ctx, offs: seq<nat>, s: State, t: State, n: nat)
    requires forall m | m in t.map_ && m.val.Landed? :: m in s.map_
    ensures Shallow(c, offs, s, t, n)
  {
    hide Hung;
  }

  lemma ShallowTrans(c: Ctx, offs: seq<nat>, s: State, t: State, u: State, n: nat)
    requires Shallow(c, offs, s, t, n) && Shallow(c, offs, t, u, n)
    ensures Shallow(c, offs, s, u, n)
  {
    hide Hung, LandedAt;
  }

  /** A record landed, and then all that waited for it: a chain over it is at most one longer than theirs. */
  lemma ShallowLand(c: Ctx, offs: seq<nat>, offs': seq<nat>, s: State, t: State, u: State, busy: int, off: nat,
          key: nat, n: nat)
    requires Inv(c, s, offs, busy) && Mapped(c, s) && !LandedAt(s, off) && IsCopy(c, off, key)
    requires LandsOne(s, t, off) && offs <= offs' && n > 0 && Shallow(c, offs', t, u, n - 1)
    requires Inv(c, u, offs', -1) && !WaitsFor(u, key)
    ensures Shallow(c, offs, s, u, n)
  {
    hide Inv, Hung, LandedAt, Mapped, Obj0, WaitsFor;
    forall q, last | LandedAt(u, q) && !LandedAt(s, q)
      ensures !Hung(c, offs, q, last, n)
    {
      if Hung(c, offs, q, last, n) {
        if q == off {
          var p := FirstLink(c, offs, off, last, n);
          OverUnlanded(c, s, offs, busy, p, off);
          LinkWoken(c, u, offs', p, off, key);
          HungMore(c, offs, offs', p, last, n - 1);
        } else {
          var l := HungLess(c, offs, q, last, n);
          HungMore(c, offs, offs', q, l, n - 1);
        }
      }
    }
  }

  lemma FirstLink(c: Ctx, offs: seq<nat>, b: nat, last: nat, n: nat) returns (q: nat)
    requires n > 0 && Hung(c, offs, b, last, n)
    ensures q in offs && Link(c, q, b) && Hung(c, offs, q, last, n - 1)
  {
    hide Link;
    q :| q in offs && Link(c, q, b) && Hung(c, offs, q, last, n - 1);
  }

  /** A record that names `b`'s object has landed, or waits for it. */
  lemma LinkWoken(c: Ctx, s: State, offs: seq<nat>, q: nat, b: nat, key: nat)
    requires Inv(c, s, offs, -1) && q in offs && Link(c, q, b) && IsCopy(c, b, key)
    ensures LandedAt(s, q) || WaitsFor(s, key)
  {
    hide RowsOk, WaitSorted, RecAt, Obj0, HeldUnder, Lone, CanLand;
    var i := MapHas(c, s, offs, -1, q);
    if s.map_[i].val.Held? {
      var slot := s.map_[i].val.slot;
      assert WaitRow(s.holds[slot].key, slot) in s.wait;
      assert WaitOk(c, s, -1, WaitRow(s.holds[slot].key, slot));
    }
  }

  /** What is about to land is not in the map as landed. */
  lemma Unlanded(c: Ctx, s: State, offs: seq<nat>, busy: int, rec: Rec)
    requires Good(c) && Inv(c, s, offs, busy) && -1 <= busy
    requires busy == -1 ==> |offs| < |c.recs| && rec.off == c.recs[|offs|]
    requires busy != -1 ==> WokenOk(c, s, offs, busy) && s.holds[busy].rec == rec
    ensures !LandedAt(s, rec.off)
  {
    hide Good, Inv, WokenOk;
    if busy == -1 {
      NotMapped(c, s, offs, busy);
    } else {
      BusyOnlyWoken(c, s, offs, busy, rec.off);
    }
  }

  lemma GrownLanded(s: State, t: State, off: nat)
    requires LandedAt(s, off) && Grown(s, t)
    ensures LandedAt(t, off)
  {
    hide LogsGrow;
    LandedKept(s, t, off);
  }

  /** Only the map counts. */
  lemma ShallowShows(c: Ctx, offs: seq<nat>, s: State, s': State, t: State, n: nat)
    requires Shallow(c, offs, s', t, n) && s'.map_ == s.map_
    ensures Shallow(c, offs, s, t, n)
  {
    hide Hung;
    assert forall q :: LandedAt(s, q) <==> LandedAt(s', q);
  }

  /** The next record has landed, so no 256 links hung over it. */
  lemma NotOverhung(c: Ctx, s: State, t: State, offs: seq<nat>, rec: Rec)
    requires Good(c) && Inv(c, s, offs, -1) && |offs| < |c.recs| && rec.off == c.recs[|offs|]
    requires Some(rec) == RecAt(c.w, c.src, rec.off) && Shallow(c, offs, s, t, CHAIN_MAX)
    requires !IsDelta(rec.typ) ==> LandedAt(t, rec.off)
    ensures !Overhung(c, |offs|)
  {
    hide Good, Inv, Hung, RecAt, LandedAt;
    Unlanded(c, s, offs, -1, rec);
    InvOffs(c, s, offs);
    assert c.recs[..|offs|] == offs;
  }
}
