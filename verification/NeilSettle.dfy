/** How many passes sliding takes: after the first, changes slide to the right only, and a pass can unsettle only what
  * is left of what the pass before unsettled; what starts over is a kept run that is used up. */
module NeilSettle {
  import opened Common
  import opened Script
  import opened EditLists
  import opened EditCanon
  import opened NeilTokens
  import opened NeilCanon
  import opened NeilCleanup
  import opened NeilShift

  // ---------- one region, before and after ----------

  /** `r` slid by `d`, its first run perhaps cut short at the start. */
  ghost predicate Moved(r: Region, s: Region, d: int) {
    && s.oi + s.n1 == r.oi + r.n1 + d && s.ni + s.n1 == r.ni + r.n1 + d && s.n1 <= r.n1 + d
    && s.del == r.del && s.ins == r.ins
  }

  lemma MovedMayLeft(a: Toks, b: Toks, r: Region, s: Region, d: int, j: nat)
    requires Moved(r, s, d) && MayMoveLeft(a, b, s, j) && j >= d && (d < 0 ==> MayMoveLeft(a, b, r, 0))
    ensures MayMoveLeft(a, b, r, j - d)
  {
    hide IsIdent, TextAt;
  }

  lemma MovedMayRight(a: Toks, b: Toks, r: Region, s: Region, d: int, j: nat)
    requires Moved(r, s, d) && s.n2 <= r.n2 - d && MayMoveRight(a, b, s, j) && j + d >= 0
    ensures MayMoveRight(a, b, r, j + d)
  {
    hide IsIdent, TextAt;
  }

  lemma MovedLeftRoom(a: Toks, b: Toks, r: Region, s: Region, d: int)
    requires Moved(r, s, d) && -(LeftRoom(a, b, r) as int) <= d
    ensures LeftRoom(a, b, s) <= LeftRoom(a, b, r) + d
  {
    hide LeftRoom, RightRoom, MayMoveLeft, MayMoveRight, Moved;
    RoomIsAll(a, b, r);
    RoomIsAll(a, b, s);
    var j: nat := LeftRoom(a, b, r) + d;
    if j < LeftRoom(a, b, s) {
      MovedMayLeft(a, b, r, s, d, j);
    }
  }

  lemma MovedRightRoom(a: Toks, b: Toks, r: Region, s: Region, d: int)
    requires Moved(r, s, d) && d <= RightRoom(a, b, r) && s.n2 <= r.n2 - d
    ensures RightRoom(a, b, s) <= RightRoom(a, b, r) - d
  {
    hide LeftRoom, RightRoom, MayMoveLeft, MayMoveRight, Moved;
    RoomIsAll(a, b, r);
    RoomIsAll(a, b, s);
    var j: nat := RightRoom(a, b, r) - d;
    if j < RightRoom(a, b, s) {
      MovedMayRight(a, b, r, s, d, j);
    }
  }

  lemma MovedScore(a: Toks, b: Toks, r: Region, s: Region, d: int, y: int)
    requires Moved(r, s, d)
    ensures ShiftScore(a, b, s.oi + s.n1, s.ni + s.n1, s.del, s.ins, y)
         == ShiftScore(a, b, r.oi + r.n1, r.ni + r.n1, r.del, r.ins, d + y)
  {
    hide BoundaryScore;
  }

  /** A change at its best place never slides left again, and only slides right if the run behind it grew. */
  lemma BestStays(a: Toks, b: Toks, r: Region, s: Region)
    requires Moved(r, s, BestShift(a, b, r))
    ensures BestShift(a, b, s) >= 0
    ensures s.n2 <= r.n2 - BestShift(a, b, r) ==> BestShift(a, b, s) == 0
  {
    hide LeftRoom, RightRoom, ShiftScore, BestFrom;
    var d := BestShift(a, b, r);
    if r.del + r.ins > 0 {
      hide BestShift;
      var y := BestShift(a, b, s);
      BestShiftBeats(a, b, r);
      BestShiftBeats(a, b, s);
      MovedLeftRoom(a, b, r, s, d);
      MovedScore(a, b, r, s, d, 0);
      MovedScore(a, b, r, s, d, y);
      if s.n2 <= r.n2 - d {
        MovedRightRoom(a, b, r, s, d);
      }
      var x, z := Beats(a, b, r, d, d + y), Beats(a, b, s, y, 0);
    }
  }

  /** With less of the run before it, a change that does not slide left slides as far as before. */
  lemma BestShrinks(a: Toks, b: Toks, r: Region, s: Region)
    requires Moved(r, s, 0) && s.n2 == r.n2 && BestShift(a, b, r) >= 0
    ensures BestShift(a, b, s) == BestShift(a, b, r)
  {
    hide LeftRoom, ShiftScore, BestFrom, MaxRight, CapRight;
    if r.del + r.ins > 0 {
      hide BestShift;
      var d, y := BestShift(a, b, r), BestShift(a, b, s);
      BestShiftBeats(a, b, r);
      BestShiftBeats(a, b, s);
      MovedLeftRoom(a, b, r, s, 0);
      assert RightRoom(a, b, s) == RightRoom(a, b, r);
      MovedScore(a, b, r, s, 0, d);
      MovedScore(a, b, r, s, 0, y);
      assert Beats(a, b, r, d, y) && Beats(a, b, s, y, d);
    }
  }

  // ---------- the regions of a list ----------

  /** From entry `k` on, no region would slide left. */
  ghost predicate NoLeft(e: seq<Edit>, k: nat, a: Toks, b: Toks) {
    forall i: nat, ce: nat | k <= i && IsRegion(e, i, ce) :: BestShift(a, b, RegionOf(e, i, ce)) >= 0
  }

  /** From entries `k` and `from` on, no region would slide. */
  ghost predicate Settled(e: seq<Edit>, k: nat, from: int, a: Toks, b: Toks) {
    forall i: nat, ce: nat | k <= i && from <= i && IsRegion(e, i, ce) :: BestShift(a, b, RegionOf(e, i, ce)) == 0
  }

  /** The same entries but for the lengths of kept runs. */
  ghost predicate SameShape(e: seq<Edit>, f: seq<Edit>) {
    |e| == |f| && forall j | 0 <= j < |e| :: e[j].op == f[j].op && (e[j].op != EQ ==> e[j] == f[j])
  }

  lemma {:induction false} PassShape(e: seq<Edit>, k: nat, a: Toks, b: Toks)
    requires k <= |e|
    ensures SameShape(e, PassFrom(e, k, a, b))
    decreases |e| - k
  {
    hide BestShift;
    if k < |e| {
      if !StartsGap(e, k) {
        PassShape(e, k + 1, a, b);
      } else {
        var ce := GapEnd(e, k + 1);
        GapIsRegion(e, k);
        if ce < |e| {
          PassShape(Slid(e, k, ce, BestShift(a, b, RegionOf(e, k, ce))), ce, a, b);
        }
      }
    }
  }

  lemma {:induction false} GapChanges(e: seq<Edit>, cs: nat)
    requires cs <= |e|
    ensures AllChanges(e[cs..GapEnd(e, cs)]) && (GapEnd(e, cs) < |e| ==> e[GapEnd(e, cs)].op == EQ)
    decreases |e| - cs
  {
    if cs < |e| && e[cs].op != EQ {
      GapChanges(e, cs + 1);
      var ce := GapEnd(e, cs);
      assert e[cs..ce] == [e[cs]] + e[cs + 1..ce];
    }
  }

  lemma GapIsRegion(e: seq<Edit>, k: nat)
    requires StartsGap(e, k)
    ensures var ce := GapEnd(e, k + 1);
      k + 1 < ce && AllChanges(e[k + 1..ce]) && (ce < |e| ==> IsRegion(e, k, ce))
  {
    hide AllChanges;
    GapChanges(e, k + 1);
  }

  lemma ShapeRegion(e: seq<Edit>, f: seq<Edit>, k: nat, ce: nat)
    requires SameShape(e, f) && IsRegion(f, k, ce)
    ensures IsRegion(e, k, ce) && e[k + 1..ce] == f[k + 1..ce]
  {
    var x, y := e[k + 1..ce], f[k + 1..ce];
    forall j | 0 <= j < |x|
      ensures x[j] == y[j] && x[j].op != EQ
    {
      ChangesAt(f, k + 1, ce, k + 1 + j);
    }
  }

  /** A region after its own slide and whatever happened behind it. */
  lemma RegionAfter(e: seq<Edit>, f: seq<Edit>, k: nat, ce: nat, d: int)
    requires IsRegion(e, k, ce) && -(e[k].len as int) <= d <= e[ce].len && |f| == |e|
    requires f[..ce] == Slid(e, k, ce, d)[..ce]
    ensures var r := RegionOf(e, k, ce);
      RegionOf(f, k, ce) == Region(r.oi, r.ni, r.n1 + d, r.del, r.ins, f[ce].len)
  {
    hide Olds, News, AllChanges;
    var s := Slid(e, k, ce, d);
    assert f[..k] == f[..ce][..k] == s[..ce][..k] == e[..k];
    assert f[k] == f[..ce][k] == s[k];
    assert f[k + 1..ce] == f[..ce][k + 1..] == s[..ce][k + 1..] == e[k + 1..ce];
  }

  /** The regions behind a slide: the next one's first run lost or gained `d`, the others are as they were. */
  lemma RegionsBehind(e: seq<Edit>, k: nat, ce: nat, d: int, i: nat, cf: nat)
    requires IsRegion(e, k, ce) && -(e[k].len as int) <= d <= e[ce].len && ce <= i && IsRegion(Slid(e, k, ce, d), i, cf)
    ensures IsRegion(e, i, cf)
    ensures var r, s := RegionOf(e, i, cf), RegionOf(Slid(e, k, ce, d), i, cf);
      if i > ce then s == r
      else s.oi == r.oi + d && s.ni == r.ni + d && s.n1 == r.n1 - d && s.del == r.del && s.ins == r.ins && s.n2 == r.n2
  {
    hide AllChanges;
    var s := Slid(e, k, ce, d);
    assert SameShape(e, s);
    ShapeRegion(e, s, i, cf);
    SlidTotals(e, k, ce, d);
    if i > ce {
      assert s[..i] == s[..ce + 1] + e[ce + 1..i] && e[..i] == e[..ce + 1] + e[ce + 1..i];
      TotalsConcat(s[..ce + 1], e[ce + 1..i]);
      TotalsConcat(e[..ce + 1], e[ce + 1..i]);
    }
  }

  lemma SlidTotals(e: seq<Edit>, k: nat, ce: nat, d: int)
    requires IsRegion(e, k, ce) && -(e[k].len as int) <= d <= e[ce].len
    ensures var s := Slid(e, k, ce, d);
      && Olds(s[..ce]) == Olds(e[..ce]) + d && News(s[..ce]) == News(e[..ce]) + d
      && Olds(s[..ce + 1]) == Olds(e[..ce + 1]) && News(s[..ce + 1]) == News(e[..ce + 1])
  {
    hide Olds, News, AllChanges;
    var s := Slid(e, k, ce, d);
    PastGap(e, k, ce);
    PastGap(s, k, ce);
    assert s[..k] == e[..k] && s[k + 1..ce] == e[k + 1..ce];
    PairsOne(e[k], 0, 0);
    PairsOne(s[k], 0, 0);
    PairsOne(e[ce], 0, 0);
    PairsOne(s[ce], 0, 0);
    assert s[..ce + 1] == s[..ce] + [s[ce]] && e[..ce + 1] == e[..ce] + [e[ce]];
    TotalsConcat(s[..ce], [s[ce]]);
    TotalsConcat(e[..ce], [e[ce]]);
  }

  // ---------- one pass ----------

  lemma RegionStarts(e: seq<Edit>, k: nat, ce: nat)
    requires IsRegion(e, k, ce)
    ensures StartsGap(e, k) && GapEnd(e, k + 1) == ce
  {
    ChangesAt(e, k + 1, ce, k + 1);
    GapEndIs(e, k + 1, ce);
  }

  lemma NoRegionPast(e: seq<Edit>, k: nat, i: nat, cf: nat)
    requires StartsGap(e, k) && GapEnd(e, k + 1) == |e| && k <= i
    ensures !IsRegion(e, i, cf)
  {
    hide AllChanges;
    GapIsRegion(e, k);
    if k < i < |e| {
      ChangesAt(e, k + 1, |e|, i);
    } else if i == k < cf < |e| && k + 1 < cf {
      ChangesAt(e, k + 1, |e|, cf);
    }
  }

  /** What a pass leaves behind no region would slide to the left. */
  lemma {:induction false} PassNoLeft(e: seq<Edit>, k: nat, a: Toks, b: Toks)
    requires k <= |e|
    ensures NoLeft(PassFrom(e, k, a, b), k, a, b)
    decreases |e| - k
  {
    hide PassFrom, BestShift, RegionOf, IsRegion, GapEnd, StartsGap, NoLeft;
    var f := PassFrom(e, k, a, b);
    PassShape(e, k, a, b);
    PassOn(e, k, a, b);
    if k == |e| {
      NoneLeft(f, k, a, b);
    } else if !StartsGap(e, k) {
      PassNoLeft(e, k + 1, a, b);
      NoLeftSkip(e, f, k, a, b);
    } else {
      GapIsRegion(e, k);
      var ce := GapEnd(e, k + 1);
      if ce == |e| {
        NoLeftPast(e, k, a, b);
      } else {
        SlideFits(e, k, ce, a, b);
        PassNoLeft(Slid(e, k, ce, BestShift(a, b, RegionOf(e, k, ce))), ce, a, b);
        NoLeftRegion(e, f, k, ce, a, b);
      }
    }
  }

  lemma SlideFits(e: seq<Edit>, k: nat, ce: nat, a: Toks, b: Toks)
    requires IsRegion(e, k, ce)
    ensures k < ce < |e| && -(e[k].len as int) <= BestShift(a, b, RegionOf(e, k, ce)) <= e[ce].len
  {
    hide BestShift;
  }

  /** How a pass goes on from entry `k`. */
  lemma PassOn(e: seq<Edit>, k: nat, a: Toks, b: Toks)
    requires k <= |e|
    ensures k == |e| ==> PassFrom(e, k, a, b) == e
    ensures k < |e| && !StartsGap(e, k) ==> PassFrom(e, k, a, b) == PassFrom(e, k + 1, a, b)
    ensures k < |e| && StartsGap(e, k) && GapEnd(e, k + 1) == |e| ==> PassFrom(e, k, a, b) == e
    ensures k < |e| && StartsGap(e, k) && GapEnd(e, k + 1) < |e| ==>
      var ce := GapEnd(e, k + 1);
      IsRegion(e, k, ce)
      && PassFrom(e, k, a, b) == PassFrom(Slid(e, k, ce, BestShift(a, b, RegionOf(e, k, ce))), ce, a, b)
  {
    hide BestShift, GapEnd, StartsGap, AllChanges;
    if k < |e| && StartsGap(e, k) {
      GapIsRegion(e, k);
    }
  }

  lemma NoneLeft(f: seq<Edit>, k: nat, a: Toks, b: Toks)
    requires k == |f|
    ensures NoLeft(f, k, a, b)
  {
  }

  lemma NoLeftSkip(e: seq<Edit>, f: seq<Edit>, k: nat, a: Toks, b: Toks)
    requires SameShape(e, f) && !StartsGap(e, k) && NoLeft(f, k + 1, a, b)
    ensures NoLeft(f, k, a, b)
  {
    hide BestShift, RegionOf, IsRegion, StartsGap, SameShape;
    forall i: nat, ce: nat | k <= i && IsRegion(f, i, ce)
      ensures RegionIn(f, i, ce) && BestShift(a, b, RegionOf(f, i, ce)) >= 0
    {
      RegionBoundsOnly(f, i, ce);
      ShapeRegion(e, f, i, ce);
      RegionStarts(e, i, ce);
    }
  }

  lemma NoLeftPast(e: seq<Edit>, k: nat, a: Toks, b: Toks)
    requires StartsGap(e, k) && GapEnd(e, k + 1) == |e|
    ensures NoLeft(e, k, a, b)
  {
    hide BestShift, RegionOf, IsRegion, StartsGap, GapEnd;
    forall i: nat, ce: nat | k <= i
      ensures !IsRegion(e, i, ce)
    {
      NoRegionPast(e, k, i, ce);
    }
  }

  lemma NoLeftRegion(e: seq<Edit>, f: seq<Edit>, k: nat, ce: nat, a: Toks, b: Toks)
    requires IsRegion(e, k, ce) && SameShape(e, f) && |f| == |e| && NoLeft(f, ce, a, b)
    requires var d := BestShift(a, b, RegionOf(e, k, ce));
      -(e[k].len as int) <= d <= e[ce].len && f[..ce] == Slid(e, k, ce, d)[..ce]
    ensures NoLeft(f, k, a, b)
  {
    hide BestShift, RegionOf, IsRegion, SameShape, Slid;
    forall i: nat, cf: nat | k <= i && IsRegion(f, i, cf)
      ensures RegionIn(f, i, cf) && BestShift(a, b, RegionOf(f, i, cf)) >= 0
    {
      RegionBoundsOnly(f, i, cf);
      if i < ce {
        ShapeRegion(e, f, i, cf);
        OneRegion(e, k, ce, i, cf);
        RegionAfter(e, f, k, ce, BestShift(a, b, RegionOf(e, k, ce)));
        BestStays(a, b, RegionOf(e, k, ce), RegionOf(f, k, ce));
      }
    }
  }

  // ---------- the pass after it ----------

  /** A slide to the right leaves all behind it as eager to slide as it was. */
  lemma BehindSlide(e: seq<Edit>, k: nat, ce: nat, from: int, a: Toks, b: Toks)
    requires IsRegion(e, k, ce) && NoLeft(e, k, a, b) && Settled(e, k, from, a, b)
    ensures var d := BestShift(a, b, RegionOf(e, k, ce));
      && 0 <= d <= e[ce].len
      && var s := Slid(e, k, ce, d);
      NoLeft(s, ce, a, b) && Settled(s, ce, from, a, b)
  {
    hide BestShift, RegionOf, IsRegion, Slid;
    SlideFits(e, k, ce, a, b);
    var d := BestShift(a, b, RegionOf(e, k, ce));
    var s := Slid(e, k, ce, d);
    forall i: nat, cf: nat | ce <= i && IsRegion(s, i, cf)
      ensures RegionIn(s, i, cf) && IsRegion(e, i, cf)
      ensures RegionIn(e, i, cf) && BestShift(a, b, RegionOf(s, i, cf)) == BestShift(a, b, RegionOf(e, i, cf))
    {
      RegionBoundsOnly(s, i, cf);
      RegionsBehind(e, k, ce, d, i, cf);
      RegionBoundsOnly(e, i, cf);
      BestShrinks(a, b, RegionOf(e, i, cf), RegionOf(s, i, cf));
    }
  }

  /** A pass leaves a settled kept run alone. */
  lemma PassQuiet(e: seq<Edit>, k: nat, from: int, a: Toks, b: Toks)
    requires k < |e| && from <= k && Settled(e, k, from, a, b)
    ensures PassFrom(e, k, a, b)[k] == e[k]
  {
    hide PassFrom, BestShift, RegionOf, IsRegion, GapEnd, StartsGap, AllChanges;
    var f := PassFrom(e, k, a, b);
    PassOn(e, k, a, b);
    if !StartsGap(e, k) {
      assert f[..k + 1] == e[..k + 1];
      assert f[k] == f[..k + 1][k];
    } else if GapEnd(e, k + 1) < |e| {
      var ce := GapEnd(e, k + 1);
      SlidNone(e, k, ce);
      assert k < ce && f[..ce] == e[..ce];
      assert f[k] == f[..ce][k];
    }
  }

  lemma SlidNone(e: seq<Edit>, k: nat, ce: nat)
    requires IsRegion(e, k, ce)
    ensures k < ce < |e| && Slid(e, k, ce, 0) == e
  {
    hide AllChanges;
    SlidZero(e, k, ce, 0);
  }

  /** One pass over a list no region of which would slide left settles two more entries. */
  lemma {:induction false} PassSettles(e: seq<Edit>, k: nat, from: int, a: Toks, b: Toks)
    requires k <= |e| && NoLeft(e, k, a, b) && Settled(e, k, from, a, b)
    ensures Settled(PassFrom(e, k, a, b), k, from - 2, a, b)
    decreases |e| - k
  {
    hide PassFrom, BestShift, RegionOf, IsRegion, GapEnd, StartsGap, NoLeft, Settled, Slid;
    var f := PassFrom(e, k, a, b);
    PassShape(e, k, a, b);
    PassOn(e, k, a, b);
    if k == |e| {
      NoneSettled(f, k, from - 2, a, b);
    } else if !StartsGap(e, k) {
      LaterOnly(e, k, from, a, b);
      PassSettles(e, k + 1, from, a, b);
      SettledSkip(e, f, k, from - 2, a, b);
    } else {
      var ce := GapEnd(e, k + 1);
      if ce == |e| {
        SettledPast(e, k, from - 2, a, b);
      } else {
        BehindSlide(e, k, ce, from, a, b);
        var s := Slid(e, k, ce, BestShift(a, b, RegionOf(e, k, ce)));
        PassSettles(s, ce, from, a, b);
        if from <= ce {
          PassQuiet(s, ce, from, a, b);
        }
        SlidEnd(e, k, ce, BestShift(a, b, RegionOf(e, k, ce)));
        SettledRegion(e, f, k, ce, from, a, b);
      }
    }
  }

  lemma SlidEnd(e: seq<Edit>, k: nat, ce: nat, d: int)
    requires k < ce < |e| && -(e[k].len as int) <= d <= e[ce].len
    ensures Slid(e, k, ce, d)[ce].len == e[ce].len - d
  {
  }

  lemma NoneSettled(f: seq<Edit>, k: nat, from: int, a: Toks, b: Toks)
    requires k == |f|
    ensures Settled(f, k, from, a, b)
  {
  }

  lemma LaterOnly(e: seq<Edit>, k: nat, from: int, a: Toks, b: Toks)
    requires NoLeft(e, k, a, b) && Settled(e, k, from, a, b)
    ensures NoLeft(e, k + 1, a, b) && Settled(e, k + 1, from, a, b)
  {
    hide BestShift, RegionOf;
  }

  lemma SettledSkip(e: seq<Edit>, f: seq<Edit>, k: nat, from: int, a: Toks, b: Toks)
    requires SameShape(e, f) && !StartsGap(e, k) && Settled(f, k + 1, from, a, b)
    ensures Settled(f, k, from, a, b)
  {
    hide BestShift, RegionOf, IsRegion, StartsGap, SameShape;
    forall i: nat, ce: nat | k <= i && from <= i && IsRegion(f, i, ce)
      ensures RegionIn(f, i, ce) && BestShift(a, b, RegionOf(f, i, ce)) == 0
    {
      RegionBoundsOnly(f, i, ce);
      ShapeRegion(e, f, i, ce);
      RegionStarts(e, i, ce);
    }
  }

  lemma SettledPast(e: seq<Edit>, k: nat, from: int, a: Toks, b: Toks)
    requires StartsGap(e, k) && GapEnd(e, k + 1) == |e|
    ensures Settled(e, k, from, a, b)
  {
    hide BestShift, RegionOf, IsRegion, StartsGap, GapEnd;
    forall i: nat, ce: nat | k <= i
      ensures !IsRegion(e, i, ce)
    {
      NoRegionPast(e, k, i, ce);
    }
  }

  lemma SettledRegion(e: seq<Edit>, f: seq<Edit>, k: nat, ce: nat, from: int, a: Toks, b: Toks)
    requires IsRegion(e, k, ce) && SameShape(e, f) && |f| == |e| && Settled(f, ce, from - 2, a, b)
    requires var d := BestShift(a, b, RegionOf(e, k, ce));
      && -(e[k].len as int) <= d <= e[ce].len && f[..ce] == Slid(e, k, ce, d)[..ce]
      && (from <= ce ==> f[ce].len == e[ce].len - d)
    ensures Settled(f, k, from - 2, a, b)
  {
    hide BestShift, RegionOf, IsRegion, SameShape, Slid;
    forall i: nat, cf: nat | k <= i && from - 2 <= i && IsRegion(f, i, cf)
      ensures RegionIn(f, i, cf) && BestShift(a, b, RegionOf(f, i, cf)) == 0
    {
      RegionBoundsOnly(f, i, cf);
      if i < ce {
        ShapeRegion(e, f, i, cf);
        OneRegion(e, k, ce, i, cf);
        RegionWide(e, k, ce);
        RegionAfter(e, f, k, ce, BestShift(a, b, RegionOf(e, k, ce)));
        BestStays(a, b, RegionOf(e, k, ce), RegionOf(f, k, ce));
      }
    }
  }

  lemma RegionWide(e: seq<Edit>, k: nat, ce: nat)
    requires IsRegion(e, k, ce)
    ensures k + 2 <= ce < |e| && RegionOf(e, k, ce).n1 == e[k].len && RegionOf(e, k, ce).n2 == e[ce].len
  {
  }

  // ---------- all passes ----------

  /** A list that is settled from the start stays as it is. */
  lemma {:induction false} PassStill(e: seq<Edit>, k: nat, from: int, a: Toks, b: Toks)
    requires k <= |e| && from <= 0 && Settled(e, k, from, a, b)
    ensures PassFrom(e, k, a, b) == e
    decreases |e| - k
  {
    hide PassFrom, BestShift, RegionOf, IsRegion, GapEnd, StartsGap;
    PassOn(e, k, a, b);
    if k < |e| {
      if !StartsGap(e, k) {
        PassStill(e, k + 1, from, a, b);
      } else {
        var ce := GapEnd(e, k + 1);
        if ce < |e| {
          SlidNone(e, k, ce);
          PassStill(e, ce, from, a, b);
        }
      }
    }
  }

  /** A normal form that is no shorter has lost no entry, */
  lemma {:induction false} CanonLens(e: seq<Edit>)
    requires |Canon(e)| == |e|
    ensures forall k | 0 <= k < |e| :: e[k].len > 0
    decreases |e|
  {
    hide Normal;
    if e != [] {
      CanonNormal(e[1..]);
      CanonLens(e[1..]);
      assert forall k | 0 < k < |e| :: e[k] == e[1..][k - 1];
    }
  }

  /** and is the list itself if that has the shape of a normal one. */
  lemma CanonSame(e: seq<Edit>, f: seq<Edit>)
    requires Normal(e) && SameShape(e, f) && |Canon(f)| == |f|
    ensures Canon(f) == f
  {
    hide Canon;
    CanonLens(f);
    assert Normal(f);
    CanonFixed(f);
  }

  lemma NoLeftCanon(e: seq<Edit>, a: Toks, b: Toks)
    requires NoLeft(e, 0, a, b) && |Canon(e)| == |e|
    ensures NoLeft(Canon(e), 0, a, b)
  {
    hide BestShift, RegionOf, IsRegion, Twin, Canon;
    var f := Canon(e);
    CanonTwin(e);
    forall i: nat, ce: nat | IsRegion(f, i, ce)
      ensures RegionIn(f, i, ce) && BestShift(a, b, RegionOf(f, i, ce)) >= 0
    {
      RegionBoundsOnly(f, i, ce);
      TwinRegion(e, f, i, ce);
    }
  }

  lemma {:induction false} ShiftLen(e: seq<Edit>, left: nat, a: Toks, b: Toks)
    ensures |ShiftFrom(e, left, a, b).0| <= |e|
    decreases left
  {
    hide PassFrom, Canon, Normal;
    if left > 0 {
      var f := PassFrom(e, 0, a, b);
      CanonNormal(f);
      ShiftLen(Canon(f), left - 1, a, b);
    }
  }

  /** One pass and its normal form, none shorter: two more entries are settled. */
  lemma PassAndCanon(e: seq<Edit>, from: int, a: Toks, b: Toks)
    requires Normal(e) && NoLeft(e, 0, a, b) && Settled(e, 0, from, a, b)
    ensures var f := PassFrom(e, 0, a, b);
      && (from <= 0 ==> f == e && |Canon(f)| == |e|)
      && (|Canon(f)| == |e| ==> Canon(f) == f && NoLeft(f, 0, a, b) && Settled(f, 0, from - 2, a, b))
  {
    hide PassFrom, Canon, NoLeft, Settled, Normal, SameShape;
    var f := PassFrom(e, 0, a, b);
    PassShape(e, 0, a, b);
    PassNoLeft(e, 0, a, b);
    PassSettles(e, 0, from, a, b);
    if from <= 0 {
      PassStill(e, 0, from, a, b);
      CanonFixed(e);
    }
    if |Canon(f)| == |e| {
      CanonSame(e, f);
    }
  }

  lemma {:induction false} SettlesFrom(e: seq<Edit>, from: int, left: nat, a: Toks, b: Toks)
    requires Normal(e) && NoLeft(e, 0, a, b) && Settled(e, 0, from, a, b) && left > 0 && from <= 2 * (left - 1)
    ensures ShiftFrom(e, left, a, b).1 || |ShiftFrom(e, left, a, b).0| < |e|
    decreases left
  {
    hide PassFrom, Canon, NoLeft, Settled, Normal;
    var f := PassFrom(e, 0, a, b);
    PassAndCanon(e, from, a, b);
    CanonNormal(f);
    if |Canon(f)| < |e| {
      ShiftLen(Canon(f), left - 1, a, b);
    } else if f != e {
      SettlesFrom(f, from - 2, left - 1, a, b);
    }
  }

  /** The first pass, and what it leaves. */
  lemma FirstPass(e: seq<Edit>, a: Toks, b: Toks)
    ensures var g := Canon(PassFrom(e, 0, a, b));
      |g| <= |e| && Normal(g) && (|g| == |e| ==> NoLeft(g, 0, a, b) && Settled(g, 0, |g|, a, b))
  {
    hide PassFrom, Canon, NoLeft, Normal;
    var f := PassFrom(e, 0, a, b);
    CanonNormal(f);
    if |Canon(f)| == |e| {
      PassNoLeft(e, 0, a, b);
      NoLeftCanon(f, a, b);
      AllSettled(Canon(f), a, b);
    }
  }

  lemma AllSettled(e: seq<Edit>, a: Toks, b: Toks)
    ensures Settled(e, 0, |e|, a, b)
  {
    hide BestShift, RegionOf;
  }

  /** With half as many passes as entries, and two more, sliding leaves through its fixed-point test, unless some kept
    * run was used up on the way. */
  lemma ShiftSettles(e: seq<Edit>, left: nat, a: Toks, b: Toks)
    requires |e| + 4 <= 2 * left
    ensures ShiftFrom(e, left, a, b).1 || |ShiftFrom(e, left, a, b).0| < |e|
  {
    hide PassFrom, Canon, NoLeft, Settled, Normal;
    var g := Canon(PassFrom(e, 0, a, b));
    FirstPass(e, a, b);
    if |g| < |e| {
      ShiftLen(g, left - 1, a, b);
    } else {
      SettlesFrom(g, |g|, left - 1, a, b);
    }
  }

  /** Passes that are enough whatever happens on the way. */
  function Enough(n: nat): nat {
    (n + 1) * (n + 4)
  }

  lemma EnoughMore(m: nat, n: nat)
    requires m < n
    ensures Enough(m) + n + n + 2 < Enough(n)
  {
    assert Enough(n - 1) == n * (n + 3) && (n + 1) * (n + 4) == n * (n + 3) + n + n + 4;
    assert (m + 1) * (m + 4) <= n * (n + 3) by {
      assert (m + 1) * (m + 4) <= n * (m + 4) <= n * (n + 3);
    }
  }

  lemma {:induction false} ReachesFrom(e: seq<Edit>, from: int, left: nat, a: Toks, b: Toks)
    requires Normal(e) && NoLeft(e, 0, a, b) && Settled(e, 0, from, a, b)
    requires left > 0 && left > from && forall m: nat | m < |e| :: left > Enough(m) + from
    ensures ShiftFrom(e, left, a, b).1
    decreases left
  {
    hide PassFrom, Canon, NoLeft, Settled, Normal, Enough;
    var f := PassFrom(e, 0, a, b);
    PassAndCanon(e, from, a, b);
    CanonNormal(f);
    if |Canon(f)| < |e| {
      ShiftReaches(Canon(f), left - 1, a, b);
    } else if f != e {
      ReachesFrom(f, from - 2, left - 1, a, b);
    }
  }

  /** With a square of the entries for a number of passes, sliding always leaves through its fixed-point test. */
  lemma {:induction false} ShiftReaches(e: seq<Edit>, left: nat, a: Toks, b: Toks)
    requires left >= Enough(|e|)
    ensures ShiftFrom(e, left, a, b).1
    decreases left
  {
    hide PassFrom, Canon, NoLeft, Settled, Normal;
    var g := Canon(PassFrom(e, 0, a, b));
    FirstPass(e, a, b);
    forall m: nat | m < |e|
      ensures Enough(m) + |e| + |e| + 2 < Enough(|e|)
    {
      EnoughMore(m, |e|);
    }
    assert Enough(|e|) >= 4 + |e| by {
      assert (|e| + 1) * (|e| + 4) >= |e| + 4;
    }
    if |g| < |e| {
      ShiftReaches(g, left - 1, a, b);
    } else {
      ReachesFrom(g, |g|, left - 1, a, b);
    }
  }

  // ---------- kept runs that are never used up ----------

  /** The `k`-th entry, if kept, holds an identifier. */
  ghost predicate Held(a: Toks, e: seq<Edit>, k: nat)
    requires k < |e|
  {
    e[k].op == EQ ==> exists i :: Olds(e[..k]) <= i < Olds(e[..k]) + e[k].len && IsIdent(a, i)
  }

  ghost predicate Anchored(a: Toks, e: seq<Edit>) {
    forall k | 0 <= k < |e| :: Held(a, e, k)
  }

  /** A slide takes no identifier out of the runs on its two sides. */
  lemma SlidHeld(a: Toks, b: Toks, e: seq<Edit>, k: nat, ce: nat, j: nat)
    requires IsRegion(e, k, ce) && j < |e| && Held(a, e, j)
    ensures var d := BestShift(a, b, RegionOf(e, k, ce));
      && -(e[k].len as int) <= d <= e[ce].len
      && Held(a, Slid(e, k, ce, d), j)
  {
    hide IsIdent, Olds, News, AllChanges, BestShift, AllForthEq, AllBackEq, AllForthPlain, AllBackPlain;
    var r := RegionOf(e, k, ce);
    var d := BestShift(a, b, r);
    BestShiftSafe(a, b, r);
    var s := Slid(e, k, ce, d);
    SlidTotals(e, k, ce, d);
    if e[j].op == EQ && (j <= k || ce <= j) {
      var i :| Olds(e[..j]) <= i < Olds(e[..j]) + e[j].len && IsIdent(a, i);
      if j < k {
        assert s[..j] == e[..j];
      } else if j == k {
        assert s[..k] == e[..k];
        if i >= r.oi + r.n1 + d {
          BackNoIdent(a, r.oi + r.n1, -d, i);
        }
      } else if j == ce {
        RegionEnd(e, k, ce);
        if i < r.oi + r.n1 + r.del + d {
          ForthNoIdent(a, r.oi + r.n1 + r.del, d, i);
        }
      } else {
        BehindTotals(e, s, ce, j);
      }
    } else if e[j].op == EQ {
      ChangesAt(e, k + 1, ce, j);
    }
  }

  lemma RegionEnd(e: seq<Edit>, k: nat, ce: nat)
    requires IsRegion(e, k, ce)
    ensures var r := RegionOf(e, k, ce);
      Olds(e[..ce]) == r.oi + r.n1 + r.del
  {
    hide Olds, News, AllChanges;
    PastGap(e, k, ce);
    PairsOne(e[k], 0, 0);
  }

  lemma BehindTotals(e: seq<Edit>, s: seq<Edit>, ce: nat, j: nat)
    requires ce < j < |e| == |s| && Olds(s[..ce + 1]) == Olds(e[..ce + 1]) && s[ce + 1..] == e[ce + 1..]
    ensures Olds(s[..j]) == Olds(e[..j]) && s[j] == e[j]
  {
    hide Olds;
    var m := e[ce + 1..][..j - ce - 1];
    assert s[..j] == s[..ce + 1] + m && e[..j] == e[..ce + 1] + m;
    TotalsConcat(s[..ce + 1], m);
    TotalsConcat(e[..ce + 1], m);
    assert s[j] == s[ce + 1..][j - ce - 1];
  }

  lemma {:induction false} PassAnchored(a: Toks, b: Toks, e: seq<Edit>, k: nat)
    requires k <= |e| && Anchored(a, e)
    ensures Anchored(a, PassFrom(e, k, a, b))
    decreases |e| - k
  {
    hide PassFrom, BestShift, RegionOf, IsRegion, GapEnd, StartsGap, Held, Slid;
    PassOn(e, k, a, b);
    if k < |e| {
      if !StartsGap(e, k) {
        PassAnchored(a, b, e, k + 1);
      } else if GapEnd(e, k + 1) < |e| {
        var ce := GapEnd(e, k + 1);
        SlideFits(e, k, ce, a, b);
        var s := Slid(e, k, ce, BestShift(a, b, RegionOf(e, k, ce)));
        SlidLen(e, k, ce, BestShift(a, b, RegionOf(e, k, ce)));
        forall j | 0 <= j < |s|
          ensures Held(a, s, j)
        {
          SlidHeld(a, b, e, k, ce, j);
        }
        PassAnchored(a, b, s, ce);
      }
    }
  }

  lemma SlidLen(e: seq<Edit>, k: nat, ce: nat, d: int)
    requires k < ce < |e| && -(e[k].len as int) <= d <= e[ce].len
    ensures |Slid(e, k, ce, d)| == |e|
  {
  }

  /** Such a list stays normal: nothing is dropped. */
  lemma AnchoredNormal(a: Toks, b: Toks, e: seq<Edit>)
    requires Normal(e) && Anchored(a, e)
    ensures var f := PassFrom(e, 0, a, b);
      |f| == |e| && Normal(f) && Anchored(a, f) && Canon(f) == f
  {
    hide PassFrom, Canon, IsIdent, Olds;
    var f := PassFrom(e, 0, a, b);
    PassAnchored(a, b, e, 0);
    PassShape(e, 0, a, b);
    forall k | 0 <= k < |f|
      ensures f[k].len > 0
    {
      assert Held(a, f, k);
    }
    CanonFixed(f);
  }

  lemma {:induction false} AnchoredLen(a: Toks, b: Toks, e: seq<Edit>, left: nat)
    requires Normal(e) && Anchored(a, e)
    ensures |ShiftFrom(e, left, a, b).0| == |e|
    decreases left
  {
    hide PassFrom, Canon, Normal, Anchored;
    if left > 0 {
      AnchoredNormal(a, b, e);
      AnchoredLen(a, b, PassFrom(e, 0, a, b), left - 1);
    }
  }

  /** If every kept run holds an identifier, the cap of passes is enough. */
  lemma AnchoredSettles(a: Toks, b: Toks, e: seq<Edit>)
    requires Normal(e) && Anchored(a, e)
    ensures ShiftFrom(e, |e| + 4, a, b).1
  {
    hide ShiftFrom, Normal, Anchored;
    AnchoredLen(a, b, e, |e| + 4);
    ShiftSettles(e, |e| + 4, a, b);
  }

  // ---------- a pass that drops nothing ----------

  /** `x..` and a blank; the same without one of the dots. */
  const WITH_DOT := Toks([120, 46, 46, 32], [1, 2, 3, 4], [0, 0, 0, 0])
  const SANS_DOT := Toks([120, 46, 32], [1, 2, 3], [0, 0, 0])
  const DOT_GONE: seq<Edit> := [Edit(EQ, 1), Edit(DEL, 1), Edit(EQ, 2)]

  lemma DotTexts()
    ensures forall i: nat | i < 4 :: TextAt(WITH_DOT, i) == [WITH_DOT.src[i]]
    ensures forall i: nat | i < 3 :: TextAt(SANS_DOT, i) == [SANS_DOT.src[i]]
  {
  }

  lemma DotRoom()
    ensures var r := Region(0, 0, 1, 1, 0, 2);
      LeftRoom(WITH_DOT, SANS_DOT, r) == 0 && RightRoom(WITH_DOT, SANS_DOT, r) == 1
  {
    hide TextAt;
    DotTexts();
    assert TextAt(WITH_DOT, 2) == [46] && TextAt(SANS_DOT, 2)[0] == 32;
    assert !BackEq(WITH_DOT, SANS_DOT, 2, 1, 0) && ForthEq(WITH_DOT, SANS_DOT, 1, 1, 0);
    assert !ForthEq(WITH_DOT, SANS_DOT, 1, 1, 1) && ForthPlain(WITH_DOT, 2, 0);
  }

  lemma DotShift()
    ensures BestShift(WITH_DOT, SANS_DOT, Region(0, 0, 1, 1, 0, 2)) == 1
  {
    hide TextAt, LeftRoom, RightRoom;
    DotTexts();
    DotRoom();
    var t := WITH_DOT;
    assert TextAt(t, 0) == [120] && TextAt(t, 1) == [46] && TextAt(t, 2) == [46] && TextAt(t, 3) == [32];
    assert BoundaryScore(t, 1) == 1 && BoundaryScore(t, 2) == 1 && BoundaryScore(t, 3) == 3;
  }

  lemma DotTurns()
    ensures Turns(DOT_GONE, Texts(WITH_DOT), Texts(SANS_DOT))
  {
    hide TextAt;
    DotTexts();
    assert Pairs(DOT_GONE, 0, 0) == [(0, 0), (2, 1), (3, 2)];
  }

  /** A pass over a valid script that slides a change and drops no entry. */
  lemma SlideOnly()
    ensures Turns(DOT_GONE, Texts(WITH_DOT), Texts(SANS_DOT)) && Normal(DOT_GONE)
    ensures var f := PassFrom(DOT_GONE, 0, WITH_DOT, SANS_DOT);
      f == [Edit(EQ, 2), Edit(DEL, 1), Edit(EQ, 1)] && Canon(f) == f
  {
    hide BestShift, Turns, Pairs, Texts, TextAt;
    DotTurns();
    DotShift();
    assert IsRegion(DOT_GONE, 0, 2);
    assert DOT_GONE[..0] == [] && DOT_GONE[1..2] == [Edit(DEL, 1)];
    PairsOne(Edit(DEL, 1), 0, 0);
    assert RegionOf(DOT_GONE, 0, 2) == Region(0, 0, 1, 1, 0, 2);
    PassFromRegion(DOT_GONE, 0, 2, WITH_DOT, SANS_DOT);
    var f := Slid(DOT_GONE, 0, 2, 1);
    assert f == [Edit(EQ, 2), Edit(DEL, 1), Edit(EQ, 1)];
    assert PassFrom(f, 2, WITH_DOT, SANS_DOT) == f;
    CanonFixed(f);
  }

  // ---------- the fixed point ----------

  /** Slides to a fixed point; `fixed` tells that the fixed-point test ended the loop. */
  method Shift(edl: array<Edit>, n: nat, a: Toks, b: Toks) returns (n': nat, fixed: bool)
    requires n <= edl.Length && Turns(edl[..n], Texts(a), Texts(b))
    modifies edl
    ensures n' <= n && Turns(edl[..n'], Texts(a), Texts(b)) && Normal(edl[..n'])
    ensures IdentsKept(a, old(edl[..n]), edl[..n'])
    ensures (edl[..n'], fixed) == ShiftFrom(old(edl[..n]), n + 4, a, b)
    ensures fixed ==> Stuck(edl[..n'], a, b)
    ensures fixed || n' < n
    ensures Normal(old(edl[..n])) && Stuck(old(edl[..n]), a, b) ==> fixed && edl[..n'] == old(edl[..n])
  {
    hide Turns, IdentsKept, Stuck, Normal, Canon, Texts, PassFrom;
    ghost var e := edl[..n];
    ShiftSettles(e, n + 4, a, b);
    var maxIter := n + 4;
    var iter := 0;
    n', fixed := n, false;
    IdentsRefl(a, e);
    while iter < maxIter
      invariant iter <= maxIter && n' <= n && Turns(edl[..n'], Texts(a), Texts(b)) && IdentsKept(a, e, edl[..n'])
      invariant ShiftFrom(edl[..n'], maxIter - iter, a, b) == ShiftFrom(e, maxIter, a, b)
      invariant iter == 0 ==> edl[..n'] == e
      invariant iter > 0 ==> Normal(edl[..n']) && !(Normal(e) && Stuck(e, a, b))
    {
      ghost var f := edl[..n'];
      var nBefore := n';
      var changed := ShiftPass(edl, n', a, b);
      ghost var g := edl[..n'];
      IdentsTrans(a, e, f, g);
      n' := Canonicalize(edl, n');
      CanonNormal(g);
      SameKeeps(a, g, edl[..n'], Texts(a), Texts(b));
      IdentsTrans(a, e, g, edl[..n']);
      if !changed && nBefore == n' {
        StuckCanon(g, a, b);
        FixedStays(e);
        fixed := true;
        return;
      }
      FixedStays(e);
      iter := iter + 1;
    }
  }

  /** A slide that left through its fixed-point test, run again, changes nothing. */
  method ShiftTwice(edl: array<Edit>, n: nat, a: Toks, b: Toks) returns (n1: nat, fixed1: bool, n2: nat, fixed2: bool,
          ghost mid: seq<Edit>)
    requires n <= edl.Length && Turns(edl[..n], Texts(a), Texts(b))
    modifies edl
    ensures n1 <= edl.Length && n2 <= edl.Length
    ensures fixed1 ==> fixed2 && n2 == n1 && edl[..n2] == mid
    ensures fixed1 || n1 < n
    ensures Turns(mid, Texts(a), Texts(b)) && |mid| == n1
  {
    hide Turns, IdentsKept, Stuck, Normal, Texts;
    n1, fixed1 := Shift(edl, n, a, b);
    mid := edl[..n1];
    n2, fixed2 := Shift(edl, n1, a, b);
  }

  // ---------- cleanup, then slide ----------

  lemma SameTextIdent(a: Toks, b: Toks, e: seq<Edit>, p: (nat, nat))
    requires Turns(e, Texts(a), Texts(b)) && p in Pairs(e, 0, 0)
    ensures IsIdent(a, p.0) <==> IsIdent(b, p.1)
  {
    assert PairEq(Texts(a), Texts(b), p);
  }

  lemma ThinsIdents(a: Toks, b: Toks, e: seq<Edit>, f: seq<Edit>)
    requires Turns(e, Texts(a), Texts(b)) && Thins(b, e, f)
    ensures IdentsKept(a, e, f)
  {
    hide Turns, IsIdent, HasNewline, Texts;
    forall p | p in Pairs(e, 0, 0) && IsIdent(a, p.0)
      ensures p in Pairs(f, 0, 0)
    {
      SameTextIdent(a, b, e, p);
    }
  }

  /** Cleaned of false equalities, then slid, with four passes more than entries at most. */
  ghost function Rewritten(old_: Toks, new_: Toks, e: seq<Edit>): seq<Edit>
    requires |old_.ends| == |old_.tags| && |new_.ends| == |new_.tags| && NonEmpty(e)
  {
    var f := CleanupOf(old_, new_, e);
    ShiftFrom(f, |f| + 4, old_, new_).0
  }

  /** The whole rewriting of a script: valid before, valid after, every matched identifier still matched to
    * the same partner. */
  method Rewrite(edl: array<Edit>, n: nat, old_: Toks, new_: Toks) returns (n': nat)
    requires ToksOk(old_) && ToksOk(new_) && n <= edl.Length && |old_.ends| + |new_.ends| <= edl.Length
    requires NonEmpty(edl[..n]) && Turns(edl[..n], Texts(old_), Texts(new_))
    modifies edl
    ensures n' <= edl.Length && Turns(edl[..n'], Texts(old_), Texts(new_)) && Normal(edl[..n'])
    ensures IdentsKept(old_, old(edl[..n]), edl[..n'])
    ensures edl[..n'] == Rewritten(old_, new_, old(edl[..n]))
  {
    hide Turns, IdentsKept, Stuck, Normal, Thins, Texts, CleanupOf, ShiftFrom;
    ghost var e := edl[..n];
    var m := Cleanup(edl, n, old_, new_);
    ghost var f := edl[..m];
    ThinsIdents(old_, new_, e, f);
    var fixed: bool;
    n', fixed := Shift(edl, m, old_, new_);
    IdentsTrans(old_, e, f, edl[..n']);
  }
}
