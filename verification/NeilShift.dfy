/** Sliding changes to natural boundaries, pass by pass, to a fixed point. */
module NeilShift {
  import opened Common
  import opened Script
  import opened EditLists
  import opened EditCanon
  import opened NeilTokens
  import opened NeilCanon
  import opened NeilCleanup

  /** Every kept identifier pair is still kept, to the same partner. */
  ghost predicate IdentsKept(t: Toks, e: seq<Edit>, f: seq<Edit>) {
    forall p | p in Pairs(e, 0, 0) && IsIdent(t, p.0) :: p in Pairs(f, 0, 0)
  }

  lemma IdentsTrans(t: Toks, e: seq<Edit>, f: seq<Edit>, g: seq<Edit>)
    requires IdentsKept(t, e, f) && IdentsKept(t, f, g)
    ensures IdentsKept(t, e, g)
  {
  }

  lemma IdentsRefl(t: Toks, e: seq<Edit>)
    ensures IdentsKept(t, e, e)
  {
  }

  lemma SameKeeps<T>(t: Toks, e: seq<Edit>, f: seq<Edit>, a: seq<T>, b: seq<T>)
    requires SameFrom(f, e)
    ensures IdentsKept(t, e, f) && (Turns(e, a, b) ==> Turns(f, a, b))
  {
    SameFromIsSame(f, e);
  }

  // ---------- a region ----------

  /** A change between the kept runs `k` and `ce`. */
  ghost predicate IsRegion(e: seq<Edit>, k: nat, ce: nat) {
    k + 1 < ce < |e| && e[k].op == EQ && e[ce].op == EQ && AllChanges(e[k + 1..ce])
  }

  ghost predicate RegionIn(e: seq<Edit>, k: nat, ce: nat) {
    k < ce < |e|
  }

  ghost predicate AllChanges(g: seq<Edit>) {
    forall j | 0 <= j < |g| :: g[j].op != EQ
  }

  ghost function RegionOf(e: seq<Edit>, k: nat, ce: nat): Region
    requires k < ce < |e|
  {
    Region(Olds(e[..k]), News(e[..k]), e[k].len, Olds(e[k + 1..ce]), News(e[k + 1..ce]), e[ce].len)
  }

  function Slid(e: seq<Edit>, k: nat, ce: nat, d: int): seq<Edit>
    requires k < ce < |e| && -(e[k].len as int) <= d <= e[ce].len
  {
    e[k := Edit(EQ, e[k].len + d)][ce := Edit(EQ, e[ce].len - d)]
  }

  lemma {:induction false} ChangesKeepNothing(g: seq<Edit>, i: nat, j: nat)
    requires AllChanges(g)
    ensures Pairs(g, i, j) == []
    decreases |g|
  {
    if g != [] {
      assert forall k | 0 <= k < |g[1..]| :: g[1..][k] == g[k + 1];
      var d, n := if g[0].op == DEL then g[0].len else 0, if g[0].op == INS then g[0].len else 0;
      ChangesKeepNothing(g[1..], i + d, j + n);
    }
  }

  lemma ChangesAt(e: seq<Edit>, lo: nat, hi: nat, j: nat)
    requires lo <= j < hi <= |e| && AllChanges(e[lo..hi])
    ensures e[j].op != EQ
  {
    assert e[lo..hi][j - lo] == e[j];
  }

  lemma InDiagonal(i: nat, j: nat, n: nat, p: (nat, nat))
    ensures p in Diagonal(i, j, n) <==> i <= p.0 < i + n && p.1 == j + (p.0 - i)
  {
    DiagonalElements(i, j, n);
    if i <= p.0 < i + n && p.1 == j + (p.0 - i) {
      assert Diagonal(i, j, n)[p.0 - i] == p;
    }
  }

  /** The pairs of a region with its two kept runs. */
  ghost function RegionPairs(r: Region): seq<(nat, nat)> {
    Diagonal(r.oi, r.ni, r.n1) + Diagonal(r.oi + r.n1 + r.del, r.ni + r.n1 + r.ins, r.n2)
  }

  lemma MidPairs(g: seq<Edit>, r: Region)
    requires AllChanges(g) && r.del == Olds(g) && r.ins == News(g)
    ensures var m := [Edit(EQ, r.n1)] + (g + [Edit(EQ, r.n2)]);
      Pairs(m, r.oi, r.ni) == RegionPairs(r) && Olds(m) == r.n1 + r.del + r.n2 && News(m) == r.n1 + r.ins + r.n2
  {
    hide Pairs, Olds, News, Diagonal, AllChanges;
    PairsCons(Edit(EQ, r.n1), g + [Edit(EQ, r.n2)], r.oi, r.ni);
    PairsConcat(g, [Edit(EQ, r.n2)], r.oi + r.n1, r.ni + r.n1);
    ChangesKeepNothing(g, r.oi + r.n1, r.ni + r.n1);
    PairsOne(Edit(EQ, r.n2), r.oi + r.n1 + r.del, r.ni + r.n1 + r.ins);
    TotalsConcat(g, [Edit(EQ, r.n2)]);
    var d := Diagonal(r.oi + r.n1 + r.del, r.ni + r.n1 + r.ins, r.n2);
    assert [] + d == d;
  }

  /** The list around a region. */
  lemma AroundRegion(e: seq<Edit>, k: nat, ce: nat, x: Edit, y: Edit)
    requires k < ce < |e|
    ensures e[k := x][ce := y] == e[..k] + ([x] + (e[k + 1..ce] + [y])) + e[ce + 1..]
  {
  }

  /** The region before and after a slide. */
  ghost function SlidRegion(r: Region, d: int): Region
    requires -(r.n1 as int) <= d <= r.n2
  {
    r.(n1 := r.n1 + d, n2 := r.n2 - d)
  }

  lemma WholePairs(pre: seq<Edit>, m: seq<Edit>, post: seq<Edit>)
    ensures Olds(pre + m + post) == Olds(pre) + Olds(m) + Olds(post)
    ensures News(pre + m + post) == News(pre) + News(m) + News(post)
    ensures Pairs(pre + m + post, 0, 0)
         == Pairs(pre, 0, 0) + Pairs(m, Olds(pre), News(pre)) + Pairs(post, Olds(pre) + Olds(m), News(pre) + News(m))
  {
    hide Pairs, Olds, News;
    TotalsConcat(pre + m, post);
    TotalsConcat(pre, m);
    PairsConcat(pre + m, post, 0, 0);
    PairsConcat(pre, m, 0, 0);
  }

  lemma SlidPairs(e: seq<Edit>, k: nat, ce: nat, d: int)
    requires IsRegion(e, k, ce) && -(e[k].len as int) <= d <= e[ce].len
    ensures var f, r := Slid(e, k, ce, d), RegionOf(e, k, ce);
      var before := Pairs(e[..k], 0, 0);
      var after := Pairs(e[ce + 1..], r.oi + r.n1 + r.del + r.n2, r.ni + r.n1 + r.ins + r.n2);
      && Olds(f) == Olds(e) && News(f) == News(e)
      && Pairs(e, 0, 0) == before + RegionPairs(r) + after
      && Pairs(f, 0, 0) == before + RegionPairs(SlidRegion(r, d)) + after
  {
    hide Pairs, Olds, News, AllChanges, RegionPairs;
    var r := RegionOf(e, k, ce);
    var g := e[k + 1..ce];
    var x, y := Edit(EQ, r.n1 + d), Edit(EQ, r.n2 - d);
    assert e == e[k := e[k]][ce := e[ce]] && e[k] == Edit(EQ, r.n1) && e[ce] == Edit(EQ, r.n2);
    AroundRegion(e, k, ce, e[k], e[ce]);
    AroundRegion(e, k, ce, x, y);
    MidPairs(g, r);
    MidPairs(g, SlidRegion(r, d));
    WholePairs(e[..k], [e[k]] + (g + [e[ce]]), e[ce + 1..]);
    WholePairs(e[..k], [x] + (g + [y]), e[ce + 1..]);
  }

  predicate InFirst(r: Region, p: (nat, nat)) {
    r.oi <= p.0 < r.oi + r.n1 && p.1 == r.ni + (p.0 - r.oi)
  }

  predicate InSecond(r: Region, p: (nat, nat)) {
    r.oi + r.n1 + r.del <= p.0 < r.oi + r.n1 + r.del + r.n2 && p.1 == r.ni + r.ins - r.del + (p.0 - r.oi)
  }

  lemma InRegion(r: Region, p: (nat, nat))
    ensures p in RegionPairs(r) <==> InFirst(r, p) || InSecond(r, p)
  {
    hide Diagonal;
    InDiagonal(r.oi, r.ni, r.n1, p);
    InDiagonal(r.oi + r.n1 + r.del, r.ni + r.n1 + r.ins, r.n2, p);
  }

  lemma ForthText(a: Toks, b: Toks, ai: nat, bi: nat, n: nat, p: (nat, nat))
    requires AllForthEq(a, b, ai, bi, 0, n) && ai <= p.0 < ai + n && p.1 == bi + (p.0 - ai)
    ensures p.0 < |a.ends| && p.1 < |b.ends| && TextAt(a, p.0) == TextAt(b, p.1)
  {
    hide TextAt;
    assert ForthEq(a, b, ai, bi, p.0 - ai);
  }

  lemma BackText(a: Toks, b: Toks, ai: nat, bi: nat, n: nat, p: (nat, nat))
    requires AllBackEq(a, b, ai, bi, 0, n) && p.0 < ai <= p.0 + n && p.1 < bi && ai - p.0 == bi - p.1
    ensures p.0 < |a.ends| && p.1 < |b.ends| && TextAt(a, p.0) == TextAt(b, p.1)
  {
    hide TextAt;
    assert BackEq(a, b, ai, bi, ai - 1 - p.0);
  }

  lemma ForthNoIdent(a: Toks, start: nat, n: nat, i: nat)
    requires AllForthPlain(a, start, 0, n) && start <= i < start + n
    ensures !IsIdent(a, i)
  {
    hide IsIdent;
    assert ForthPlain(a, start, i - start);
  }

  lemma BackNoIdent(a: Toks, end: nat, n: nat, i: nat)
    requires AllBackPlain(a, end, 0, n) && i < end <= i + n
    ensures !IsIdent(a, i)
  {
    hide IsIdent;
    assert BackPlain(a, end, end - 1 - i);
  }

  /** One pair of the slid region: an old pair, or one of equal tokens. */
  lemma SlidPairEq(a: Toks, b: Toks, r: Region, d: int, p: (nat, nat))
    requires SafeShift(a, b, r, d) && p in RegionPairs(SlidRegion(r, d)) && p !in RegionPairs(r)
    ensures p.0 < |a.ends| && p.1 < |b.ends| && TextAt(a, p.0) == TextAt(b, p.1)
  {
    hide RegionPairs, AllForthEq, AllBackEq, AllForthPlain, AllBackPlain, TextAt;
    InRegion(r, p);
    InRegion(SlidRegion(r, d), p);
    if d > 0 {
      ForthText(a, b, r.oi + r.n1, r.ni + r.n1, d, p);
    } else {
      BackText(a, b, r.oi + r.n1 + r.del, r.ni + r.n1 + r.ins, -d, p);
    }
  }

  /** One identifier pair of the region: still there after the slide. */
  lemma SlidIdent(a: Toks, b: Toks, r: Region, d: int, p: (nat, nat))
    requires SafeShift(a, b, r, d) && p in RegionPairs(r) && IsIdent(a, p.0)
    ensures p in RegionPairs(SlidRegion(r, d))
  {
    hide RegionPairs, AllForthEq, AllBackEq, AllForthPlain, AllBackPlain, IsIdent;
    InRegion(r, p);
    InRegion(SlidRegion(r, d), p);
    var start2 := r.oi + r.n1 + r.del;
    if d > 0 && InSecond(r, p) && p.0 < start2 + d {
      ForthNoIdent(a, start2, d, p.0);
    } else if d < 0 && InFirst(r, p) && r.oi + r.n1 <= p.0 - d {
      BackNoIdent(a, r.oi + r.n1, -d, p.0);
    }
  }

  /** A safe slide keeps the script valid and every identifier pair. */
  lemma SlideKeeps(e: seq<Edit>, k: nat, ce: nat, d: int, a: Toks, b: Toks)
    requires IsRegion(e, k, ce) && Turns(e, Texts(a), Texts(b)) && SafeShift(a, b, RegionOf(e, k, ce), d)
    ensures -(e[k].len as int) <= d <= e[ce].len
    ensures Turns(Slid(e, k, ce, d), Texts(a), Texts(b)) && IdentsKept(a, e, Slid(e, k, ce, d))
  {
    hide Pairs, Olds, News, RegionPairs, SafeShift, IsRegion;
    RegionBounds(e, k, ce, a, b, d);
    var f, r := Slid(e, k, ce, d), RegionOf(e, k, ce);
    SlidPairs(e, k, ce, d);
    forall p | p in Pairs(f, 0, 0)
      ensures PairEq(Texts(a), Texts(b), p)
    {
      if p !in Pairs(e, 0, 0) {
        SlidPairEq(a, b, r, d, p);
      }
    }
    forall p | p in Pairs(e, 0, 0) && IsIdent(a, p.0)
      ensures p in Pairs(f, 0, 0)
    {
      if p in RegionPairs(r) {
        SlidIdent(a, b, r, d, p);
      }
    }
  }

  lemma RegionBounds(e: seq<Edit>, k: nat, ce: nat, a: Toks, b: Toks, d: int)
    requires IsRegion(e, k, ce) && SafeShift(a, b, RegionOf(e, k, ce), d)
    ensures k < ce < |e| && -(e[k].len as int) <= d <= e[ce].len
    ensures RegionOf(e, k, ce).n1 == e[k].len && RegionOf(e, k, ce).n2 == e[ce].len
  {
  }

  // ---------- one pass ----------

  /** No region that starts before entry `k` would slide. */
  ghost predicate SettledBelow(e: seq<Edit>, k: nat, a: Toks, b: Toks) {
    forall i: nat, ce: nat | i < k && IsRegion(e, i, ce) :: BestShift(a, b, RegionOf(e, i, ce)) == 0
  }

  ghost predicate Stuck(e: seq<Edit>, a: Toks, b: Toks) {
    SettledBelow(e, |e|, a, b)
  }

  lemma NotStuck(e: seq<Edit>, k: nat, ce: nat, a: Toks, b: Toks)
    requires IsRegion(e, k, ce) && BestShift(a, b, RegionOf(e, k, ce)) != 0
    ensures !Stuck(e, a, b)
  {
  }

  /** The kept run that ends the gap starting at `cs`, or the end of the list. */
  ghost function GapEnd(e: seq<Edit>, cs: nat): (ce: nat)
    requires cs <= |e|
    ensures cs <= ce <= |e|
    decreases |e| - cs
  {
    if cs < |e| && e[cs].op != EQ then GapEnd(e, cs + 1) else cs
  }

  ghost predicate StartsGap(e: seq<Edit>, k: nat) {
    k + 1 < |e| && e[k].op == EQ && e[k + 1].op != EQ
  }

  /** From entry `k` on: every gap between two kept runs slides to its best place, from left to right. */
  ghost function PassFrom(e: seq<Edit>, k: nat, a: Toks, b: Toks): (f: seq<Edit>)
    requires k <= |e|
    ensures |f| == |e| && f[..k] == e[..k]
    decreases |e| - k
  {
    if k == |e| then e
    else if !StartsGap(e, k) then
      var f := PassFrom(e, k + 1, a, b);
      assert f[..k + 1][..k] == e[..k + 1][..k] == e[..k];
      f
    else
      var ce := GapEnd(e, k + 1);
      if ce == |e| then e
      else
        var s := Slid(e, k, ce, BestShift(a, b, RegionOf(e, k, ce)));
        var f := PassFrom(s, ce, a, b);
        assert f[..ce][..k] == s[..ce][..k] == e[..k];
        f
  }

  lemma {:induction false} GapEndIs(e: seq<Edit>, cs: nat, ce: nat)
    requires cs <= ce <= |e| && AllChanges(e[cs..ce]) && (ce < |e| ==> e[ce].op == EQ)
    ensures GapEnd(e, cs) == ce
    decreases ce - cs
  {
    hide AllChanges;
    if cs < ce {
      ChangesAt(e, cs, ce, cs);
      ChangesFrom(e, cs, ce);
      GapEndIs(e, cs + 1, ce);
    }
  }

  lemma ChangesFrom(e: seq<Edit>, cs: nat, ce: nat)
    requires cs < ce <= |e| && AllChanges(e[cs..ce])
    ensures AllChanges(e[cs + 1..ce])
  {
    var g, t := e[cs..ce], e[cs + 1..ce];
    forall j | 0 <= j < |t|
      ensures t[j].op != EQ
    {
      assert t[j] == g[j + 1];
    }
  }

  lemma PassFromRegion(e: seq<Edit>, k: nat, ce: nat, a: Toks, b: Toks)
    requires IsRegion(e, k, ce)
    ensures var d := BestShift(a, b, RegionOf(e, k, ce));
      PassFrom(e, k, a, b) == PassFrom(Slid(e, k, ce, d), ce, a, b)
  {
    ChangesAt(e, k + 1, ce, k + 1);
    GapEndIs(e, k + 1, ce);
  }

  lemma PassFromLast(e: seq<Edit>, k: nat, a: Toks, b: Toks)
    requires k == |e| || (StartsGap(e, k) && AllChanges(e[k + 1..]))
    ensures PassFrom(e, k, a, b) == e
  {
    if k < |e| {
      assert e[k + 1..] == e[k + 1..|e|];
      GapEndIs(e, k + 1, |e|);
    }
  }

  /** The end of the gap that starts at `cs`, and what it adds up to. */
  method FindGap(edl: array<Edit>, n: nat, cs: nat) returns (ce: nat, del: nat, ins: nat)
    requires cs <= n <= edl.Length
    ensures cs <= ce <= n && AllChanges(edl[cs..ce]) && del == Olds(edl[cs..ce]) && ins == News(edl[cs..ce])
    ensures ce < n ==> edl[ce].op == EQ
  {
    ce, del, ins := cs, 0, 0;
    while ce < n && edl[ce].op != EQ
      invariant cs <= ce <= n && AllChanges(edl[cs..ce]) && del == Olds(edl[cs..ce]) && ins == News(edl[cs..ce])
    {
      assert edl[cs..ce + 1] == edl[cs..ce] + [edl[ce]];
      TotalsConcat(edl[cs..ce], [edl[ce]]);
      PairsOne(edl[ce], 0, 0);
      if edl[ce].op == DEL {
        del := del + edl[ce].len;
      } else {
        ins := ins + edl[ce].len;
      }
      ce := ce + 1;
    }
  }

  /** The pass so far: `oi` and `ni` run along; nothing before entry `k` is left to slide, or something slid. */
  ghost predicate PassOk(e0: seq<Edit>, e: seq<Edit>, k: nat, oi: nat, ni: nat, changed: bool, a: Toks, b: Toks) {
    && k <= |e| == |e0| && oi == Olds(e[..k]) && ni == News(e[..k])
    && Turns(e, Texts(a), Texts(b)) && IdentsKept(a, e0, e)
    && (if changed then !Stuck(e0, a, b) && e[..k] != e0[..k] else e == e0 && SettledBelow(e0, k, a, b))
    && PassFrom(e, k, a, b) == PassFrom(e0, 0, a, b)
  }

  lemma NoRegionHere(e: seq<Edit>, k: nat)
    requires k < |e| && (e[k].op != EQ || k + 1 == |e| || e[k + 1].op == EQ)
    ensures forall ce: nat :: !IsRegion(e, k, ce)
  {
    hide AllChanges;
    forall ce: nat
      ensures !IsRegion(e, k, ce)
    {
      if IsRegion(e, k, ce) {
        ChangesAt(e, k + 1, ce, k + 1);
      }
    }
  }

  lemma PassSkip(e0: seq<Edit>, e: seq<Edit>, k: nat, oi: nat, ni: nat, changed: bool, a: Toks, b: Toks)
    requires PassOk(e0, e, k, oi, ni, changed, a, b) && k < |e|
    requires e[k].op != EQ || k + 1 == |e| || e[k + 1].op == EQ
    ensures var d, n := if e[k].op == INS then 0 else e[k].len, if e[k].op == DEL then 0 else e[k].len;
      PassOk(e0, e, k + 1, oi + d, ni + n, changed, a, b)
  {
    hide Turns, IdentsKept, Stuck, Olds, News, Pairs, BestShift, RegionOf, IsRegion;
    TakeNext(e, k);
    TotalsConcat(e[..k], [e[k]]);
    PairsOne(e[k], 0, 0);
    if !changed {
      NoRegionHere(e, k);
    }
  }

  /** Entries up to the second kept run. */
  lemma PastGap(e: seq<Edit>, k: nat, ce: nat)
    requires k < ce <= |e|
    ensures Olds(e[..ce]) == Olds(e[..k]) + Olds([e[k]]) + Olds(e[k + 1..ce])
    ensures News(e[..ce]) == News(e[..k]) + News([e[k]]) + News(e[k + 1..ce])
  {
    assert e[..ce] == e[..k] + [e[k]] + e[k + 1..ce];
    WholePairs(e[..k], [e[k]], e[k + 1..ce]);
  }

  /** No second region starts inside a gap, and the gap's end is the only one for its start. */
  lemma OneRegion(e: seq<Edit>, k: nat, ce: nat, i: nat, cf: nat)
    requires IsRegion(e, k, ce) && IsRegion(e, i, cf) && k <= i < ce
    ensures i == k && cf == ce
  {
    hide AllChanges;
    if i > k {
      ChangesAt(e, k + 1, ce, i);
    } else if cf < ce {
      ChangesAt(e, k + 1, ce, cf);
    } else if ce < cf {
      ChangesAt(e, k + 1, cf, ce);
    }
  }

  /** A slide is seen in the entries it leaves behind. */
  lemma SlidDiffers(e0: seq<Edit>, e: seq<Edit>, k: nat, ce: nat, d: int)
    requires k < ce < |e| == |e0| && -(e[k].len as int) <= d <= e[ce].len
    requires e[..k] != e0[..k] || (e == e0 && d != 0)
    ensures Slid(e, k, ce, d)[..ce] != e0[..ce]
  {
    var f := Slid(e, k, ce, d);
    assert f[..ce][..k] == e[..k] && e0[..ce][..k] == e0[..k];
    assert f[..ce][k].len == e[k].len + d && e0[..ce][k] == e0[k];
  }

  lemma PassRegion(e0: seq<Edit>, e: seq<Edit>, k: nat, ce: nat, oi: nat, ni: nat, changed: bool, a: Toks, b: Toks,
          d: int)
    requires PassOk(e0, e, k, oi, ni, changed, a, b) && IsRegion(e, k, ce)
    requires d == BestShift(a, b, RegionOf(e, k, ce))
    ensures -(e[k].len as int) <= d <= e[ce].len
    ensures var r := RegionOf(e, k, ce);
      PassOk(e0, Slid(e, k, ce, d), ce, oi + r.n1 + d + r.del, ni + r.n1 + d + r.ins, changed || d != 0, a, b)
  {
    hide Turns, Olds, News, SafeShift, BestShift, Pairs, PassFrom;
    PassFromRegion(e, k, ce, a, b);
    BestShiftSafe(a, b, RegionOf(e, k, ce));
    if changed || d != 0 {
      SlidDiffers(e0, e, k, ce, d);
    }
    SlideKeeps(e, k, ce, d, a, b);
    var f, r := Slid(e, k, ce, d), RegionOf(e, k, ce);
    IdentsTrans(a, e0, e, f);
    PastGap(f, k, ce);
    assert f[..k] == e[..k] && f[k + 1..ce] == e[k + 1..ce] && f[k] == Edit(EQ, e[k].len + d);
    PairsOne(f[k], 0, 0);
    if !changed {
      if d != 0 {
        NotStuck(e0, k, ce, a, b);
      } else {
        assert f == e;
        forall i: nat, cf: nat | i < ce && IsRegion(e0, i, cf)
          ensures BestShift(a, b, RegionOf(e0, i, cf)) == 0
        {
          if i >= k {
            OneRegion(e0, k, ce, i, cf);
          }
        }
      }
    }
  }

  /** No kept run after `k`: nothing more to slide. */
  lemma PassEnds(e0: seq<Edit>, e: seq<Edit>, k: nat, oi: nat, ni: nat, changed: bool, a: Toks, b: Toks)
    requires PassOk(e0, e, k, oi, ni, changed, a, b)
    requires k == |e| || (StartsGap(e, k) && AllChanges(e[k + 1..]))
    ensures Turns(e, Texts(a), Texts(b)) && IdentsKept(a, e0, e)
    ensures changed == !Stuck(e0, a, b) == (e != e0) && e == PassFrom(e0, 0, a, b)
  {
    hide AllChanges, BestShift, RegionOf, Turns, IdentsKept, PassFrom;
    PassFromLast(e, k, a, b);
    if !changed {
      forall i: nat, ce: nat | i < |e0| && IsRegion(e0, i, ce)
        ensures RegionIn(e0, i, ce) && BestShift(a, b, RegionOf(e0, i, ce)) == 0
      {
        if i >= k {
          assert e[k + 1..] == e[k + 1..|e|];
          ChangesAt(e, k + 1, |e|, ce);
        }
      }
    }
  }

  lemma PassLen(e0: seq<Edit>, e: seq<Edit>, k: nat, oi: nat, ni: nat, changed: bool, a: Toks, b: Toks)
    requires PassOk(e0, e, k, oi, ni, changed, a, b)
    ensures k <= |e| == |e0| && oi == Olds(e[..k]) && ni == News(e[..k])
  {
  }

  lemma ShortIsStuck(e: seq<Edit>, a: Toks, b: Toks)
    requires |e| < 3
    ensures Stuck(e, a, b) && PassFrom(e, 0, a, b) == e
  {
    hide BestShift, RegionOf;
    if |e| == 2 {
      assert PassFrom(e, 1, a, b) == e && GapEnd(e, 2) == 2;
    }
  }

  /** One pass of boundary sliding, in place; running counters follow the slides. */
  method ShiftPass(edl: array<Edit>, n: nat, a: Toks, b: Toks) returns (changed: bool)
    requires n <= edl.Length && Turns(edl[..n], Texts(a), Texts(b))
    modifies edl
    ensures Turns(edl[..n], Texts(a), Texts(b)) && IdentsKept(a, old(edl[..n]), edl[..n])
    ensures edl[..n] == PassFrom(old(edl[..n]), 0, a, b)
    ensures changed == !Stuck(old(edl[..n]), a, b) == (edl[..n] != old(edl[..n]))
  {
    hide PassOk, PassFrom, Turns, IdentsKept, Stuck, BestShift, Texts, IsRegion, AllChanges, Olds, News;
    ghost var e0 := edl[..n];
    changed := false;
    if n < 3 {
      ShortIsStuck(e0, a, b);
      IdentsRefl(a, e0);
      return;
    }
    var oi: nat, ni: nat, k: nat := 0, 0, 0;
    PassStart(e0, a, b);
    while k < n
      invariant k <= n && PassOk(e0, edl[..n], k, oi, ni, changed, a, b)
      decreases n - k
    {
      ghost var e := edl[..n];
      assert e[k] == edl[k] && (k + 1 < n ==> e[k + 1] == edl[k + 1]);
      if edl[k].op != EQ {
        PassSkip(e0, e, k, oi, ni, changed, a, b);
        if edl[k].op == DEL {
          oi := oi + edl[k].len;
        } else {
          ni := ni + edl[k].len;
        }
        k := k + 1;
        continue;
      }
      var n1 := edl[k].len;
      var cs := k + 1;
      if cs >= n || edl[cs].op == EQ {
        PassSkip(e0, e, k, oi, ni, changed, a, b);
        oi, ni, k := oi + n1, ni + n1, k + 1;
        continue;
      }
      var ce, del, ins := FindGap(edl, n, cs);
      assert edl[cs..ce] == e[cs..ce];
      if ce >= n {
        assert e[k + 1..] == e[cs..ce];
        break;
      }
      GapNotEmpty(e, k, ce);
      PassLen(e0, e, k, oi, ni, changed, a, b);
      var d := BestShift(a, b, Region(oi, ni, n1, del, ins, edl[ce].len));
      PassRegion(e0, e, k, ce, oi, ni, changed, a, b, d);
      if d != 0 {
        var n2 := edl[ce].len;
        edl[k] := Edit(EQ, n1 + d);
        edl[ce] := Edit(EQ, n2 - d);
        changed := true;
      }
      assert edl[..n] == Slid(e, k, ce, d) by {
        SlidZero(e, k, ce, d);
      }
      oi, ni, k := oi + n1 + d + del, ni + n1 + d + ins, ce;
    }
    PassEnds(e0, edl[..n], k, oi, ni, changed, a, b);
  }

  lemma PassStart(e: seq<Edit>, a: Toks, b: Toks)
    requires Turns(e, Texts(a), Texts(b))
    ensures PassOk(e, e, 0, 0, 0, false, a, b)
  {
  }

  lemma SlidZero(e: seq<Edit>, k: nat, ce: nat, d: int)
    requires k < ce < |e| && e[k].op == EQ && e[ce].op == EQ && -(e[k].len as int) <= d <= e[ce].len
    ensures d == 0 ==> Slid(e, k, ce, d) == e
  {
    assert e[k] == Edit(EQ, e[k].len) && e[ce] == Edit(EQ, e[ce].len);
  }

  lemma GapNotEmpty(e: seq<Edit>, k: nat, ce: nat)
    requires k + 1 <= ce < |e| && e[k].op == EQ && e[k + 1].op != EQ && e[ce].op == EQ && AllChanges(e[k + 1..ce])
    ensures IsRegion(e, k, ce)
  {
  }

  // ---------- the fixed point ----------

  /** Equal up to the order of a deletion and an insertion next to it. */
  ghost predicate Twin(e: seq<Edit>, f: seq<Edit>) {
    || (e == [] && f == [])
    || (e != [] && f != [] && e[0] == f[0] && Twin(e[1..], f[1..]))
    || (|e| >= 2 && |f| >= 2 && e[0].op == DEL && e[1].op == INS && f[0] == e[1] && f[1] == e[0]
        && Twin(e[2..], f[2..]))
  }

  /** A normal form of the same length only swaps. */
  lemma {:induction false} CanonTwin(e: seq<Edit>)
    requires |Canon(e)| == |e|
    ensures Twin(e, Canon(e))
  {
    if e != [] {
      var d, t, r := e[0], e[1..], Canon(e[1..]);
      CanonNormal(t);
      ConsNormal(d, r);
      CanonTwin(t);
      if d.len > 0 && r != [] && d.op == DEL && r[0].op == INS {
        assert Cons(d, r) == [r[0], d] + r[1..];
        assert e[2..] == t[1..] && Cons(d, r)[2..] == r[1..];
      } else {
        assert Cons(d, r)[1..] == r;
      }
    }
  }

  lemma PrefixCons(e: seq<Edit>, k: nat)
    requires 0 < k <= |e|
    ensures e[..k] == [e[0]] + e[1..][..k - 1]
  {
  }

  /** Twins have the same kept runs at the same places. */
  lemma {:induction false} TwinAt(e: seq<Edit>, f: seq<Edit>, k: nat)
    requires Twin(e, f) && |e| == |f| && k < |f| && (f[k].op == EQ || e[k].op == EQ)
    ensures e[k] == f[k] && Olds(e[..k]) == Olds(f[..k]) && News(e[..k]) == News(f[..k])
    decreases |e|
  {
    hide Olds, News;
    if k > 0 {
      PrefixCons(e, k);
      PrefixCons(f, k);
      TotalsConcat([e[0]], e[1..][..k - 1]);
      TotalsConcat([f[0]], f[1..][..k - 1]);
      if e[0] == f[0] && Twin(e[1..], f[1..]) {
        TwinAt(e[1..], f[1..], k - 1);
      } else {
        PrefixCons(e[1..], k - 1);
        PrefixCons(f[1..], k - 1);
        assert e[1..][1..] == e[2..] && f[1..][1..] == f[2..];
        TotalsConcat([e[1]], e[2..][..k - 2]);
        TotalsConcat([f[1]], f[2..][..k - 2]);
        PairsOne(e[0], 0, 0);
        PairsOne(e[1], 0, 0);
        TwinAt(e[2..], f[2..], k - 2);
      }
    }
  }

  lemma TwinRegion(e: seq<Edit>, f: seq<Edit>, k: nat, ce: nat)
    requires Twin(e, f) && |e| == |f| && IsRegion(f, k, ce)
    ensures IsRegion(e, k, ce) && RegionOf(e, k, ce) == RegionOf(f, k, ce)
  {
    hide Twin, Olds, News;
    TwinAt(e, f, k);
    TwinAt(e, f, ce);
    PastGap(e, k, ce);
    PastGap(f, k, ce);
    forall j | k < j < ce
      ensures e[j].op != EQ
    {
      ChangesAt(f, k + 1, ce, j);
      if e[j].op == EQ {
        TwinAt(e, f, j);
      }
    }
    var gap := e[k + 1..ce];
    assert forall j | 0 <= j < |gap| :: gap[j] == e[k + 1 + j];
  }

  /** A stuck list whose normal form is no shorter stays stuck in normal form. */
  lemma StuckCanon(e: seq<Edit>, a: Toks, b: Toks)
    requires Stuck(e, a, b) && |Canon(e)| == |e|
    ensures Stuck(Canon(e), a, b)
  {
    hide BestShift, RegionOf, IsRegion, Twin, Canon;
    var f := Canon(e);
    CanonTwin(e);
    forall k: nat, ce: nat | k < |f| && IsRegion(f, k, ce)
      ensures RegionIn(f, k, ce) && BestShift(a, b, RegionOf(f, k, ce)) == 0
    {
      RegionBoundsOnly(f, k, ce);
      TwinRegion(e, f, k, ce);
    }
  }

  lemma RegionBoundsOnly(e: seq<Edit>, k: nat, ce: nat)
    requires IsRegion(e, k, ce)
    ensures RegionIn(e, k, ce)
  {
  }

  /** Passes and normal forms, `left` at most, until a pass changes nothing and the normal form is no shorter;
    * with it, whether that test ended it. */
  ghost function ShiftFrom(e: seq<Edit>, left: nat, a: Toks, b: Toks): (seq<Edit>, bool)
    decreases left
  {
    if left == 0 then (e, false)
    else
      var f := PassFrom(e, 0, a, b);
      var g := Canon(f);
      if f == e && |g| == |e| then (g, true) else ShiftFrom(g, left - 1, a, b)
  }

  lemma FixedStays(e: seq<Edit>)
    ensures Normal(e) ==> Canon(e) == e
  {
    if Normal(e) {
      CanonFixed(e);
    }
  }
}
