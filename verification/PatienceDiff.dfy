/** The patience recursion: stitch matched anchors together with the diffs of the regions between them. */
module PatienceDiff {
  import opened Common
  import opened Script
  import opened EditLists
  import opened Patience
  import opened PatienceLines

  /** Equal folds, equal stretches of tokens: line hashes tell lines apart. */
  ghost predicate FoldTells(mix: Mix, seed: nat, a: seq<nat>, b: seq<nat>) {
    forall i: nat, j: nat, k: nat, l: nat | i <= j <= |a| && k <= l <= |b| :: FoldTellsAt(mix, seed, a, b, i, j, k, l)
  }

  ghost predicate FoldTellsAt(mix: Mix, seed: nat, a: seq<nat>, b: seq<nat>, i: nat, j: nat, k: nat, l: nat)
    requires i <= j <= |a| && k <= l <= |b|
  {
    Fold(mix, seed, a[i..j]) == Fold(mix, seed, b[k..l]) ==> a[i..j] == b[k..l]
  }

  lemma FoldTellsPart(mix: Mix, seed: nat, a: seq<nat>, b: seq<nat>, i: nat, j: nat, k: nat, l: nat)
    requires FoldTells(mix, seed, a, b) && i <= j <= |a| && k <= l <= |b|
    ensures FoldTells(mix, seed, a[i..j], b[k..l])
  {
    hide Fold;
    var c, d := a[i..j], b[k..l];
    forall p: nat, q: nat, r: nat, s: nat | p <= q <= |c| && r <= s <= |d|
      ensures FoldTellsAt(mix, seed, c, d, p, q, r, s)
    {
      var p', q', r', s' := i + p, i + q, k + r, k + s;
      assert FoldTellsAt(mix, seed, a, b, p', q', r', s');
      SliceOfSlice(a, i, j, p, q);
      SliceOfSlice(b, k, l, r, s);
    }
    assert FoldTells(mix, seed, c, d);
  }

  lemma SliceOfSlice(a: seq<nat>, i: nat, j: nat, p: nat, q: nat)
    requires i <= j <= |a| && p <= q <= j - i
    ensures a[i..j][p..q] == a[i + p..i + q]
  {
    var c, d := a[i..j][p..q], a[i + p..i + q];
    forall k | 0 <= k < q - p
      ensures c[k] == d[k]
    {
      assert a[i..j][p + k] == a[i + (p + k)];
    }
  }

  // ---------- the anchors of one side ----------

  /** The marked lines, in order, with their hashes. */
  ghost predicate Picked(ls: seq<Line>, f: seq<bool>, n: nat, idx: seq<nat>, h: seq<nat>) {
    && n <= |ls| == |f| && |idx| == |h|
    && (forall k | 0 <= k < |idx| :: idx[k] < n && f[idx[k]] && h[k] == ls[idx[k]].hash)
    && (forall j, k | 0 <= j < k < |idx| :: idx[j] < idx[k])
    && (forall x | 0 <= x < n && f[x] :: x in idx)
  }

  method PickAnchors(ls: seq<Line>, f: seq<bool>) returns (idx: seq<nat>, h: seq<nat>)
    requires |f| == |ls|
    ensures Picked(ls, f, |ls|, idx, h)
  {
    idx, h := [], [];
    for k := 0 to |ls|
      invariant Picked(ls, f, k, idx, h)
    {
      if f[k] {
        h := h + [ls[k].hash];
        idx := idx + [k];
      }
    }
  }

  /** The listed lines are all the anchors of this side. */
  ghost predicate AllAnchors(la: seq<Line>, lb: seq<Line>, ls: seq<Line>, idx: seq<nat>) {
    forall x | 0 <= x < |ls| :: x in idx <==> Anchor(la, lb, ls[x].hash)
  }

  lemma PickedAll(la: seq<Line>, lb: seq<Line>, ls: seq<Line>, f: seq<bool>, idx: seq<nat>, h: seq<nat>)
    requires Picked(ls, f, |ls|, idx, h) && forall x | 0 <= x < |ls| :: f[x] <==> Anchor(la, lb, ls[x].hash)
    ensures AllAnchors(la, lb, ls, idx)
  {
    hide Anchor;
  }

  lemma NoLinesNoAnchors(la: seq<Line>, lb: seq<Line>, ls: seq<Line>)
    requires la == [] || lb == []
    ensures AllAnchors(la, lb, ls, [])
  {
  }

  // ---------- stitching ----------

  /** What a stitch works with: tokens, lines, anchors of both sides. */
  datatype Sides = Sides(mix: Mix, seed: nat, a: seq<nat>, b: seq<nat>, la: seq<Line>, lb: seq<Line>,
                         ia: seq<nat>, ib: seq<nat>, ha: seq<nat>, hb: seq<nat>)

  ghost predicate SidesOk(s: Sides) {
    && Tiles(s.mix, s.seed, s.a, s.la, |s.a|) && Tiles(s.mix, s.seed, s.b, s.lb, |s.b|)
    && AnchorsIn(s.la, s.ia, s.ha) && AnchorsIn(s.lb, s.ib, s.hb)
    && FoldTells(s.mix, s.seed, s.a, s.b)
  }

  /** All a step looks at, and nothing made up: both sides' lines and the lines found once on each. */
  ghost predicate Sees(nl: nat, s: Sides, a: seq<nat>, b: seq<nat>) {
    && s.a == a && s.b == b && SidesOk(s) && Broken(nl, a, s.la) && Broken(nl, b, s.lb)
    && AllAnchors(s.la, s.lb, s.la, s.ia) && AllAnchors(s.la, s.lb, s.lb, s.ib)
  }

  ghost predicate KeepsAt(u: seq<Op>, a: seq<nat>, b: seq<nat>, x: Line, y: Line, p: nat) {
    && x.lo <= x.hi <= |a| && y.lo <= |b| && p + (x.hi - x.lo) <= |u|
    && Aligns(u[..p], a[..x.lo], b[..y.lo]) && u[p..p + (x.hi - x.lo)] == Repeat(EQ, x.hi - x.lo)
  }

  /** The script `u` keeps line `x` whole, as line `y`. */
  ghost predicate KeepsLine(u: seq<Op>, a: seq<nat>, b: seq<nat>, x: Line, y: Line) {
    exists p: nat :: KeepsAt(u, a, b, x, y, p)
  }

  ghost predicate KeepsMatch(s: Sides, u: seq<Op>, p: (nat, nat)) {
    && p.0 < |s.ia| && p.1 < |s.ib| && s.ia[p.0] < |s.la| && s.ib[p.1] < |s.lb|
    && KeepsLine(u, s.a, s.b, s.la[s.ia[p.0]], s.lb[s.ib[p.1]])
  }

  ghost predicate KeepsAll(s: Sides, u: seq<Op>, ps: seq<(nat, nat)>) {
    forall p | p in ps :: KeepsMatch(s, u, p)
  }

  /** What a patience diff is made with; `tight` if the list may be short of room. */
  datatype Draw = Draw(lcs: Lcs, mix: Mix, seed: nat, nl: nat, tight: bool)

  ghost predicate Looks(d: Draw, s: Sides, a: seq<nat>, b: seq<nat>) {
    Sees(d.nl, s, a, b) && s.mix == d.mix && s.seed == d.seed
  }

  /** Nothing to anchor on: no line found once on each side, or the inner diff of the anchors gave up. */
  ghost predicate Unanchored(lcs: Lcs, s: Sides) {
    s.ia == [] || s.ib == [] || lcs(s.ha, s.hb).None?
  }

  /** Nothing to anchor on, and the inner diff of the tokens gives up as well. */
  ghost predicate GivesUp(d: Draw, a: seq<nat>, b: seq<nat>) {
    exists s: Sides :: Looks(d, s, a, b) && Unanchored(d.lcs, s) && d.lcs(a, b).None?
  }

  ghost function Replaced(a: seq<nat>, b: seq<nat>): seq<Op> {
    Repeat(DEL, |a|) + Repeat(INS, |b|)
  }

  ghost function LineA(s: Sides, i: nat): Line {
    if i < |s.ia| && s.ia[i] < |s.la| then s.la[s.ia[i]] else Line(0, 0, 0)
  }

  ghost function LineB(s: Sides, j: nat): Line {
    if j < |s.ib| && s.ib[j] < |s.lb| then s.lb[s.ib[j]] else Line(0, 0, 0)
  }

  /** Where the last matched anchor ends, on each side. */
  ghost function EndA(s: Sides, ps: seq<(nat, nat)>): nat {
    if ps == [] then 0 else LineA(s, ps[|ps| - 1].0).hi
  }

  ghost function EndB(s: Sides, ps: seq<(nat, nat)>): nat {
    if ps == [] then 0 else LineB(s, ps[|ps| - 1].1).hi
  }

  /** The script of two stretches: one-sided, or patient in its turn; all replaced only where the inner diff gives up,
    * or the list is short of room. */
  ghost predicate Drawn(d: Draw, a: seq<nat>, b: seq<nat>, u: seq<Op>)
    decreases |a| + |b|, 2
  {
    if a == [] || b == [] then u == Replaced(a, b)
    else
      || (u == Replaced(a, b) && (d.tight || GivesUp(d, a, b)))
      || exists s: Sides :: Looks(d, s, a, b) && Patient(d, s, u)
  }

  /** The script up to the last matched anchor: before each anchor the script of what lies between it and the one
    * before, then the anchor kept whole. */
  ghost predicate Laid(d: Draw, s: Sides, ps: seq<(nat, nat)>, u: seq<Op>)
    decreases |s.a| + |s.b|, 0, |ps|
  {
    if ps == [] then u == []
    else
      var m, x, y := ps[..|ps| - 1], LineA(s, ps[|ps| - 1].0), LineB(s, ps[|ps| - 1].1);
      && x.lo < x.hi
      && exists v, w :: Laid(d, s, m, v) && Between(d, s, m, x, y, v, w) && u == v + w + Repeat(EQ, x.hi - x.lo)
  }

  /** `w` is the script between the anchors `ps`, scripted by `v`, and the anchor of lines `x` and `y`. */
  ghost predicate Between(d: Draw, s: Sides, ps: seq<(nat, nat)>, x: Line, y: Line, v: seq<Op>, w: seq<Op>)
    decreases |s.a| + |s.b|, 0, |ps|
  {
    && EndA(s, ps) <= x.lo < x.hi <= |s.a| && EndB(s, ps) <= y.lo < y.hi <= |s.b|
    && Drawn(d, s.a[EndA(s, ps)..x.lo], s.b[EndB(s, ps)..y.lo], w)
    && Aligns(v + w, s.a[..x.lo], s.b[..y.lo])
  }

  /** `w` is the script behind the last of the anchors. */
  ghost predicate Trails(d: Draw, s: Sides, ps: seq<(nat, nat)>, w: seq<Op>)
    decreases |s.a| + |s.b|, 0
  {
    0 < EndA(s, ps) <= |s.a| && EndB(s, ps) <= |s.b| && Drawn(d, s.a[EndA(s, ps)..], s.b[EndB(s, ps)..], w)
  }

  /** What patience promises of its script: all matched anchors kept whole and every stretch between them diffed the
    * same way, or, without any, the plain diff. */
  ghost predicate Patient(d: Draw, s: Sides, u: seq<Op>)
    decreases |s.a| + |s.b|, 1
  {
    if Unanchored(d.lcs, s) then d.lcs(s.a, s.b).Some? && u == Units(d.lcs(s.a, s.b).value)
    else
      var ps := Pairs(d.lcs(s.ha, s.hb).value, 0, 0);
      exists v, w :: Laid(d, s, ps, v) && Trails(d, s, ps, w) && u == v + w
  }

  lemma KeepsMore(s: Sides, u: seq<Op>, w: seq<Op>, ps: seq<(nat, nat)>)
    requires KeepsAll(s, u, ps)
    ensures KeepsAll(s, u + w, ps)
  {
    hide Aligns, Repeat;
    forall q | q in ps
      ensures KeepsMatch(s, u + w, q)
    {
      assert KeepsMatch(s, u, q);
      var x, y := s.la[s.ia[q.0]], s.lb[s.ib[q.1]];
      var p: nat :| KeepsAt(u, s.a, s.b, x, y, p);
      assert (u + w)[..p] == u[..p] && (u + w)[p..p + (x.hi - x.lo)] == u[p..p + (x.hi - x.lo)];
      assert KeepsAt(u + w, s.a, s.b, x, y, p);
    }
  }

  /** One more matched anchor, and the script before it. */
  lemma LaidMore(d: Draw, s: Sides, ps: seq<(nat, nat)>, p: (nat, nat), v: seq<Op>, w: seq<Op>)
    requires Laid(d, s, ps, v) && Between(d, s, ps, LineA(s, p.0), LineB(s, p.1), v, w)
    ensures var x := LineA(s, p.0);
      x.lo < x.hi && Laid(d, s, ps + [p], v + w + Repeat(EQ, x.hi - x.lo))
    ensures EndA(s, ps + [p]) == LineA(s, p.0).hi && EndB(s, ps + [p]) == LineB(s, p.1).hi
  {
    hide Drawn, Aligns, Repeat, LineA, LineB;
    assert (ps + [p])[..|ps|] == ps;
  }

  lemma LaidLast(d: Draw, s: Sides, ps: seq<(nat, nat)>, u: seq<Op>) returns (v: seq<Op>, w: seq<Op>)
    requires Laid(d, s, ps, u) && ps != []
    ensures var m, x, y := ps[..|ps| - 1], LineA(s, ps[|ps| - 1].0), LineB(s, ps[|ps| - 1].1);
      x.lo < x.hi && Laid(d, s, m, v) && Between(d, s, m, x, y, v, w) && u == v + w + Repeat(EQ, x.hi - x.lo)
  {
    hide Drawn, Aligns, Repeat, LineA, LineB, Between;
    var m, x, y := ps[..|ps| - 1], LineA(s, ps[|ps| - 1].0), LineB(s, ps[|ps| - 1].1);
    v, w :| Laid(d, s, m, v) && Between(d, s, m, x, y, v, w) && u == v + w + Repeat(EQ, x.hi - x.lo);
  }

  lemma LaidNone(d: Draw, s: Sides, u: seq<Op>)
    ensures Laid(d, s, [], u) <==> u == []
  {
  }

  /** Anchors laid are anchors kept whole. */
  lemma {:induction false} LaidKeeps(d: Draw, s: Sides, ps: seq<(nat, nat)>, u: seq<Op>)
    requires Laid(d, s, ps, u)
    ensures KeepsAll(s, u, ps)
    decreases |ps|
  {
    hide Aligns, Repeat, Drawn, KeepsMatch, Between, LineA, LineB, Laid;
    if ps != [] {
      var m, p := ps[..|ps| - 1], ps[|ps| - 1];
      var n := LineA(s, p.0).hi - LineA(s, p.0).lo;
      var v, w := LaidLast(d, s, ps, u);
      LaidKeeps(d, s, m, v);
      KeepsMore(s, v, w + Repeat(EQ, n), m);
      KeepsHere(d, s, m, p, v, w);
      assert v + (w + Repeat(EQ, n)) == u;
      assert ps == m + [p];
    }
  }

  lemma KeepsHere(d: Draw, s: Sides, ps: seq<(nat, nat)>, p: (nat, nat), v: seq<Op>, w: seq<Op>)
    requires Between(d, s, ps, LineA(s, p.0), LineB(s, p.1), v, w)
    ensures var x := LineA(s, p.0);
      x.lo < x.hi && KeepsMatch(s, v + w + Repeat(EQ, x.hi - x.lo), p)
  {
    hide Aligns, Repeat, Drawn;
    var x, y := LineA(s, p.0), LineB(s, p.1);
    var n := x.hi - x.lo;
    var u := v + w + Repeat(EQ, n);
    RepeatElements(EQ, n);
    assert u[..|v + w|] == v + w && u[|v + w|..|v + w| + n] == Repeat(EQ, n);
    assert KeepsAt(u, s.a, s.b, x, y, |v + w|);
  }

  /** All matched anchors are kept whole. */
  lemma PatientKeeps(d: Draw, s: Sides, u: seq<Op>)
    requires Patient(d, s, u) && !Unanchored(d.lcs, s)
    ensures KeepsAll(s, u, Pairs(d.lcs(s.ha, s.hb).value, 0, 0))
  {
    hide Laid, Trails, KeepsAll, Pairs;
    var ps := Pairs(d.lcs(s.ha, s.hb).value, 0, 0);
    var v, w :| Laid(d, s, ps, v) && Trails(d, s, ps, w) && u == v + w;
    LaidKeeps(d, s, ps, v);
    KeepsMore(s, v, w, ps);
  }

  // ---------- the matches stitched so far ----------

  /** All matches of the first `ep` entries, and `m` of the next one, are laid, up to `at` and `bt`. */
  ghost predicate Matched(d: Draw, s: Sides, e: seq<Edit>, ep: nat, m: nat, ai: nat, bi: nat, at: nat, bt: nat,
          u: seq<Op>)
  {
    && ep <= |e| && ai == Olds(e[..ep]) && bi == News(e[..ep])
    && LaidTo(d, s, Pairs(e[..ep], 0, 0) + Diagonal(ai, bi, m), at, bt, u)
  }

  ghost predicate LaidTo(d: Draw, s: Sides, ps: seq<(nat, nat)>, at: nat, bt: nat, u: seq<Op>) {
    Laid(d, s, ps, u) && at == EndA(s, ps) && bt == EndB(s, ps)
  }

  lemma MatchedStart(d: Draw, s: Sides, e: seq<Edit>)
    ensures Matched(d, s, e, 0, 0, 0, 0, 0, 0, [])
  {
    assert e[..0] == [];
    assert Pairs(e[..0], 0, 0) + Diagonal(0, 0, 0) == [];
  }

  lemma MatchedSofar(d: Draw, s: Sides, e: seq<Edit>, ep: nat, m: nat, ai: nat, bi: nat, at: nat, bt: nat, u: seq<Op>)
    requires Matched(d, s, e, ep, m, ai, bi, at, bt, u)
    ensures ep <= |e| && LaidTo(d, s, Pairs(e[..ep], 0, 0) + Diagonal(ai, bi, m), at, bt, u)
  {
    hide LaidTo, Pairs, Diagonal;
  }

  lemma MatchedAnchor(d: Draw, s: Sides, e: seq<Edit>, ep: nat, m: nat, ai: nat, bi: nat, at: nat, bt: nat,
          at': nat, bt': nat, u: seq<Op>, u': seq<Op>)
    requires Matched(d, s, e, ep, m, ai, bi, at, bt, u)
    requires ep <= |e|
      && LaidTo(d, s, Pairs(e[..ep], 0, 0) + Diagonal(ai, bi, m) + [(ai + m, bi + m)], at', bt', u')
    ensures Matched(d, s, e, ep, m + 1, ai, bi, at', bt', u')
  {
    hide LaidTo, Pairs, Olds, News, Diagonal;
    var ps := Pairs(e[..ep], 0, 0);
    DiagonalSplit(ai, bi, m, 1);
    DiagonalElements(ai + m, bi + m, 1);
    assert ps + Diagonal(ai, bi, m + 1) == ps + Diagonal(ai, bi, m) + [(ai + m, bi + m)];
  }

  lemma MatchedNext(d: Draw, s: Sides, e: seq<Edit>, ep: nat, ai: nat, bi: nat, at: nat, bt: nat, u: seq<Op>)
    requires ep < |e| && Matched(d, s, e, ep, if e[ep].op == EQ then e[ep].len else 0, ai, bi, at, bt, u)
    ensures var x, y := if e[ep].op == INS then 0 else e[ep].len, if e[ep].op == DEL then 0 else e[ep].len;
      Matched(d, s, e, ep + 1, 0, ai + x, bi + y, at, bt, u)
  {
    hide LaidTo, Pairs, Olds, News;
    var one := e[ep];
    assert e[..ep + 1] == e[..ep] + [one];
    TotalsConcat(e[..ep], [one]);
    PairsConcat(e[..ep], [one], 0, 0);
    PairsOne(one, ai, bi);
    var ps := Pairs(e[..ep], 0, 0);
    assert ps + Diagonal(ai, bi, 0) == ps;
    assert Pairs(e[..ep + 1], 0, 0) + [] == Pairs(e[..ep + 1], 0, 0);
  }

  lemma MatchedAll(d: Draw, s: Sides, e: seq<Edit>, ai: nat, bi: nat, at: nat, bt: nat, u: seq<Op>)
    requires Matched(d, s, e, |e|, 0, ai, bi, at, bt, u)
    ensures LaidTo(d, s, Pairs(e, 0, 0), at, bt, u)
  {
    hide LaidTo, Pairs, Olds, News;
    assert e[..|e|] == e;
    assert Pairs(e, 0, 0) + [] == Pairs(e, 0, 0);
  }

  /** What is laid, and the script behind it. */
  lemma LaidAll(d: Draw, s: Sides, ps: seq<(nat, nat)>, at: nat, bt: nat, u: seq<Op>, v: seq<Op>)
    requires LaidTo(d, s, ps, at, bt, u) && 0 < at <= |s.a| && bt <= |s.b| && Drawn(d, s.a[at..], s.b[bt..], v)
    ensures Laid(d, s, ps, u) && Trails(d, s, ps, v)
  {
    hide Laid, Drawn;
  }

  ghost predicate AnchorsIn(ls: seq<Line>, idx: seq<nat>, h: seq<nat>) {
    && |idx| == |h|
    && (forall k | 0 <= k < |idx| :: idx[k] < |ls| && h[k] == ls[idx[k]].hash)
    && (forall j, k | 0 <= j < k < |idx| :: idx[j] < idx[k])
  }

  /** The token cursor is not past any anchor still to come. */
  ghost predicate Clear(ls: seq<Line>, idx: seq<nat>, at: nat, tok: nat) {
    at <= |idx| && forall k | at <= k < |idx| && idx[k] < |ls| :: tok <= ls[idx[k]].lo
  }

  lemma ClearNext(mix: Mix, seed: nat, t: seq<nat>, ls: seq<Line>, idx: seq<nat>, h: seq<nat>, at: nat)
    requires Tiles(mix, seed, t, ls, |t|) && AnchorsIn(ls, idx, h) && at < |idx|
    ensures idx[at] < |ls| && ls[idx[at]].lo < ls[idx[at]].hi <= |t|
    ensures Clear(ls, idx, at + 1, ls[idx[at]].hi)
  {
    assert LineOk(mix, seed, t, ls[idx[at]]);
    forall k | at + 1 <= k < |idx| && idx[k] < |ls|
      ensures ls[idx[at]].hi <= ls[idx[k]].lo
    {
      TilesAscend(mix, seed, t, ls, |t|, idx[at], idx[k]);
    }
  }

  lemma ClearSkip(ls: seq<Line>, idx: seq<nat>, at: nat, tok: nat, n: nat)
    requires Clear(ls, idx, at, tok) && at + n <= |idx|
    ensures Clear(ls, idx, at + n, tok)
  {
  }

  /** Matched anchors are equal lines. */
  lemma AnchorEqual(s: Sides, i: nat, j: nat)
    requires SidesOk(s) && i < |s.ha| && j < |s.hb| && s.ha[i] == s.hb[j]
    ensures s.ia[i] < |s.la| && s.ib[j] < |s.lb|
    ensures var x, y := s.la[s.ia[i]], s.lb[s.ib[j]];
      x.lo < x.hi <= |s.a| && y.lo < y.hi <= |s.b| && s.a[x.lo..x.hi] == s.b[y.lo..y.hi]
  {
    var x, y := s.la[s.ia[i]], s.lb[s.ib[j]];
    assert LineOk(s.mix, s.seed, s.a, x) && LineOk(s.mix, s.seed, s.b, y);
    assert FoldTellsAt(s.mix, s.seed, s.a, s.b, x.lo, x.hi, y.lo, y.hi);
  }

  /** The stitch so far: the list covers both sides up to the token cursors. */
  ghost predicate Stitched(s: Sides, es0: seq<Edit>, es: seq<Edit>, u: seq<Op>, at: nat, bt: nat) {
    at <= |s.a| && bt <= |s.b| && Extends(es0, es, u, s.a[..at], s.b[..bt])
  }

  lemma StitchMore(s: Sides, es0: seq<Edit>, es: seq<Edit>, es': seq<Edit>, u: seq<Op>, v: seq<Op>, at: nat, bt: nat,
          at': nat, bt': nat)
    requires Stitched(s, es0, es, u, at, bt) && at <= at' <= |s.a| && bt <= bt' <= |s.b|
    requires Extends(es, es', v, s.a[at..at'], s.b[bt..bt'])
    ensures Stitched(s, es0, es', u + v, at', bt')
  {
    AlignsConcat(u, v, s.a[..at], s.b[..bt], s.a[at..at'], s.b[bt..bt']);
    assert s.a[..at'] == s.a[..at] + s.a[at..at'] && s.b[..bt'] == s.b[..bt] + s.b[bt..bt'];
    assert Units(es0) + (u + v) == Units(es0) + u + v;
  }

  lemma AnchorExtends(es: seq<Edit>, es': seq<Edit>, x: seq<nat>, y: seq<nat>)
    requires es' == AddTo(es, Edit(EQ, |x|)) && x == y && x != []
    ensures Extends(es, es', Repeat(EQ, |x|), x, y)
  {
    AddToUnits(es, Edit(EQ, |x|));
    AllKept(x);
  }

  lemma StitchFull(s: Sides, es0: seq<Edit>, es: seq<Edit>, es': seq<Edit>, cap: nat, u: seq<Op>, at: nat, bt: nat,
          at': nat, bt': nat)
    requires Stitched(s, es0, es, u, at, bt) && at <= at' <= |s.a| && bt <= bt' <= |s.b|
    requires Full(es, es', cap, s.a[at..at'], s.b[bt..bt'])
    ensures Full(es0, es', cap, s.a, s.b)
  {
  }

  /** The anchors' own script, from the cursors on. */
  ghost predicate ScriptAt(s: Sides, e: seq<Edit>, ep: nat, ai: nat, bi: nat) {
    ep <= |e| && ai <= |s.ha| && bi <= |s.hb| && Aligns(Units(e[ep..]), s.ha[ai..], s.hb[bi..])
  }

  lemma RunHead(op: Op, n: nat, u: seq<Op>)
    requires n > 0
    ensures Repeat(op, n) + u != [] && (Repeat(op, n) + u)[0] == op && (Repeat(op, n) + u)[1..] == Repeat(op, n - 1) + u
  {
  }

  lemma DropOne(a: seq<nat>, n: nat)
    requires 0 < n <= |a|
    ensures a[..n] == [a[0]] + a[1..][..n - 1] && a[n..] == a[1..][n - 1..]
  {
  }

  lemma {:induction false} AlignsKept(n: nat, u: seq<Op>, a: seq<nat>, b: seq<nat>)
    requires Aligns(Repeat(EQ, n) + u, a, b)
    ensures n <= |a| && n <= |b| && a[..n] == b[..n] && Aligns(u, a[n..], b[n..])
    decreases n
  {
    hide Repeat;
    if n == 0 {
      RunNone(EQ, u);
    } else {
      RunHead(EQ, n, u);
      AlignsKept(n - 1, u, a[1..], b[1..]);
      DropOne(a, n);
      DropOne(b, n);
    }
  }

  lemma RunNone(op: Op, u: seq<Op>)
    ensures Repeat(op, 0) + u == u
  {
  }

  lemma {:induction false} AlignsDropped(n: nat, u: seq<Op>, a: seq<nat>, b: seq<nat>)
    requires Aligns(Repeat(DEL, n) + u, a, b)
    ensures n <= |a| && Aligns(u, a[n..], b)
    decreases n
  {
    hide Repeat;
    if n == 0 {
      RunNone(DEL, u);
    } else {
      RunHead(DEL, n, u);
      AlignsDropped(n - 1, u, a[1..], b);
      DropOne(a, n);
    }
  }

  lemma {:induction false} AlignsAdded(n: nat, u: seq<Op>, a: seq<nat>, b: seq<nat>)
    requires Aligns(Repeat(INS, n) + u, a, b)
    ensures n <= |b| && Aligns(u, a, b[n..])
    decreases n
  {
    hide Repeat;
    if n == 0 {
      RunNone(INS, u);
    } else {
      RunHead(INS, n, u);
      AlignsAdded(n - 1, u, a, b[1..]);
      DropOne(b, n);
    }
  }

  lemma ScriptStep(s: Sides, e: seq<Edit>, ep: nat, ai: nat, bi: nat)
    requires ScriptAt(s, e, ep, ai, bi) && ep < |e|
    ensures var d := e[ep];
      && (d.op == EQ ==> ScriptAt(s, e, ep + 1, ai + d.len, bi + d.len) && s.ha[ai..ai + d.len] == s.hb[bi..bi + d.len])
      && (d.op == DEL ==> ScriptAt(s, e, ep + 1, ai + d.len, bi))
      && (d.op == INS ==> ScriptAt(s, e, ep + 1, ai, bi + d.len))
  {
    hide Units, Aligns;
    var d, x, y := e[ep], s.ha[ai..], s.hb[bi..];
    UnitsHead(e, ep);
    match d.op {
      case EQ => AlignsKept(d.len, Units(e[ep + 1..]), x, y);
      case DEL => AlignsDropped(d.len, Units(e[ep + 1..]), x, y);
      case INS => AlignsAdded(d.len, Units(e[ep + 1..]), x, y);
    }
    if d.op != INS {
      assert x[d.len..] == s.ha[ai + d.len..] && x[..d.len] == s.ha[ai..ai + d.len];
    }
    if d.op != DEL {
      assert y[d.len..] == s.hb[bi + d.len..] && y[..d.len] == s.hb[bi..bi + d.len];
    }
  }

  lemma UnitsHead(e: seq<Edit>, ep: nat)
    requires ep < |e|
    ensures Units(e[ep..]) == Repeat(e[ep].op, e[ep].len) + Units(e[ep + 1..])
  {
    assert e[ep..][1..] == e[ep + 1..];
  }

  /** An EQ seen so far moved the token cursors on. */
  ghost predicate Moved(e: seq<Edit>, ep: nat, at: nat, bt: nat) {
    ep <= |e| && (EQ in Units(e[..ep]) ==> at > 0 && bt > 0)
  }

  lemma MovedStep(e: seq<Edit>, ep: nat, at: nat, bt: nat, at': nat, bt': nat)
    requires Moved(e, ep, at, bt) && ep < |e| && at <= at' && bt <= bt'
    requires e[ep].op == EQ && e[ep].len > 0 ==> at' > 0 && bt' > 0
    ensures Moved(e, ep + 1, at', bt')
  {
    assert e[..ep + 1] == e[..ep] + [e[ep]];
    UnitsConcat(e[..ep], [e[ep]]);
    UnitsOne(e[ep]);
    RepeatElements(e[ep].op, e[ep].len);
  }

  /** One region between anchors: whatever is left of both sides up to the next anchor. */
  method Region(edl: EditList, lcs: Lcs, mix: Mix, seed: nat, nl: nat, a: seq<nat>, b: seq<nat>, ghost tight: bool)
      returns (ok: bool, ghost u: seq<Op>)
    requires GoodLcs(lcs) && FoldTells(mix, seed, a, b) && edl.Ok() && (tight || Room(edl.es, edl.cap, a, b))
    modifies edl
    ensures edl.Ok()
    ensures ok ==> Extends(old(edl.es), edl.es, u, a, b) && Drawn(Draw(lcs, mix, seed, nl, tight), a, b, u)
    ensures !ok ==> Full(old(edl.es), edl.es, edl.cap, a, b)
    decreases |a| + |b|, 2
  {
    hide GoodLcs, FoldTells, Aligns, Units, Repeat, Sees, Patient, Replaced, Unanchored;
    u := [];
    ghost var d := Draw(lcs, mix, seed, nl, tight);
    ghost var es0 := edl.es;
    ReplacedOne(a, b);
    if |a| == 0 && |b| == 0 {
      NothingExtends(es0);
      return true, u;
    }
    if |a| == 0 {
      ok := edl.AddEntry(INS, |b|);
      u := Repeat(INS, |b|);
      OneSide(es0, INS, |b|, a, b);
      return;
    }
    if |b| == 0 {
      ok := edl.AddEntry(DEL, |a|);
      u := Repeat(DEL, |a|);
      OneSide(es0, DEL, |a|, a, b);
      return;
    }
    ghost var s: Sides;
    ok, u, s := Bram(edl, lcs, mix, seed, nl, a, b, tight);
    if ok {
      return;
    }
    ghost var es1 := edl.es;
    ok := edl.AddEntry(DEL, |a|);
    if !ok {
      return;
    }
    ghost var es2 := edl.es;
    ok := edl.AddEntry(INS, |b|);
    if ok {
      u := Replaced(a, b);
      ReplacedAll(es1, a, b);
    }
  }

  lemma ReplacedOne(a: seq<nat>, b: seq<nat>)
    ensures a == [] && b == [] ==> Replaced(a, b) == []
    ensures a == [] ==> Replaced(a, b) == Repeat(INS, |b|)
    ensures b == [] ==> Replaced(a, b) == Repeat(DEL, |a|)
  {
    assert [] + Repeat(INS, |b|) == Repeat(INS, |b|);
    assert Repeat(DEL, |a|) + [] == Repeat(DEL, |a|);
  }

  lemma NothingExtends(es: seq<Edit>)
    ensures Extends(es, es, [], [], [])
  {
    assert Units(es) + [] == Units(es);
  }

  lemma OneSide(es: seq<Edit>, op: Op, n: nat, a: seq<nat>, b: seq<nat>)
    requires n > 0
    requires (op == INS && a == [] && n == |b|) || (op == DEL && b == [] && n == |a|)
    ensures Extends(es, AddTo(es, Edit(op, n)), Repeat(op, n), a, b)
  {
    AddToUnits(es, Edit(op, n));
    if op == INS {
      AllInserted(n, b);
    } else {
      AllDeleted(n, a);
    }
  }

  lemma ExtendsTwice(es: seq<Edit>, es1: seq<Edit>, es2: seq<Edit>, u: seq<Op>, v: seq<Op>, a: seq<nat>, b: seq<nat>)
    requires Extends(es, es1, u, a, []) && Extends(es1, es2, v, [], b)
    ensures Extends(es, es2, u + v, a, b)
  {
    hide Aligns, Units;
    AlignsConcat(u, v, a, [], [], b);
    assert a + [] == a && [] + b == b;
    assert Units(es) + u + v == Units(es) + (u + v);
  }

  lemma ReplacedAll(es: seq<Edit>, a: seq<nat>, b: seq<nat>)
    requires a != [] && b != []
    ensures Extends(es, AddTo(AddTo(es, Edit(DEL, |a|)), Edit(INS, |b|)), Replaced(a, b), a, b)
  {
    hide Extends, AddTo, Repeat;
    var es1 := AddTo(es, Edit(DEL, |a|));
    OneSide(es, DEL, |a|, a, []);
    OneSide(es1, INS, |b|, [], b);
    ExtendsTwice(es, es1, AddTo(es1, Edit(INS, |b|)), Repeat(DEL, |a|), Repeat(INS, |b|), a, b);
  }

  /** Walks the anchors' script: a region, then the anchor itself, and the rest at the end. */
  method Stitch(edl: EditList, lcs: Lcs, nl: nat, e: seq<Edit>, s: Sides, ghost d: Draw)
      returns (ok: bool, ghost u: seq<Op>)
    requires GoodLcs(lcs) && SidesOk(s) && edl.Ok() && (d.tight || Room(edl.es, edl.cap, s.a, s.b))
    requires d == Draw(lcs, s.mix, s.seed, nl, d.tight)
    requires Valid(e, s.ha, s.hb) && EQ in Units(e)
    modifies edl
    ensures edl.Ok()
    ensures ok ==> Extends(old(edl.es), edl.es, u, s.a, s.b)
    ensures ok ==> exists v, w :: Laid(d, s, Pairs(e, 0, 0), v) && Trails(d, s, Pairs(e, 0, 0), w) && u == v + w
    ensures !ok ==> Full(old(edl.es), edl.es, edl.cap, s.a, s.b)
    decreases |s.a| + |s.b|, 0
  {
    hide GoodLcs, SidesOk, FoldTells, Stitched, ScriptAt, Moved, Clear, Extends, Full, Units, Aligns, Tiles, AnchorsIn,
      Matched, LaidTo, Laid, Trails, Drawn, Sees, Patient, Pairs, Room;
    ghost var es0 := edl.es;
    var ep: nat, ai: nat, bi: nat, at: nat, bt: nat := 0, 0, 0, 0, 0;
    u := [];
    StitchStart(s, e, es0);
    MatchedStart(d, s, e);
    while ep < |e|
      invariant ep <= |e| && edl.Ok() && ScriptAt(s, e, ep, ai, bi) && Moved(e, ep, at, bt)
      invariant ai <= |s.ia| && bi <= |s.ib| && Clear(s.la, s.ia, ai, at) && Clear(s.lb, s.ib, bi, bt)
      invariant Stitched(s, es0, edl.es, u, at, bt) && Matched(d, s, e, ep, 0, ai, bi, at, bt, u)
      decreases |e| - ep
    {
      var one := e[ep];
      ScriptStep(s, e, ep, ai, bi);
      ScriptRange(s, e, ep + 1, if one.op == INS then ai else ai + one.len, if one.op == DEL then bi else bi + one.len);
      if one.op == EQ {
        ghost var at0, bt0 := at, bt;
        for m := 0 to one.len
          invariant edl.Ok() && Clear(s.la, s.ia, ai + m, at) && Clear(s.lb, s.ib, bi + m, bt)
          invariant Stitched(s, es0, edl.es, u, at, bt) && at0 <= at && bt0 <= bt
          invariant m > 0 ==> at > 0 && bt > 0
          invariant Matched(d, s, e, ep, m, ai, bi, at, bt, u)
        {
          SliceMeets(s.ha, s.hb, ai, bi, one.len, m);
          ghost var v, at1, bt1 := u, at, bt;
          MatchedSofar(d, s, e, ep, m, ai, bi, at, bt, u);
          ghost var ps := Pairs(e[..ep], 0, 0) + Diagonal(ai, bi, m);
          ok, u := StitchAnchor(edl, lcs, nl, s, ai + m, bi + m, at, bt, es0, u, d, ps);
          if !ok {
            return;
          }
          at, bt := s.la[s.ia[ai + m]].hi, s.lb[s.ib[bi + m]].hi;
          MatchedAnchor(d, s, e, ep, m, ai, bi, at1, bt1, at, bt, v, u);
        }
        MovedStep(e, ep, at0, bt0, at, bt);
        MatchedNext(d, s, e, ep, ai, bi, at, bt, u);
        ai, bi := ai + one.len, bi + one.len;
      } else if one.op == DEL {
        ClearSkip(s.la, s.ia, ai, at, one.len);
        MovedStep(e, ep, at, bt, at, bt);
        MatchedNext(d, s, e, ep, ai, bi, at, bt, u);
        ai := ai + one.len;
      } else {
        ClearSkip(s.lb, s.ib, bi, bt, one.len);
        MovedStep(e, ep, at, bt, at, bt);
        MatchedNext(d, s, e, ep, ai, bi, at, bt, u);
        bi := bi + one.len;
      }
      ep := ep + 1;
    }
    StitchTail(s, e, es0, edl.es, u, at, bt);
    RoomLeft(s, es0, edl.es, edl.cap, u, at, bt, |s.a|, |s.b|);
    ghost var v: seq<Op>;
    ghost var es1 := edl.es;
    assert s.a[at..] == s.a[at..|s.a|] && s.b[bt..] == s.b[bt..|s.b|];
    ok, v := Region(edl, lcs, s.mix, s.seed, nl, s.a[at..], s.b[bt..], d.tight);
    if !ok {
      StitchFull(s, es0, es1, edl.es, edl.cap, u, at, bt, |s.a|, |s.b|);
      return;
    }
    StitchMore(s, es0, es1, edl.es, u, v, at, bt, |s.a|, |s.b|);
    MatchedAll(d, s, e, ai, bi, at, bt, u);
    LaidAll(d, s, Pairs(e, 0, 0), at, bt, u, v);
    u := u + v;
    StitchAll(s, es0, edl.es, u);
  }

  /** With room for all of both sides there is room for what is left of them. */
  lemma RoomLeft(s: Sides, es0: seq<Edit>, es: seq<Edit>, cap: nat, u: seq<Op>, at: nat, bt: nat, at': nat, bt': nat)
    requires Stitched(s, es0, es, u, at, bt) && at <= at' <= |s.a| && bt <= bt' <= |s.b|
    ensures Room(es0, cap, s.a, s.b) ==> Room(es, cap, s.a[at..at'], s.b[bt..bt'])
  {
    hide Aligns, Units;
  }

  lemma SliceMeets(x: seq<nat>, y: seq<nat>, i: nat, j: nat, n: nat, m: nat)
    requires i + n <= |x| && j + n <= |y| && x[i..i + n] == y[j..j + n] && m < n
    ensures x[i + m] == y[j + m]
  {
    assert x[i..i + n][m] == y[j..j + n][m];
  }

  lemma StitchStart(s: Sides, e: seq<Edit>, es: seq<Edit>)
    requires Valid(e, s.ha, s.hb)
    ensures ScriptAt(s, e, 0, 0, 0) && Moved(e, 0, 0, 0) && Stitched(s, es, es, [], 0, 0)
    ensures Clear(s.la, s.ia, 0, 0) && Clear(s.lb, s.ib, 0, 0)
  {
    assert e[0..] == e && s.ha[0..] == s.ha && s.hb[0..] == s.hb;
    NothingExtends(es);
  }

  lemma ScriptRange(s: Sides, e: seq<Edit>, ep: nat, ai: nat, bi: nat)
    requires ScriptAt(s, e, ep, ai, bi) && SidesOk(s)
    ensures ai <= |s.ha| == |s.ia| && bi <= |s.hb| == |s.ib|
  {
  }

  lemma StitchTail(s: Sides, e: seq<Edit>, es0: seq<Edit>, es: seq<Edit>, u: seq<Op>, at: nat, bt: nat)
    requires Stitched(s, es0, es, u, at, bt) && Moved(e, |e|, at, bt) && EQ in Units(e) && SidesOk(s)
    ensures 0 < at <= |s.a| && 0 < bt <= |s.b| && FoldTells(s.mix, s.seed, s.a[at..], s.b[bt..])
  {
    assert e[..|e|] == e;
    FoldTellsPart(s.mix, s.seed, s.a, s.b, at, |s.a|, bt, |s.b|);
    assert s.a[at..] == s.a[at..|s.a|] && s.b[bt..] == s.b[bt..|s.b|];
  }

  lemma StitchAll(s: Sides, es0: seq<Edit>, es: seq<Edit>, u: seq<Op>)
    requires Stitched(s, es0, es, u, |s.a|, |s.b|)
    ensures Extends(es0, es, u, s.a, s.b)
  {
    assert s.a[..|s.a|] == s.a && s.b[..|s.b|] == s.b;
  }

  lemma AnchorReady(s: Sides, i: nat, j: nat, at: nat, bt: nat, es0: seq<Edit>, es: seq<Edit>, u: seq<Op>)
    requires SidesOk(s) && i < |s.ha| && j < |s.hb| && s.ha[i] == s.hb[j]
    requires Clear(s.la, s.ia, i, at) && Clear(s.lb, s.ib, j, bt) && Stitched(s, es0, es, u, at, bt)
    ensures i < |s.ia| && j < |s.ib| && s.ia[i] < |s.la| && s.ib[j] < |s.lb|
    ensures var x, y := s.la[s.ia[i]], s.lb[s.ib[j]];
      && at <= x.lo < x.hi <= |s.a| && bt <= y.lo < y.hi <= |s.b| && s.a[x.lo..x.hi] == s.b[y.lo..y.hi]
      && FoldTells(s.mix, s.seed, s.a[at..x.lo], s.b[bt..y.lo])
      && Clear(s.la, s.ia, i + 1, x.hi) && Clear(s.lb, s.ib, j + 1, y.hi)
  {
    AnchorEqual(s, i, j);
    ClearNext(s.mix, s.seed, s.a, s.la, s.ia, s.ha, i);
    ClearNext(s.mix, s.seed, s.b, s.lb, s.ib, s.hb, j);
    FoldTellsPart(s.mix, s.seed, s.a, s.b, at, s.la[s.ia[i]].lo, bt, s.lb[s.ib[j]].lo);
  }

  /** The region before one matched anchor, then the anchor as one kept run. */
  method StitchAnchor(edl: EditList, lcs: Lcs, nl: nat, s: Sides, i: nat, j: nat, at: nat, bt: nat,
        ghost es0: seq<Edit>, ghost u0: seq<Op>, ghost d: Draw, ghost ps: seq<(nat, nat)>)
      returns (ok: bool, ghost u: seq<Op>)
    requires GoodLcs(lcs) && SidesOk(s) && edl.Ok() && (d.tight || Room(es0, edl.cap, s.a, s.b))
    requires d == Draw(lcs, s.mix, s.seed, nl, d.tight) && LaidTo(d, s, ps, at, bt, u0)
    requires i < |s.ha| && j < |s.hb| && s.ha[i] == s.hb[j]
    requires Clear(s.la, s.ia, i, at) && Clear(s.lb, s.ib, j, bt) && Stitched(s, es0, edl.es, u0, at, bt)
    modifies edl
    ensures i < |s.ia| && j < |s.ib| && s.ia[i] < |s.la| && s.ib[j] < |s.lb|
    ensures edl.Ok()
    ensures var x, y := s.la[s.ia[i]], s.lb[s.ib[j]];
      && at <= x.lo < x.hi && bt <= y.lo < y.hi
      && (ok ==> Stitched(s, es0, edl.es, u, x.hi, y.hi))
      && (ok ==> Clear(s.la, s.ia, i + 1, x.hi) && Clear(s.lb, s.ib, j + 1, y.hi))
      && (ok ==> LaidTo(d, s, ps + [(i, j)], x.hi, y.hi, u))
    ensures !ok ==> Full(es0, edl.es, edl.cap, s.a, s.b)
    decreases |s.a| + |s.b|, 0, 0
  {
    hide GoodLcs, SidesOk, FoldTells, Stitched, Clear, Extends, Full, Sees, Patient, Laid, Drawn, Aligns, Room;
    ghost var es1 := edl.es;
    AnchorReady(s, i, j, at, bt, es0, es1, u0);
    var x, y := s.la[s.ia[i]], s.lb[s.ib[j]];
    RoomLeft(s, es0, es1, edl.cap, u0, at, bt, x.lo, y.lo);
    ghost var v: seq<Op>;
    ok, v := Region(edl, lcs, s.mix, s.seed, nl, s.a[at..x.lo], s.b[bt..y.lo], d.tight);
    u := u0 + v;
    if !ok {
      StitchFull(s, es0, es1, edl.es, edl.cap, u0, at, bt, x.lo, y.lo);
      return;
    }
    ghost var es2 := edl.es;
    StitchMore(s, es0, es1, es2, u0, v, at, bt, x.lo, y.lo);
    ok := edl.AddEntry(EQ, x.hi - x.lo);
    if !ok {
      FullHere(es2, edl.es, edl.cap, s.a[x.lo..x.hi], s.b[y.lo..y.hi]);
      StitchFull(s, es0, es2, edl.es, edl.cap, u, x.lo, y.lo, x.hi, y.hi);
      return;
    }
    AnchorExtends(es2, edl.es, s.a[x.lo..x.hi], s.b[y.lo..y.hi]);
    StitchMore(s, es0, es2, edl.es, u, Repeat(EQ, x.hi - x.lo), x.lo, y.lo, x.hi, y.hi);
    StitchedAligns(s, es0, es2, u, x.lo, y.lo);
    LaidMore(d, s, ps, (i, j), u0, v);
    u := u + Repeat(EQ, x.hi - x.lo);
  }

  lemma StitchedAligns(s: Sides, es0: seq<Edit>, es: seq<Edit>, u: seq<Op>, at: nat, bt: nat)
    requires Stitched(s, es0, es, u, at, bt)
    ensures at <= |s.a| && bt <= |s.b| && Aligns(u, s.a[..at], s.b[..bt])
  {
    hide Aligns;
  }

  lemma FullHere(es: seq<Edit>, es': seq<Edit>, cap: nat, x: seq<nat>, y: seq<nat>)
    requires es' == es && |es| == cap && x != []
    ensures Full(es, es', cap, x, y)
  {
  }

  /** Patience diff: OK means the list grew by a script from `a` to `b`, patient all the way down; otherwise it is
    * untouched, or full with less room than both sides have tokens. */
  method Bram(edl: EditList, lcs: Lcs, mix: Mix, seed: nat, nl: nat, a: seq<nat>, b: seq<nat>, ghost tight: bool)
      returns (ok: bool, ghost u: seq<Op>, ghost s: Sides)
    requires GoodLcs(lcs) && FoldTells(mix, seed, a, b) && edl.Ok() && (tight || Room(edl.es, edl.cap, a, b))
    modifies edl
    ensures edl.Ok()
    ensures ok ==> Extends(old(edl.es), edl.es, u, a, b)
    ensures !ok ==> GaveUp(old(edl.es), edl.es, edl.cap, a, b)
    ensures var d := Draw(lcs, mix, seed, nl, tight);
      && (ok && (a == [] || b == []) ==> u == Replaced(a, b))
      && (ok && a != [] && b != [] ==> Looks(d, s, a, b) && Patient(d, s, u))
      && (!ok && !tight ==> a != [] && b != [] && GivesUp(d, a, b))
    decreases |a| + |b|, 1
  {
    hide GoodLcs, FoldTells, Aligns, Units, Repeat, Tiles, Picked, Anchor, AllAnchors, Broken, Laid, Trails, Replaced,
      Full;
    u, s := [], Sides(mix, seed, a, b, [], [], [], [], [], []);
    ghost var d := Draw(lcs, mix, seed, nl, tight);
    ghost var es0 := edl.es;
    ReplacedOne(a, b);
    if |a| == 0 && |b| == 0 {
      NothingExtends(es0);
      return true, u, s;
    }
    if |a| == 0 {
      ok := edl.AddEntry(INS, |b|);
      u := Repeat(INS, |b|);
      OneSide(es0, INS, |b|, a, b);
      return;
    }
    if |b| == 0 {
      ok := edl.AddEntry(DEL, |a|);
      u := Repeat(DEL, |a|);
      OneSide(es0, DEL, |a|, a, b);
      return;
    }
    var la := SplitLines(mix, seed, nl, a);
    var lb := SplitLines(mix, seed, nl, b);
    if |la| == 0 || |lb| == 0 {
      s := Sides(mix, seed, a, b, la, lb, [], [], [], []);
      NoLinesNoAnchors(la, lb, la);
      NoLinesNoAnchors(la, lb, lb);
      assert Looks(d, s, a, b) && Unanchored(lcs, s);
      ok, u := RunLcs(edl, lcs, a, b);
      return;
    }
    var fa, fb := MarkAnchors(la, lb);
    var ia, ha := PickAnchors(la, fa);
    var ib, hb := PickAnchors(lb, fb);
    var sides := Sides(mix, seed, a, b, la, lb, ia, ib, ha, hb);
    s := sides;
    PickedAll(la, lb, la, fa, ia, ha);
    PickedAll(la, lb, lb, fb, ib, hb);
    PickedIn(la, fa, ia, ha);
    PickedIn(lb, fb, ib, hb);
    assert Looks(d, s, a, b);
    if |ia| == 0 || |ib| == 0 {
      ok, u := RunLcs(edl, lcs, a, b);
      return;
    }
    match lcs(ha, hb)
    case None =>
      ok, u := RunLcs(edl, lcs, a, b);
    case Some(e) =>
      AnchorsMeet(sides);
      AnchorsReady(lcs, mix, seed, a, b, la, lb, fa, fb, ia, ib, ha, hb);
      ok, u := Stitch(edl, lcs, nl, e, sides, d);
      RoomNotFull(es0, edl.es, edl.cap, a, b);
  }

  lemma RoomNotFull(es: seq<Edit>, es': seq<Edit>, cap: nat, a: seq<nat>, b: seq<nat>)
    ensures Room(es, cap, a, b) ==> !Full(es, es', cap, a, b)
  {
  }

  lemma PickedIn(ls: seq<Line>, f: seq<bool>, idx: seq<nat>, h: seq<nat>)
    requires Picked(ls, f, |ls|, idx, h)
    ensures AnchorsIn(ls, idx, h)
  {
  }

  lemma AnchorsReady(lcs: Lcs, mix: Mix, seed: nat, a: seq<nat>, b: seq<nat>, la: seq<Line>, lb: seq<Line>,
          fa: seq<bool>, fb: seq<bool>,
        ia: seq<nat>, ib: seq<nat>, ha: seq<nat>, hb: seq<nat>)
    requires GoodLcs(lcs) && lcs(ha, hb).Some? && Shares(ha, hb) && FoldTells(mix, seed, a, b)
    requires Tiles(mix, seed, a, la, |a|) && Tiles(mix, seed, b, lb, |b|)
    requires Picked(la, fa, |la|, ia, ha) && Picked(lb, fb, |lb|, ib, hb)
    ensures SidesOk(Sides(mix, seed, a, b, la, lb, ia, ib, ha, hb))
    ensures Valid(lcs(ha, hb).value, ha, hb) && EQ in Units(lcs(ha, hb).value)
  {
    hide Tiles, FoldTells;
    assert LcsAt(lcs, ha, hb);
  }

  // ---------- what is shared is not all replaced ----------

  lemma {:induction false} KeptPairs(e: seq<Edit>, i: nat, j: nat)
    requires EQ in Units(e)
    ensures Pairs(e, i, j) != []
    decreases |e|
  {
    RepeatElements(e[0].op, e[0].len);
    DiagonalElements(i, j, e[0].len);
    if e[0].op != EQ || e[0].len == 0 {
      KeptPairs(e[1..], i + (if e[0].op == INS then 0 else e[0].len), j + (if e[0].op == DEL then 0 else e[0].len));
    }
  }

  /** Inputs that share a token never come out with nothing kept. */
  lemma SharedKept(d: Draw, s: Sides, a: seq<nat>, b: seq<nat>, u: seq<Op>)
    requires GoodLcs(d.lcs) && Looks(d, s, a, b) && Patient(d, s, u) && Shares(a, b)
    ensures EQ in u
  {
    hide FoldTells, Aligns, Units, Tiles, Broken, Anchor, Pairs, KeepsAll, Patient;
    assert LcsAt(d.lcs, s.a, s.b) && LcsAt(d.lcs, s.ha, s.hb);
    if Unanchored(d.lcs, s) {
      PatientPlain(d, s, u);
    } else {
      var e := d.lcs(s.ha, s.hb).value;
      AnchorsMeet(s);
      KeptPairs(e, 0, 0);
      PatientKeeps(d, s, u);
      var p := Pairs(e, 0, 0)[0];
      KeptOne(s, u, Pairs(e, 0, 0), p);
    }
  }

  lemma PatientPlain(d: Draw, s: Sides, u: seq<Op>)
    requires Patient(d, s, u) && Unanchored(d.lcs, s)
    ensures d.lcs(s.a, s.b).Some? && u == Units(d.lcs(s.a, s.b).value)
  {
  }

  lemma KeptOne(s: Sides, u: seq<Op>, ps: seq<(nat, nat)>, p: (nat, nat))
    requires SidesOk(s) && KeepsAll(s, u, ps) && p in ps
    ensures EQ in u
  {
    hide FoldTells, Aligns, Tiles, AnchorsIn;
    assert KeepsMatch(s, u, p);
    var x, y := s.la[s.ia[p.0]], s.lb[s.ib[p.1]];
    AnchorLine(s, s.ia[p.0]);
    var at: nat :| KeepsAt(u, s.a, s.b, x, y, at);
    RepeatElements(EQ, x.hi - x.lo);
    assert u[at..at + (x.hi - x.lo)][0] == u[at];
  }

  /** Nor does any stretch between anchors, unless the inner diff gives it up. */
  lemma StretchKept(d: Draw, a: seq<nat>, b: seq<nat>, u: seq<Op>)
    requires GoodLcs(d.lcs) && !d.tight && Drawn(d, a, b, u) && Shares(a, b)
    ensures EQ in u || GivesUp(d, a, b)
  {
    hide Looks, Patient, GoodLcs, Replaced;
    if a != [] && b != [] && !GivesUp(d, a, b) {
      var s: Sides :| Looks(d, s, a, b) && Patient(d, s, u);
      SharedKept(d, s, a, b, u);
    }
  }

  lemma AnchorLine(s: Sides, k: nat)
    requires SidesOk(s) && k < |s.la|
    ensures s.la[k].lo < s.la[k].hi
  {
    assert LineOk(s.mix, s.seed, s.a, s.la[k]);
  }

  /** An anchor of one side has its partner on the other: the anchor hashes share one. */
  lemma AnchorsMeet(s: Sides)
    requires AnchorsIn(s.la, s.ia, s.ha) && AnchorsIn(s.lb, s.ib, s.hb) && s.ia != []
    requires AllAnchors(s.la, s.lb, s.la, s.ia) && AllAnchors(s.la, s.lb, s.lb, s.ib)
    ensures Shares(s.ha, s.hb)
  {
    hide LinesWith;
    var h := s.la[s.ia[0]].hash;
    assert s.ia[0] in s.ia;
    var y := LineWith(s.lb, h);
    assert y in s.ib;
    var k :| 0 <= k < |s.ib| && s.ib[k] == y;
    assert s.ha[0] == h && s.hb[k] == h;
    assert h in s.ha && h in s.hb;
  }

  // ---------- there is one patient script ----------

  ghost predicate Rises(x: seq<nat>) {
    forall j, k | 0 <= j < k < |x| :: x[j] < x[k]
  }

  ghost predicate Alike(x: seq<nat>, y: seq<nat>) {
    forall e: nat :: e in x <==> e in y
  }

  lemma RisesLast(x: seq<nat>)
    requires Rises(x) && x != []
    ensures var m, l := x[..|x| - 1], x[|x| - 1];
      Rises(m) && l in x && forall e: nat :: (e in x ==> e <= l) && (e in m <==> e in x && e != l)
  {
    var m, l := x[..|x| - 1], x[|x| - 1];
    assert x == m + [l];
    forall e: nat
      ensures (e in x ==> e <= l) && (e in m <==> e in x && e != l)
    {
      if e in m {
        var k :| 0 <= k < |m| && m[k] == e;
        assert x[k] < x[|m|];
      }
    }
  }

  lemma AlikeEmpty(x: seq<nat>, y: seq<nat>)
    requires Alike(x, y)
    ensures x == [] <==> y == []
  {
    if x != [] {
      assert x[0] in x;
    }
    if y != [] {
      assert y[0] in y;
    }
  }

  lemma {:induction false} AscendUnique(x: seq<nat>, y: seq<nat>)
    requires Rises(x) && Rises(y) && Alike(x, y)
    ensures x == y
    decreases |x|
  {
    hide Rises;
    AlikeEmpty(x, y);
    if x != [] {
      RisesLast(x);
      RisesLast(y);
      assert x[|x| - 1] == y[|y| - 1];
      AscendUnique(x[..|x| - 1], y[..|y| - 1]);
      assert x == x[..|x| - 1] + [x[|x| - 1]] && y == y[..|y| - 1] + [y[|y| - 1]];
    }
  }

  /** What a step looks at is given by the two sides. */
  lemma LooksUnique(d: Draw, a: seq<nat>, b: seq<nat>, s: Sides, t: Sides)
    requires Looks(d, s, a, b) && Looks(d, t, a, b)
    ensures s == t
  {
    hide Tiles, Broken, FoldTells, Anchor;
    SplitUnique(d.mix, d.seed, d.nl, a, s.la, t.la);
    SplitUnique(d.mix, d.seed, d.nl, b, s.lb, t.lb);
    PickUnique(s.la, s.lb, s.la, s.ia, s.ha, t.ia, t.ha);
    PickUnique(s.la, s.lb, s.lb, s.ib, s.hb, t.ib, t.hb);
  }

  lemma PickUnique(la: seq<Line>, lb: seq<Line>, ls: seq<Line>, x: seq<nat>, g: seq<nat>, y: seq<nat>, h: seq<nat>)
    requires AnchorsIn(ls, x, g) && AllAnchors(la, lb, ls, x) && AnchorsIn(ls, y, h) && AllAnchors(la, lb, ls, y)
    ensures x == y && g == h
  {
    hide Anchor;
    forall e: nat
      ensures e in x <==> e in y
    {
      assert e in x ==> 0 <= e < |ls|;
      assert e in y ==> 0 <= e < |ls|;
    }
    AscendUnique(x, y);
  }

  lemma {:induction false} DrawnUnique(d: Draw, a: seq<nat>, b: seq<nat>, u: seq<Op>, u': seq<Op>)
    requires !d.tight && Drawn(d, a, b, u) && Drawn(d, a, b, u')
    ensures u == u'
    decreases |a| + |b|, 2
  {
    hide Looks, Replaced;
    if a != [] && b != [] && u != u' {
      var s: Sides :| Looks(d, s, a, b);
      DrawnWith(d, a, b, u, s);
      DrawnWith(d, a, b, u', s);
      LooksSides(d, s, a, b);
      if Patient(d, s, u) && Patient(d, s, u') {
        PatientUnique(d, s, u, u');
      } else {
        PatientSome(d, s, u);
        PatientSome(d, s, u');
      }
    }
  }

  lemma LooksSides(d: Draw, s: Sides, a: seq<nat>, b: seq<nat>)
    requires Looks(d, s, a, b)
    ensures s.a == a && s.b == b
  {
  }

  lemma PatientSome(d: Draw, s: Sides, u: seq<Op>)
    ensures Patient(d, s, u) ==> !Unanchored(d.lcs, s) || d.lcs(s.a, s.b).Some?
  {
  }

  lemma DrawnWith(d: Draw, a: seq<nat>, b: seq<nat>, u: seq<Op>, s: Sides)
    requires !d.tight && Drawn(d, a, b, u) && a != [] && b != [] && Looks(d, s, a, b)
    ensures (u == Replaced(a, b) && Unanchored(d.lcs, s) && d.lcs(a, b).None?) || Patient(d, s, u)
  {
    hide Looks, Replaced, Patient, Unanchored;
    forall t: Sides | Looks(d, t, a, b)
      ensures s == t
    {
      LooksUnique(d, a, b, s, t);
    }
  }

  /** Given room, the inner diff leaves one patient script: the promise says which, to the last step. */
  lemma {:induction false} PatientUnique(d: Draw, s: Sides, u: seq<Op>, u': seq<Op>)
    requires !d.tight && Patient(d, s, u) && Patient(d, s, u')
    ensures u == u'
    decreases |s.a| + |s.b|, 1
  {
    hide Laid, Drawn, Pairs, Units;
    if !Unanchored(d.lcs, s) {
      var ps := Pairs(d.lcs(s.ha, s.hb).value, 0, 0);
      var v, w :| Laid(d, s, ps, v) && Trails(d, s, ps, w) && u == v + w;
      var v', w' :| Laid(d, s, ps, v') && Trails(d, s, ps, w') && u' == v' + w';
      LaidUnique(d, s, ps, v, v');
      DrawnUnique(d, s.a[EndA(s, ps)..], s.b[EndB(s, ps)..], w, w');
    }
  }

  lemma {:induction false} LaidUnique(d: Draw, s: Sides, ps: seq<(nat, nat)>, u: seq<Op>, u': seq<Op>)
    requires !d.tight && Laid(d, s, ps, u) && Laid(d, s, ps, u')
    ensures u == u'
    decreases |s.a| + |s.b|, 0, |ps|
  {
    hide Drawn, Aligns, Repeat, Laid, LineA, LineB;
    LaidNone(d, s, u);
    LaidNone(d, s, u');
    if ps != [] {
      var m, x, y := ps[..|ps| - 1], LineA(s, ps[|ps| - 1].0), LineB(s, ps[|ps| - 1].1);
      var v, w := LaidLast(d, s, ps, u);
      var v', w' := LaidLast(d, s, ps, u');
      LaidUnique(d, s, m, v, v');
      DrawnUnique(d, s.a[EndA(s, m)..x.lo], s.b[EndB(s, m)..y.lo], w, w');
    }
  }
}
