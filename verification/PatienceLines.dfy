/** Lines of token hashes, and the anchors: lines found exactly once on each side. */
module PatienceLines {
  import opened Common

  /** One step of the line hash. */
  type Mix = (nat, nat) -> nat

  /** A line: its folded hash and its token range. */
  datatype Line = Line(hash: nat, lo: nat, hi: nat)

  function Fold(mix: Mix, seed: nat, h: seq<nat>): nat {
    if h == [] then seed else mix(Fold(mix, seed, h[..|h| - 1]), h[|h| - 1])
  }

  ghost predicate LineOk(mix: Mix, seed: nat, h: seq<nat>, l: Line) {
    l.lo < l.hi <= |h| && l.hash == Fold(mix, seed, h[l.lo..l.hi])
  }

  /** The lines tile the first `n` tokens. */
  ghost predicate Tiles(mix: Mix, seed: nat, h: seq<nat>, lines: seq<Line>, n: nat) {
    && (forall k | 0 <= k < |lines| :: LineOk(mix, seed, h, lines[k]))
    && (forall k | 0 <= k < |lines| :: lines[k].lo == if k == 0 then 0 else lines[k - 1].hi)
    && n == (if lines == [] then 0 else lines[|lines| - 1].hi)
  }

  lemma TilesSnoc(mix: Mix, seed: nat, h: seq<nat>, lines: seq<Line>, n: nat, l: Line)
    requires Tiles(mix, seed, h, lines, n) && LineOk(mix, seed, h, l) && l.lo == n
    ensures Tiles(mix, seed, h, lines + [l], l.hi)
  {
  }

  lemma {:induction false} TilesAscend(mix: Mix, seed: nat, h: seq<nat>, lines: seq<Line>, n: nat, i: nat, j: nat)
    requires Tiles(mix, seed, h, lines, n) && i < j < |lines|
    ensures lines[i].hi <= lines[j].lo
    decreases j
  {
    assert LineOk(mix, seed, h, lines[j - 1]);
    if i < j - 1 {
      TilesAscend(mix, seed, h, lines, n, i, j - 1);
    }
  }

  /** No newline hash inside the line. */
  ghost predicate Whole(nl: nat, h: seq<nat>, l: Line) {
    l.hi <= |h| && forall i | l.lo <= i < l.hi - 1 :: h[i] != nl
  }

  ghost predicate Ended(nl: nat, h: seq<nat>, l: Line) {
    l.lo < l.hi <= |h| && h[l.hi - 1] == nl
  }

  /** Broken behind every newline hash and nowhere else; a last line may lack one. */
  ghost predicate Broken(nl: nat, h: seq<nat>, lines: seq<Line>) {
    && (forall k | 0 <= k < |lines| :: Whole(nl, h, lines[k]))
    && (forall k | 0 <= k < |lines| - 1 :: Ended(nl, h, lines[k]))
  }

  lemma BrokenSnoc(nl: nat, h: seq<nat>, lines: seq<Line>, l: Line)
    requires Broken(nl, h, lines) && (lines != [] ==> Ended(nl, h, lines[|lines| - 1])) && Whole(nl, h, l)
    ensures Broken(nl, h, lines + [l])
  {
  }

  /** Splits the hashes after every newline hash; a last line may lack one. */
  method SplitLines(mix: Mix, seed: nat, nl: nat, h: seq<nat>) returns (lines: seq<Line>)
    ensures Tiles(mix, seed, h, lines, |h|) && Broken(nl, h, lines)
  {
    hide Tiles, Broken;
    lines := [];
    var start, f: nat := 0, seed;
    TilesNone(mix, seed, nl, h);
    for i := 0 to |h|
      invariant start <= i && Tiles(mix, seed, h, lines, start) && f == Fold(mix, seed, h[start..i])
      invariant Broken(nl, h, lines) && (lines != [] ==> Ended(nl, h, lines[|lines| - 1]))
      invariant forall j | start <= j < i :: h[j] != nl
    {
      assert h[start..i + 1][..i - start] == h[start..i];
      f := mix(f, h[i]);
      if h[i] == nl {
        TilesSnoc(mix, seed, h, lines, start, Line(f, start, i + 1));
        BrokenSnoc(nl, h, lines, Line(f, start, i + 1));
        lines := lines + [Line(f, start, i + 1)];
        start := i + 1;
        f := seed;
      }
    }
    if start < |h| {
      TilesSnoc(mix, seed, h, lines, start, Line(f, start, |h|));
      BrokenSnoc(nl, h, lines, Line(f, start, |h|));
      lines := lines + [Line(f, start, |h|)];
    }
  }

  /** Where line `k` starts. */
  ghost function StartOf(x: seq<Line>, k: nat): nat
    requires k <= |x|
  {
    if k == 0 then 0 else x[..k][k - 1].hi
  }

  lemma TileStarts(mix: Mix, seed: nat, h: seq<nat>, x: seq<Line>, k: nat)
    requires Tiles(mix, seed, h, x, |h|) && k < |x|
    ensures LineOk(mix, seed, h, x[k]) && x[k].lo == StartOf(x, k) < |h|
  {
    hide Fold;
    assert LineOk(mix, seed, h, x[k]);
    assert k > 0 ==> x[..k][k - 1] == x[k - 1];
  }

  /** A line ends no later than a whole one from the same start. */
  lemma LineStops(mix: Mix, seed: nat, nl: nat, h: seq<nat>, x: seq<Line>, k: nat, m: Line)
    requires Tiles(mix, seed, h, x, |h|) && Broken(nl, h, x) && k < |x| && Whole(nl, h, m) && m.lo == x[k].lo
    ensures m.hi <= x[k].hi
  {
    hide Fold;
    assert LineOk(mix, seed, h, x[k]);
    if k < |x| - 1 {
      assert Ended(nl, h, x[k]);
    }
  }

  /** The first `k` lines of two splits are the same. */
  lemma {:induction false} SplitPrefix(mix: Mix, seed: nat, nl: nat, h: seq<nat>, x: seq<Line>, y: seq<Line>, k: nat)
    requires Tiles(mix, seed, h, x, |h|) && Broken(nl, h, x) && Tiles(mix, seed, h, y, |h|) && Broken(nl, h, y)
    requires k <= |x| && k <= |y|
    ensures x[..k] == y[..k]
  {
    hide Fold, Tiles;
    if k > 0 {
      SplitPrefix(mix, seed, nl, h, x, y, k - 1);
      var l, m := x[k - 1], y[k - 1];
      TileStarts(mix, seed, h, x, k - 1);
      TileStarts(mix, seed, h, y, k - 1);
      LineStops(mix, seed, nl, h, x, k - 1, m);
      LineStops(mix, seed, nl, h, y, k - 1, l);
      assert x[..k] == x[..k - 1] + [l] && y[..k] == y[..k - 1] + [m];
    }
  }

  lemma TilesEnd(mix: Mix, seed: nat, h: seq<nat>, x: seq<Line>)
    requires Tiles(mix, seed, h, x, |h|)
    ensures StartOf(x, |x|) == |h|
  {
    assert x[..|x|] == x;
  }

  /** There is one way to split. */
  lemma SplitUnique(mix: Mix, seed: nat, nl: nat, h: seq<nat>, x: seq<Line>, y: seq<Line>)
    requires Tiles(mix, seed, h, x, |h|) && Broken(nl, h, x) && Tiles(mix, seed, h, y, |h|) && Broken(nl, h, y)
    ensures x == y
  {
    hide Tiles, Broken, LineOk;
    var k := if |x| < |y| then |x| else |y|;
    SplitPrefix(mix, seed, nl, h, x, y, k);
    TilesEnd(mix, seed, h, x);
    TilesEnd(mix, seed, h, y);
    assert x[..|x|] == x && y[..|y|] == y;
    if |x| < |y| {
      TileStarts(mix, seed, h, y, |x|);
    } else if |y| < |x| {
      TileStarts(mix, seed, h, x, |y|);
    }
  }

  lemma TilesNone(mix: Mix, seed: nat, nl: nat, h: seq<nat>)
    ensures Tiles(mix, seed, h, [], 0) && Broken(nl, h, [])
  {
  }

  // ---------- counting a hash on each side ----------

  /** A line hash, its line index, and its side. */
  datatype Pair = Pair(hash: nat, idx: nat, side: nat)

  predicate PairLe(a: Pair, b: Pair) {
    a.hash < b.hash || (a.hash == b.hash && a.side <= b.side)
  }

  function PlacePair(ps: seq<Pair>, p: Pair): seq<Pair> {
    if ps == [] || PairLe(ps[|ps| - 1], p) then ps + [p]
    else PlacePair(ps[..|ps| - 1], p) + [ps[|ps| - 1]]
  }

  /** The pairs by hash, then side. */
  function SortPairs(ps: seq<Pair>): seq<Pair> {
    if ps == [] then [] else PlacePair(SortPairs(ps[..|ps| - 1]), ps[|ps| - 1])
  }

  ghost predicate Ascends(ps: seq<Pair>) {
    forall i, j | 0 <= i < j < |ps| :: ps[i].hash <= ps[j].hash
  }

  ghost function Count(ps: seq<Pair>, h: nat, side: nat): nat {
    if ps == [] then 0
    else Count(ps[..|ps| - 1], h, side) + if ps[|ps| - 1].hash == h && ps[|ps| - 1].side == side then 1 else 0
  }

  lemma CountSnoc(ps: seq<Pair>, p: Pair, h: nat, side: nat)
    ensures Count(ps + [p], h, side) == Count(ps, h, side) + if p.hash == h && p.side == side then 1 else 0
  {
    assert (ps + [p])[..|ps|] == ps;
  }

  lemma {:induction false} CountConcat(ps: seq<Pair>, qs: seq<Pair>, h: nat, side: nat)
    ensures Count(ps + qs, h, side) == Count(ps, h, side) + Count(qs, h, side)
  {
    if qs == [] {
      assert ps + qs == ps;
    } else {
      var m, q := qs[..|qs| - 1], qs[|qs| - 1];
      assert ps + qs == ps + m + [q] && qs == m + [q];
      CountConcat(ps, m, h, side);
      CountSnoc(ps + m, q, h, side);
    }
  }

  lemma {:induction false} CountNone(ps: seq<Pair>, h: nat, side: nat)
    requires forall k | 0 <= k < |ps| :: ps[k].hash != h
    ensures Count(ps, h, side) == 0
  {
    if ps != [] {
      CountNone(ps[..|ps| - 1], h, side);
    }
  }

  lemma {:induction false} PlaceFacts(ps: seq<Pair>, p: Pair)
    requires Ascends(ps)
    ensures Ascends(PlacePair(ps, p)) && |PlacePair(ps, p)| == |ps| + 1
    ensures forall q :: q in PlacePair(ps, p) <==> q in ps || q == p
    ensures forall h: nat, side: nat :: Count(PlacePair(ps, p), h, side) == Count(ps + [p], h, side)
  {
    if ps != [] && !PairLe(ps[|ps| - 1], p) {
      var m, l := ps[..|ps| - 1], ps[|ps| - 1];
      assert ps == m + [l];
      PlaceFacts(m, p);
      var r := PlacePair(m, p);
      forall q | q in r
        ensures q.hash <= l.hash
      {
        if q in m {
          var i :| 0 <= i < |m| && m[i] == q;
          assert ps[i].hash <= ps[|m|].hash;
        }
      }
      AscendsSnoc(r, l);
      forall h: nat, side: nat
        ensures Count(PlacePair(ps, p), h, side) == Count(ps + [p], h, side)
      {
        CountSnoc(r, l, h, side);
        CountSnoc(m, p, h, side);
        CountSnoc(m, l, h, side);
        CountSnoc(ps, p, h, side);
      }
    } else {
      forall q | q in ps
        ensures q.hash <= p.hash
      {
        var i :| 0 <= i < |ps| && ps[i] == q;
        assert i < |ps| - 1 ==> ps[i].hash <= ps[|ps| - 1].hash;
      }
      AscendsSnoc(ps, p);
    }
  }

  lemma AscendsSnoc(ps: seq<Pair>, p: Pair)
    requires Ascends(ps) && forall q | q in ps :: q.hash <= p.hash
    ensures Ascends(ps + [p])
  {
    forall i, j | 0 <= i < j < |ps| + 1
      ensures (ps + [p])[i].hash <= (ps + [p])[j].hash
    {
      if j == |ps| {
        assert ps[i] in ps;
      }
    }
  }

  lemma {:induction false} SortFacts(ps: seq<Pair>)
    ensures Ascends(SortPairs(ps))
    ensures forall q :: q in SortPairs(ps) <==> q in ps
    ensures forall h: nat, side: nat :: Count(SortPairs(ps), h, side) == Count(ps, h, side)
  {
    if ps != [] {
      var m, p := ps[..|ps| - 1], ps[|ps| - 1];
      assert ps == m + [p];
      SortFacts(m);
      PlaceFacts(SortPairs(m), p);
      forall h: nat, side: nat
        ensures Count(SortPairs(ps), h, side) == Count(ps, h, side)
      {
        CountSnoc(SortPairs(m), p, h, side);
        CountSnoc(m, p, h, side);
      }
    }
  }

  /** How many lines have the hash. */
  ghost function LinesWith(ls: seq<Line>, h: nat): nat {
    if ls == [] then 0 else LinesWith(ls[..|ls| - 1], h) + if ls[|ls| - 1].hash == h then 1 else 0
  }

  ghost predicate Anchor(la: seq<Line>, lb: seq<Line>, h: nat) {
    LinesWith(la, h) == 1 && LinesWith(lb, h) == 1
  }

  /** One line has the hash: it is the only one. */
  lemma {:induction false} OnlyLine(ls: seq<Line>, h: nat, i: nat, j: nat)
    requires LinesWith(ls, h) <= 1 && i < |ls| && j < |ls| && ls[i].hash == h == ls[j].hash
    ensures i == j
  {
    var m := ls[..|ls| - 1];
    if i < |m| && j < |m| {
      OnlyLine(m, h, i, j);
    } else if i != j {
      SomeLine(m, h, if i < |m| then i else j);
    }
  }

  lemma {:induction false} SomeLine(ls: seq<Line>, h: nat, i: nat)
    requires i < |ls| && ls[i].hash == h
    ensures LinesWith(ls, h) > 0
  {
    if i < |ls| - 1 {
      SomeLine(ls[..|ls| - 1], h, i);
    }
  }

  lemma {:induction false} LineWith(ls: seq<Line>, h: nat) returns (i: nat)
    requires LinesWith(ls, h) > 0
    ensures i < |ls| && ls[i].hash == h
  {
    if ls[|ls| - 1].hash == h {
      i := |ls| - 1;
    } else {
      i := LineWith(ls[..|ls| - 1], h);
    }
  }

  // ---------- marking the anchors ----------

  /** The pairs of one side, in line order. */
  function PairsOf(ls: seq<Line>, side: nat, n: nat): seq<Pair>
    requires n <= |ls|
  {
    if n == 0 then [] else PairsOf(ls, side, n - 1) + [Pair(ls[n - 1].hash, n - 1, side)]
  }

  lemma {:induction false} PairsOfElements(ls: seq<Line>, side: nat, n: nat)
    requires n <= |ls|
    ensures forall p | p in PairsOf(ls, side, n) :: p.side == side && p.idx < n && p.hash == ls[p.idx].hash
    ensures forall i: nat | i < n :: Pair(ls[i].hash, i, side) in PairsOf(ls, side, n)
  {
    if n > 0 {
      PairsOfElements(ls, side, n - 1);
    }
  }

  lemma {:induction false} PairsOfCount(ls: seq<Line>, side: nat, n: nat, h: nat, s: nat)
    requires n <= |ls|
    ensures Count(PairsOf(ls, side, n), h, s) == if s == side then LinesWith(ls[..n], h) else 0
  {
    hide Count;
    if n > 0 {
      PairsOfCount(ls, side, n - 1, h, s);
      assert ls[..n][..n - 1] == ls[..n - 1];
      CountSnoc(PairsOf(ls, side, n - 1), Pair(ls[n - 1].hash, n - 1, side), h, s);
    } else {
      assert Count([], h, s) == 0 by {
        CountNone([], h, s);
      }
    }
  }

  /** The sorted pairs of both sides. */
  ghost predicate AllPairs(la: seq<Line>, lb: seq<Line>, ps: seq<Pair>) {
    && Ascends(ps)
    && (forall p | p in ps :: PairOk(la, lb, p))
    && (forall i: nat | i < |la| :: Pair(la[i].hash, i, 0) in ps)
    && (forall i: nat | i < |lb| :: Pair(lb[i].hash, i, 1) in ps)
    && (forall h: nat {:trigger Counted(la, lb, ps, h)} :: Counted(la, lb, ps, h))
  }

  ghost predicate PairOk(la: seq<Line>, lb: seq<Line>, p: Pair) {
    || (p.side == 0 && p.idx < |la| && p.hash == la[p.idx].hash)
    || (p.side == 1 && p.idx < |lb| && p.hash == lb[p.idx].hash)
  }

  ghost predicate Counted(la: seq<Line>, lb: seq<Line>, ps: seq<Pair>, h: nat) {
    Count(ps, h, 0) == LinesWith(la, h) && Count(ps, h, 1) == LinesWith(lb, h)
  }

  lemma BothCounted(la: seq<Line>, lb: seq<Line>, h: nat)
    ensures Counted(la, lb, PairsOf(la, 0, |la|) + PairsOf(lb, 1, |lb|), h)
  {
    hide PairsOf, Count, LinesWith;
    var pa, pb := PairsOf(la, 0, |la|), PairsOf(lb, 1, |lb|);
    assert la[..|la|] == la && lb[..|lb|] == lb;
    CountConcat(pa, pb, h, 0);
    CountConcat(pa, pb, h, 1);
    PairsOfCount(la, 0, |la|, h, 0);
    PairsOfCount(la, 0, |la|, h, 1);
    PairsOfCount(lb, 1, |lb|, h, 0);
    PairsOfCount(lb, 1, |lb|, h, 1);
  }

  lemma BothPairs(la: seq<Line>, lb: seq<Line>)
    ensures var ps := PairsOf(la, 0, |la|) + PairsOf(lb, 1, |lb|);
      && (forall p | p in ps :: PairOk(la, lb, p))
      && (forall i: nat | i < |la| :: Pair(la[i].hash, i, 0) in ps)
      && (forall i: nat | i < |lb| :: Pair(lb[i].hash, i, 1) in ps)
  {
    hide PairsOf;
    PairsOfElements(la, 0, |la|);
    PairsOfElements(lb, 1, |lb|);
  }

  lemma AllPairsSorted(la: seq<Line>, lb: seq<Line>)
    ensures AllPairs(la, lb, SortPairs(PairsOf(la, 0, |la|) + PairsOf(lb, 1, |lb|)))
  {
    hide SortPairs, PairsOf, Count, LinesWith, Ascends, PairOk;
    var ps := PairsOf(la, 0, |la|) + PairsOf(lb, 1, |lb|);
    SortFacts(ps);
    BothPairs(la, lb);
    forall h: nat
      ensures Counted(la, lb, SortPairs(ps), h)
    {
      BothCounted(la, lb, h);
    }
  }

  /** One group of equal hashes: how many on each side, and one line of each. */
  ghost predicate GroupIs(la: seq<Line>, lb: seq<Line>, g: seq<Pair>, h: nat, ca: nat, cb: nat, ia: nat, ib: nat) {
    && (forall k | 0 <= k < |g| :: g[k].hash == h)
    && ca == Count(g, h, 0) && cb == Count(g, h, 1)
    && (ca > 0 ==> ia < |la| && la[ia].hash == h)
    && (cb > 0 ==> ib < |lb| && lb[ib].hash == h)
  }

  lemma GroupSnoc(la: seq<Line>, lb: seq<Line>, g: seq<Pair>, h: nat, ca: nat, cb: nat, ia: nat, ib: nat, p: Pair)
    requires GroupIs(la, lb, g, h, ca, cb, ia, ib) && PairOk(la, lb, p) && p.hash == h
    ensures p.side == 0 ==> GroupIs(la, lb, g + [p], h, ca + 1, cb, p.idx, ib)
    ensures p.side != 0 ==> GroupIs(la, lb, g + [p], h, ca, cb + 1, ia, p.idx)
  {
    CountSnoc(g, p, h, 0);
    CountSnoc(g, p, h, 1);
  }

  method CountGroup(la: seq<Line>, lb: seq<Line>, ps: seq<Pair>, i: nat)
      returns (j: nat, ca: nat, cb: nat, ia: nat, ib: nat)
    requires AllPairs(la, lb, ps) && i < |ps|
    ensures i < j <= |ps| && GroupIs(la, lb, ps[i..j], ps[i].hash, ca, cb, ia, ib)
    ensures j < |ps| ==> ps[j].hash != ps[i].hash
  {
    hide GroupIs;
    j, ca, cb, ia, ib := i, 0, 0, 0, 0;
    GroupNone(la, lb, ps[i..j], ps[i].hash);
    while j < |ps| && ps[j].hash == ps[i].hash
      invariant i <= j <= |ps| && GroupIs(la, lb, ps[i..j], ps[i].hash, ca, cb, ia, ib)
    {
      assert ps[j] in ps;
      GroupSnoc(la, lb, ps[i..j], ps[i].hash, ca, cb, ia, ib, ps[j]);
      assert ps[i..j + 1] == ps[i..j] + [ps[j]];
      if ps[j].side == 0 {
        ca, ia := ca + 1, ps[j].idx;
      } else {
        cb, ib := cb + 1, ps[j].idx;
      }
      j := j + 1;
    }
  }

  lemma GroupNone(la: seq<Line>, lb: seq<Line>, g: seq<Pair>, h: nat)
    requires g == []
    ensures GroupIs(la, lb, g, h, 0, 0, 0, 0)
  {
  }

  /** A group between smaller and larger hashes holds every pair with its hash. */
  lemma GroupWhole(ps: seq<Pair>, i: nat, j: nat, h: nat, side: nat)
    requires Ascends(ps) && i < j <= |ps| && ps[i].hash == h
    requires i > 0 ==> ps[i - 1].hash != h
    requires j < |ps| ==> ps[j].hash != h
    requires forall k | i <= k < j :: ps[k].hash == h
    ensures Count(ps, h, side) == Count(ps[i..j], h, side)
  {
    hide Count;
    assert ps == ps[..i] + ps[i..j] + ps[j..];
    CountConcat(ps[..i] + ps[i..j], ps[j..], h, side);
    CountConcat(ps[..i], ps[i..j], h, side);
    CountNone(ps[..i], h, side);
    CountNone(ps[j..], h, side);
  }

  /** The hash is among the first `i` pairs. */
  ghost predicate Met(ps: seq<Pair>, i: nat, h: nat) {
    exists k :: 0 <= k < i && k < |ps| && ps[k].hash == h
  }

  /** Marked so far: the anchors among the hashes met. */
  ghost predicate Marked(la: seq<Line>, lb: seq<Line>, ls: seq<Line>, ps: seq<Pair>, i: nat, f: seq<bool>) {
    |f| == |ls| && forall x | 0 <= x < |ls| :: f[x] <==> Anchor(la, lb, ls[x].hash) && Met(ps, i, ls[x].hash)
  }

  lemma MetGroup(ps: seq<Pair>, i: nat, j: nat, h: nat, x: nat)
    requires i < j <= |ps| && forall k | i <= k < j :: ps[k].hash == h
    ensures Met(ps, j, x) <==> Met(ps, i, x) || x == h
  {
    if Met(ps, i, x) {
      var k :| 0 <= k < i && k < |ps| && ps[k].hash == x;
      assert k < j;
    }
    if x == h {
      assert ps[i].hash == x;
    }
  }

  /** A group of exactly one line on each side marks exactly that line. */
  lemma MarkGroup(la: seq<Line>, lb: seq<Line>, ls: seq<Line>, ps: seq<Pair>, i: nat, j: nat, f: seq<bool>, h: nat,
          hit: bool, at: nat)
    requires Marked(la, lb, ls, ps, i, f) && i < j <= |ps| && (forall k | i <= k < j :: ps[k].hash == h)
    requires !Met(ps, i, h)
    requires ls == la || ls == lb
    requires hit == Anchor(la, lb, h) && (hit ==> at < |ls| && ls[at].hash == h)
    ensures Marked(la, lb, ls, ps, j, if hit then f[at := true] else f)
  {
    hide Anchor, Met;
    forall x | 0 <= x < |ls|
      ensures (if hit then f[at := true] else f)[x] <==> Anchor(la, lb, ls[x].hash) && Met(ps, j, ls[x].hash)
    {
      MetGroup(ps, i, j, h, ls[x].hash);
      if hit && ls[x].hash == h {
        AnchorOnce(la, lb, ls, h, x, at);
      }
    }
  }

  lemma AnchorOnce(la: seq<Line>, lb: seq<Line>, ls: seq<Line>, h: nat, x: nat, y: nat)
    requires Anchor(la, lb, h) && (ls == la || ls == lb) && x < |ls| && y < |ls| && ls[x].hash == h == ls[y].hash
    ensures x == y
  {
    OnlyLine(ls, h, x, y);
  }

  lemma NotMet(ps: seq<Pair>, i: nat)
    requires Ascends(ps) && i < |ps| && (i > 0 ==> ps[i - 1].hash != ps[i].hash)
    ensures !Met(ps, i, ps[i].hash)
  {
    if Met(ps, i, ps[i].hash) {
      var k :| 0 <= k < i && k < |ps| && ps[k].hash == ps[i].hash;
      BetweenEqual(ps, k, i);
    }
  }

  lemma BetweenEqual(ps: seq<Pair>, k: nat, i: nat)
    requires Ascends(ps) && k < i < |ps| && ps[k].hash == ps[i].hash
    ensures ps[i - 1].hash == ps[i].hash
  {
  }

  /** A line is marked exactly when its hash occurs once on each side. */
  method MarkAnchors(la: seq<Line>, lb: seq<Line>) returns (fa: seq<bool>, fb: seq<bool>)
    ensures |fa| == |la| && forall x | 0 <= x < |la| :: fa[x] <==> Anchor(la, lb, la[x].hash)
    ensures |fb| == |lb| && forall x | 0 <= x < |lb| :: fb[x] <==> Anchor(la, lb, lb[x].hash)
  {
    hide AllPairs, Anchor, Marked, GroupIs, PairsOf;
    var ps := SortPairs(PairsOf(la, 0, |la|) + PairsOf(lb, 1, |lb|));
    AllPairsSorted(la, lb);
    fa, fb := seq(|la|, _ => false), seq(|lb|, _ => false);
    MarkedNone(la, lb, la, ps, fa);
    MarkedNone(la, lb, lb, ps, fb);
    var i := 0;
    while i < |ps|
      invariant i <= |ps| && (0 < i < |ps| ==> ps[i - 1].hash != ps[i].hash)
      invariant Marked(la, lb, la, ps, i, fa) && Marked(la, lb, lb, ps, i, fb)
      decreases |ps| - i
    {
      var j, ca, cb, ia, ib := CountGroup(la, lb, ps, i);
      GroupDecides(la, lb, ps, i, j, ca, cb, ia, ib);
      MarkGroup(la, lb, la, ps, i, j, fa, ps[i].hash, ca == 1 && cb == 1, ia);
      MarkGroup(la, lb, lb, ps, i, j, fb, ps[i].hash, ca == 1 && cb == 1, ib);
      MarkedLen(la, lb, la, ps, i, fa);
      MarkedLen(la, lb, lb, ps, i, fb);
      if ca == 1 && cb == 1 {
        fa := fa[ia := true];
        fb := fb[ib := true];
      }
      i := j;
    }
    MarkedAll(la, lb, la, ps, 0, fa);
    MarkedAll(la, lb, lb, ps, 1, fb);
  }

  lemma MarkedLen(la: seq<Line>, lb: seq<Line>, ls: seq<Line>, ps: seq<Pair>, i: nat, f: seq<bool>)
    requires Marked(la, lb, ls, ps, i, f)
    ensures |f| == |ls|
  {
  }

  lemma MarkedNone(la: seq<Line>, lb: seq<Line>, ls: seq<Line>, ps: seq<Pair>, f: seq<bool>)
    requires |f| == |ls| && forall x | 0 <= x < |f| :: !f[x]
    ensures Marked(la, lb, ls, ps, 0, f)
  {
  }

  lemma GroupDecides(la: seq<Line>, lb: seq<Line>, ps: seq<Pair>, i: nat, j: nat, ca: nat, cb: nat, ia: nat, ib: nat)
    requires AllPairs(la, lb, ps) && i < j <= |ps| && (i > 0 ==> ps[i - 1].hash != ps[i].hash)
    requires GroupIs(la, lb, ps[i..j], ps[i].hash, ca, cb, ia, ib) && (j < |ps| ==> ps[j].hash != ps[i].hash)
    ensures !Met(ps, i, ps[i].hash)
    ensures forall k | i <= k < j :: ps[k].hash == ps[i].hash
    ensures (ca == 1 && cb == 1) == Anchor(la, lb, ps[i].hash)
    ensures ca == 1 && cb == 1 ==> ia < |la| && la[ia].hash == ps[i].hash && ib < |lb| && lb[ib].hash == ps[i].hash
    ensures j < |ps| ==> ps[j - 1].hash != ps[j].hash
  {
    hide Count, LinesWith;
    var h, g := ps[i].hash, ps[i..j];
    forall k | i <= k < j
      ensures ps[k].hash == h
    {
      assert g[k - i] == ps[k];
    }
    NotMet(ps, i);
    GroupWhole(ps, i, j, h, 0);
    GroupWhole(ps, i, j, h, 1);
    assert Counted(la, lb, ps, h);
  }

  lemma MarkedAll(la: seq<Line>, lb: seq<Line>, ls: seq<Line>, ps: seq<Pair>, side: nat, f: seq<bool>)
    requires AllPairs(la, lb, ps) && Marked(la, lb, ls, ps, |ps|, f)
    requires (side == 0 && ls == la) || (side == 1 && ls == lb)
    ensures |f| == |ls| && forall x | 0 <= x < |ls| :: f[x] <==> Anchor(la, lb, ls[x].hash)
  {
    hide Anchor;
    forall x: nat | x < |ls|
      ensures Met(ps, |ps|, ls[x].hash)
    {
      assert Pair(ls[x].hash, x, side) in ps;
      var k :| 0 <= k < |ps| && ps[k] == Pair(ls[x].hash, x, side);
    }
  }
}
