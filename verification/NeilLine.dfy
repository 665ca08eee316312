/** Scripts over two texts that differ at marked tokens only: each change replaces an interval around its marks by
  * itself, and a slide moves the interval to where the boundaries at its two ends score best. */
module NeilLine {
  import opened Common
  import opened Script
  import opened EditLists
  import opened EditCanon
  import opened NeilTokens
  import opened NeilCleanup
  import opened NeilShift

  /** A token of the line: how the boundary before it scores, and whether the two texts differ there. */
  datatype Spot = Spot(score: nat, mark: bool)

  /** Up to five: what the scores of boundaries between tokens come to. */
  ghost predicate LineOk(line: seq<Spot>) {
    forall i | 0 <= i < |line| :: line[i].score <= 5
  }

  /** The last byte of a token and the first of the next, for a boundary of that score. */
  function Ends(score: nat): (Byte, Byte) {
    match score
    case 1 => (46, 97)
    case 2 => (32, 97)
    case 3 => (46, 32)
    case 4 => (10, 97)
    case 5 => (10, 10)
    case _ => (97, 97)
  }

  function ScoreAt(line: seq<Spot>, i: nat): nat {
    if i < |line| then line[i].score else 0
  }

  function Middle(line: seq<Spot>, i: nat, fresh_: bool): Byte {
    if fresh_ && i < |line| && line[i].mark then 13 else NEWLINE
  }

  /** Three bytes a token, the middle one a line break; the marked ones differ there. */
  function ByteAt(line: seq<Spot>, fresh_: bool, q: nat): Byte {
    if q % 3 == 0 then Ends(ScoreAt(line, q / 3)).1
    else if q % 3 == 1 then Middle(line, q / 3, fresh_)
    else Ends(ScoreAt(line, q / 3 + 1)).0
  }

  function TextOf(line: seq<Spot>, fresh_: bool): Toks {
    Toks(seq(3 * |line|, (q: nat) => ByteAt(line, fresh_, q)), seq(|line|, (i: nat) => 3 * i + 3), seq(|line|, i => 0))
  }

  lemma TokenIs(line: seq<Spot>, fresh_: bool, i: nat)
    requires i < |line|
    ensures |TextOf(line, fresh_).ends| == |line|
    ensures TextAt(TextOf(line, fresh_), i)
         == [Ends(ScoreAt(line, i)).1, Middle(line, i, fresh_), Ends(ScoreAt(line, i + 1)).0]
  {
    hide Ends, Middle, ScoreAt;
    var t := TextOf(line, fresh_);
    assert Lo(t, i) == 3 * i && Hi(t, i) == 3 * i + 3;
    var s := t.src[3 * i..3 * i + 3];
    assert s[0] == ByteAt(line, fresh_, 3 * i) && s[1] == ByteAt(line, fresh_, 3 * i + 1);
    assert s[2] == ByteAt(line, fresh_, 3 * i + 2);
  }

  /** No token is an identifier; the texts agree where there is no mark and differ where there is one. */
  lemma TokensAgree(line: seq<Spot>, i: nat)
    requires i < |line|
    ensures !IsIdent(TextOf(line, false), i)
    ensures TokEq(TextOf(line, false), i, TextOf(line, true), i) <==> !line[i].mark
  {
    hide TextAt, TextOf, Ends, ScoreAt;
    TokenIs(line, false, i);
    TokenIs(line, true, i);
    var a, b := TextAt(TextOf(line, false), i), TextAt(TextOf(line, true), i);
    assert !IsWord(a[1]);
    assert line[i].mark ==> a[1] != b[1];
  }

  lemma BoundaryIs(line: seq<Spot>, fresh_: bool, i: nat)
    requires LineOk(line) && 0 < i < |line|
    ensures BoundaryScore(TextOf(line, fresh_), i) == line[i].score
  {
    hide TextAt, TextOf, Middle;
    TokenIs(line, fresh_, i - 1);
    TokenIs(line, fresh_, i);
    var t := TextOf(line, fresh_);
    assert TextAt(t, i - 1)[2] == Ends(line[i].score).0 && TextAt(t, i)[0] == Ends(line[i].score).1;
  }

  // ---------- where an interval slides ----------

  function EndsScore(line: seq<Spot>, s: nat, len: nat): nat {
    ScoreAt(line, s) + ScoreAt(line, s + len)
  }

  /** A change that replaces `len` tokens by `len` tokens at the same place. */
  ghost predicate Even(line: seq<Spot>, r: Region, s: nat, len: nat) {
    && r.oi == r.ni && s == r.oi + r.n1 && r.del == r.ins == len && len > 0 && s + len + r.n2 <= |line|
  }

  lemma EvenScore(line: seq<Spot>, r: Region, s: nat, len: nat, y: int)
    requires LineOk(line) && Even(line, r, s, len) && 0 < s + y && s + y + len < |line|
    ensures ShiftScore(TextOf(line, false), TextOf(line, true), s, s, len, len, y)
         == 2 * EndsScore(line, s + y, len)
  {
    hide BoundaryScore, TextOf;
    var x := s + y;
    BoundaryIs(line, false, x);
    BoundaryIs(line, true, x);
    BoundaryIs(line, false, x + len);
    BoundaryIs(line, true, x + len);
  }

  predicate Marked(line: seq<Spot>, i: int) {
    0 <= i < |line| && line[i].mark
  }

  /** `lo` is as far left as the interval gets: the run before it ends there, or a mark would be left behind. */
  ghost predicate Leftmost(line: seq<Spot>, r: Region, s: nat, len: nat, lo: nat) {
    && r.oi <= lo <= s && (lo == r.oi || Marked(line, lo + len - 1))
    && forall x | lo + len <= x < s + len :: !Marked(line, x)
  }

  ghost predicate Rightmost(line: seq<Spot>, r: Region, s: nat, len: nat, hi: nat) {
    && s <= hi <= s + r.n2 && (hi == s + r.n2 || Marked(line, hi))
    && forall x | s <= x < hi :: !Marked(line, x)
  }

  lemma RoomsAre(line: seq<Spot>, r: Region, s: nat, len: nat, lo: nat, hi: nat)
    requires Even(line, r, s, len) && Leftmost(line, r, s, len, lo) && Rightmost(line, r, s, len, hi)
    ensures LeftRoom(TextOf(line, false), TextOf(line, true), r) == s - lo
    ensures RightRoom(TextOf(line, false), TextOf(line, true), r) == hi - s
  {
    hide TextOf, LeftRoom, RightRoom, IsIdent, TokEq;
    var a, b := TextOf(line, false), TextOf(line, true);
    RoomIsAll(a, b, r);
    LeftSpot(line, r, s, len, LeftRoom(a, b, r));
    LeftSpot(line, r, s, len, s - lo);
    RightSpot(line, r, s, len, RightRoom(a, b, r));
    RightSpot(line, r, s, len, hi - s);
  }

  lemma LeftSpot(line: seq<Spot>, r: Region, s: nat, len: nat, k: nat)
    requires Even(line, r, s, len)
    ensures MayMoveLeft(TextOf(line, false), TextOf(line, true), r, k)
       <==> k < r.n1 && !Marked(line, s + len - 1 - k)
  {
    hide TextOf, IsIdent, TokEq;
    if k < r.n1 {
      TokensAgree(line, s + len - 1 - k);
      TokensAgree(line, s - 1 - k);
      TokenIs(line, true, 0);
      TokenIs(line, false, 0);
    }
  }

  lemma RightSpot(line: seq<Spot>, r: Region, s: nat, len: nat, k: nat)
    requires Even(line, r, s, len)
    ensures MayMoveRight(TextOf(line, false), TextOf(line, true), r, k) <==> k < r.n2 && !Marked(line, s + k)
  {
    hide TextOf, IsIdent, TokEq;
    if k < r.n2 {
      TokensAgree(line, s + k);
      TokensAgree(line, s + len + k);
      TokenIs(line, true, 0);
      TokenIs(line, false, 0);
    }
  }

  /** Of all places from `lo` to `hi`, `to` scores best and is the last that does. */
  ghost predicate Peaks(line: seq<Spot>, len: nat, lo: nat, hi: nat, to: nat) {
    && lo <= to <= hi
    && forall x: nat | lo <= x <= hi ::
         || EndsScore(line, x, len) < EndsScore(line, to, len)
         || (EndsScore(line, x, len) == EndsScore(line, to, len) && x <= to)
  }

  /** The interval slides to the last of the best places between its limits. */
  lemma SlidesTo(line: seq<Spot>, r: Region, s: nat, len: nat, lo: nat, hi: nat, to: nat)
    requires LineOk(line) && Even(line, r, s, len) && 0 < lo && hi + len < |line|
    requires Leftmost(line, r, s, len, lo) && Rightmost(line, r, s, len, hi) && Peaks(line, len, lo, hi, to)
    ensures BestShift(TextOf(line, false), TextOf(line, true), r) == to - s
  {
    hide TextOf, LeftRoom, RightRoom, ShiftScore, EndsScore, Leftmost, Rightmost, BestShift;
    var a, b := TextOf(line, false), TextOf(line, true);
    RoomsAre(line, r, s, len, lo, hi);
    BestShiftBeats(a, b, r);
    var d := BestShift(a, b, r);
    EvenScore(line, r, s, len, d);
    EvenScore(line, r, s, len, to - s);
    assert Beats(a, b, r, d, to - s);
  }

  // ---------- the script of some intervals ----------

  /** The tokens from `s` to `e` are replaced. */
  datatype Iv = Iv(s: nat, e: nat)

  function Prior(ivs: seq<Iv>, p: nat): nat {
    if 0 < p <= |ivs| then ivs[p - 1].e else 0
  }

  function Later(ivs: seq<Iv>, n: nat, p: nat): nat {
    if p < |ivs| then ivs[p].s else n
  }

  /** In order, none empty, all inside `n` tokens. */
  ghost predicate IvsOk(ivs: seq<Iv>, n: nat) {
    && (forall p | 0 <= p <= |ivs| :: Prior(ivs, p) <= Later(ivs, n, p))
    && (forall p | 0 <= p < |ivs| :: ivs[p].s < ivs[p].e)
  }

  function EntryOf(ivs: seq<Iv>, n: nat, q: nat): Edit
    requires q <= 3 * |ivs|
  {
    var p := q / 3;
    if q % 3 == 0 then Edit(EQ, if Prior(ivs, p) <= Later(ivs, n, p) then Later(ivs, n, p) - Prior(ivs, p) else 0)
    else Edit(if q % 3 == 1 then INS else DEL, if ivs[p].s <= ivs[p].e then ivs[p].e - ivs[p].s else 0)
  }

  function ScriptOf(ivs: seq<Iv>, n: nat): (e: seq<Edit>)
    ensures |e| == 3 * |ivs| + 1
  {
    seq(3 * |ivs| + 1, (q: nat) requires q <= 3 * |ivs| => EntryOf(ivs, n, q))
  }

  lemma ScriptAt(ivs: seq<Iv>, n: nat, p: nat)
    requires p <= |ivs| && IvsOk(ivs, n)
    ensures ScriptOf(ivs, n)[3 * p] == Edit(EQ, Later(ivs, n, p) - Prior(ivs, p))
    ensures p < |ivs| ==> ScriptOf(ivs, n)[3 * p + 1] == Edit(INS, ivs[p].e - ivs[p].s)
    ensures p < |ivs| ==> ScriptOf(ivs, n)[3 * p + 2] == Edit(DEL, ivs[p].e - ivs[p].s)
  {
  }

  lemma {:induction false} TotalsTo(ivs: seq<Iv>, n: nat, p: nat)
    requires p <= |ivs| && IvsOk(ivs, n)
    ensures Olds(ScriptOf(ivs, n)[..3 * p]) == News(ScriptOf(ivs, n)[..3 * p]) == Prior(ivs, p)
  {
    hide Olds, News, ScriptOf, IvsOk;
    var e := ScriptOf(ivs, n);
    if p > 0 {
      TotalsTo(ivs, n, p - 1);
      ScriptAt(ivs, n, p - 1);
      GapsFit(ivs, n, p - 1);
      var q := 3 * (p - 1);
      assert e[..q + 3] == e[..q] + [e[q]] + [e[q + 1]] + [e[q + 2]];
      TotalsConcat(e[..q] + [e[q]] + [e[q + 1]], [e[q + 2]]);
      TotalsConcat(e[..q] + [e[q]], [e[q + 1]]);
      TotalsConcat(e[..q], [e[q]]);
      PairsOne(e[q], 0, 0);
      PairsOne(e[q + 1], 0, 0);
      PairsOne(e[q + 2], 0, 0);
    } else {
      assert e[..0] == [];
      NoTotals();
    }
  }

  lemma NoTotals()
    ensures Olds([]) == 0 && News([]) == 0
  {
  }

  lemma GapsFit(ivs: seq<Iv>, n: nat, p: nat)
    requires p <= |ivs| && IvsOk(ivs, n)
    ensures Prior(ivs, p) <= Later(ivs, n, p) && (p < |ivs| ==> ivs[p].s < ivs[p].e)
  {
  }

  /** The region around an interval. */
  function RegionAt(ivs: seq<Iv>, n: nat, p: nat): Region
    requires p < |ivs|
  {
    var len, gap := if ivs[p].s <= ivs[p].e then ivs[p].e - ivs[p].s else 0, EntryOf(ivs, n, 3 * p).len;
    Region(Prior(ivs, p), Prior(ivs, p), gap, len, len, EntryOf(ivs, n, 3 * p + 3).len)
  }

  lemma RegionParts(ivs: seq<Iv>, n: nat, p: nat)
    requires p < |ivs| && Prior(ivs, p) <= ivs[p].s <= ivs[p].e <= Later(ivs, n, p + 1)
    ensures var r, len := RegionAt(ivs, n, p), ivs[p].e - ivs[p].s;
      r == Region(Prior(ivs, p), Prior(ivs, p), ivs[p].s - Prior(ivs, p), len, len, Later(ivs, n, p + 1) - ivs[p].e)
  {
  }

  lemma RegionIs(ivs: seq<Iv>, n: nat, p: nat)
    requires p < |ivs| && IvsOk(ivs, n)
    ensures IsRegion(ScriptOf(ivs, n), 3 * p, 3 * p + 3)
    ensures RegionOf(ScriptOf(ivs, n), 3 * p, 3 * p + 3) == RegionAt(ivs, n, p)
  {
    hide Olds, News, ScriptOf, IvsOk;
    var e := ScriptOf(ivs, n);
    ScriptAt(ivs, n, p);
    ScriptAt(ivs, n, p + 1);
    TotalsTo(ivs, n, p);
    GapsFit(ivs, n, p);
    GapsFit(ivs, n, p + 1);
    var q := 3 * p;
    assert e[q + 1..q + 3] == [e[q + 1]] + [e[q + 2]];
    TotalsConcat([e[q + 1]], [e[q + 2]]);
    PairsOne(e[q + 1], 0, 0);
    PairsOne(e[q + 2], 0, 0);
  }

  // ---------- a pass over intervals ----------

  /** The intervals before the `p`-th have slid. */
  function Mixed(from: seq<Iv>, to: seq<Iv>, p: nat): (r: seq<Iv>)
    requires p <= |from| == |to|
    ensures |r| == |from|
  {
    to[..p] + from[p..]
  }

  /** With all before it slid, the `p`-th interval slides where `to` has it. */
  ghost predicate Steps(line: seq<Spot>, from: seq<Iv>, to: seq<Iv>, p: nat)
    requires p < |from| == |to|
  {
    && from[p].s < from[p].e && to[p].e == to[p].s + (from[p].e - from[p].s)
    && Prior(to, p) <= from[p].s && from[p].e <= Later(from, |line|, p + 1)
    && var r := RegionAt(Mixed(from, to, p), |line|, p);
    var len := from[p].e - from[p].s;
    exists lo: nat, hi: nat :: StepsTo(line, r, from[p].s, len, lo, hi, to[p].s)
  }

  ghost predicate StepsTo(line: seq<Spot>, r: Region, s: nat, len: nat, lo: nat, hi: nat, to: nat) {
    && 0 < lo && hi + len < |line| && Leftmost(line, r, s, len, lo) && Rightmost(line, r, s, len, hi)
    && Peaks(line, len, lo, hi, to)
  }

  lemma MixedOk(line: seq<Spot>, from: seq<Iv>, to: seq<Iv>, p: nat)
    requires |from| == |to| && p <= |from| && IvsOk(from, |line|) && IvsOk(to, |line|)
    requires forall i | 0 <= i < |from| :: Steps(line, from, to, i)
    ensures IvsOk(Mixed(from, to, p), |line|)
  {
    hide StepsTo, RegionAt;
    var m := Mixed(from, to, p);
    forall i | 0 <= i <= |m|
      ensures Prior(m, i) <= Later(m, |line|, i)
    {
      assert Prior(to, i) <= Later(to, |line|, i) && Prior(from, i) <= Later(from, |line|, i);
      assert i < |from| ==> Steps(line, from, to, i);
    }
    forall i | 0 <= i < |m|
      ensures m[i].s < m[i].e
    {
      assert Steps(line, from, to, i);
    }
  }

  lemma StepSlides(line: seq<Spot>, from: seq<Iv>, to: seq<Iv>, p: nat)
    requires LineOk(line) && p < |from| == |to| && IvsOk(Mixed(from, to, p), |line|) && Steps(line, from, to, p)
    ensures BestShift(TextOf(line, false), TextOf(line, true), RegionAt(Mixed(from, to, p), |line|, p))
         == to[p].s - from[p].s
  {
    hide TextOf, BestShift, Leftmost, Rightmost, Peaks, IvsOk;
    var m := Mixed(from, to, p);
    var r, len := RegionAt(m, |line|, p), from[p].e - from[p].s;
    var lo: nat, hi: nat :| StepsTo(line, r, from[p].s, len, lo, hi, to[p].s);
    GapsFit(m, |line|, p);
    GapsFit(m, |line|, p + 1);
    GapsInside(m, |line|, p + 1);
    SlidesTo(line, r, from[p].s, len, lo, hi, to[p].s);
  }

  lemma {:induction false} GapsInside(ivs: seq<Iv>, n: nat, p: nat)
    requires p <= |ivs| && IvsOk(ivs, n)
    ensures Later(ivs, n, p) <= n
    decreases |ivs| - p
  {
    hide IvsOk;
    if p < |ivs| {
      GapsInside(ivs, n, p + 1);
      GapsFit(ivs, n, p);
      GapsFit(ivs, n, p + 1);
    }
  }

  /** Only the runs next to the interval that slid have changed. */
  lemma EntrySame(x: seq<Iv>, y: seq<Iv>, n: nat, p: nat, q: nat)
    requires p < |x| == |y| && x[..p] == y[..p] && x[p + 1..] == y[p + 1..] && q <= 3 * |x|
    requires x[p].s <= x[p].e && y[p].s <= y[p].e && x[p].e - x[p].s == y[p].e - y[p].s
    requires q != 3 * p && q != 3 * p + 3
    ensures EntryOf(x, n, q) == EntryOf(y, n, q)
  {
    var i := q / 3;
    assert i < p ==> x[..p][i] == y[..p][i];
    assert 0 < i <= p ==> x[..p][i - 1] == y[..p][i - 1];
    assert p < i < |x| ==> x[p + 1..][i - p - 1] == y[p + 1..][i - p - 1];
    assert p < i - 1 < |x| ==> x[p + 1..][i - p - 2] == y[p + 1..][i - p - 2];
  }

  /** One slide, on the script. */
  lemma StepScript(line: seq<Spot>, from: seq<Iv>, to: seq<Iv>, p: nat)
    requires p < |from| == |to| && IvsOk(Mixed(from, to, p), |line|) && IvsOk(Mixed(from, to, p + 1), |line|)
    requires Steps(line, from, to, p)
    ensures var e, d := ScriptOf(Mixed(from, to, p), |line|), to[p].s - from[p].s;
      && -(e[3 * p].len as int) <= d <= e[3 * p + 3].len
      && Slid(e, 3 * p, 3 * p + 3, d) == ScriptOf(Mixed(from, to, p + 1), |line|)
  {
    hide StepsTo, IvsOk, EntryOf, RegionAt, ScriptOf;
    var n, x, y := |line|, Mixed(from, to, p), Mixed(from, to, p + 1);
    var e, f, d := ScriptOf(x, n), ScriptOf(y, n), to[p].s - from[p].s;
    GapsFit(x, n, p);
    GapsFit(x, n, p + 1);
    GapsFit(y, n, p);
    GapsFit(y, n, p + 1);
    ScriptAt(x, n, p);
    ScriptAt(x, n, p + 1);
    ScriptAt(y, n, p);
    ScriptAt(y, n, p + 1);
    forall q | 0 <= q < |e|
      ensures Slid(e, 3 * p, 3 * p + 3, d)[q] == f[q]
    {
      ScriptEntry(x, n, q);
      ScriptEntry(y, n, q);
      if q != 3 * p && q != 3 * p + 3 {
        EntrySame(x, y, n, p, q);
      }
    }
  }

  lemma ScriptEntry(ivs: seq<Iv>, n: nat, q: nat)
    requires q <= 3 * |ivs|
    ensures ScriptOf(ivs, n)[q] == EntryOf(ivs, n, q)
  {
  }

  lemma {:induction false} PassOver(line: seq<Spot>, from: seq<Iv>, to: seq<Iv>, p: nat)
    requires LineOk(line) && |from| == |to| && p <= |from| && IvsOk(from, |line|) && IvsOk(to, |line|)
    requires forall i | 0 <= i < |from| :: Steps(line, from, to, i)
    ensures PassFrom(ScriptOf(Mixed(from, to, p), |line|), 3 * p, TextOf(line, false), TextOf(line, true))
         == ScriptOf(to, |line|)
    decreases |from| - p
  {
    hide TextOf, IvsOk, Steps, ScriptOf, PassFrom, RegionAt, BestShift, IsRegion, Slid;
    var a, b, e := TextOf(line, false), TextOf(line, true), ScriptOf(Mixed(from, to, p), |line|);
    MixedOk(line, from, to, p);
    if p == |from| {
      assert Mixed(from, to, p) == to;
      LastRun(e, a, b);
    } else {
      assert Steps(line, from, to, p);
      MixedOk(line, from, to, p + 1);
      RegionIs(Mixed(from, to, p), |line|, p);
      StepSlides(line, from, to, p);
      StepScript(line, from, to, p);
      PassFromRegion(e, 3 * p, 3 * p + 3, a, b);
      PassOver(line, from, to, p + 1);
    }
  }

  lemma LastRun(e: seq<Edit>, a: Toks, b: Toks)
    requires e != []
    ensures PassFrom(e, |e| - 1, a, b) == e
  {
    assert PassFrom(e, |e|, a, b) == e;
  }

  /** A pass over the script of `from` gives the script of `to`. */
  lemma PassIs(line: seq<Spot>, from: seq<Iv>, to: seq<Iv>)
    requires LineOk(line) && |from| == |to| && IvsOk(from, |line|) && IvsOk(to, |line|)
    requires forall p | 0 <= p < |from| :: Steps(line, from, to, p)
    ensures PassFrom(ScriptOf(from, |line|), 0, TextOf(line, false), TextOf(line, true)) == ScriptOf(to, |line|)
  {
    hide TextOf, IvsOk, Steps, ScriptOf, PassFrom;
    PassOver(line, from, to, 0);
    assert Mixed(from, to, 0) == from;
  }

  // ---------- normal forms ----------

  /** No two intervals touch, and none touches an end. */
  ghost predicate Apart(ivs: seq<Iv>, n: nat) {
    IvsOk(ivs, n) && forall p | 0 <= p <= |ivs| :: Prior(ivs, p) < Later(ivs, n, p)
  }

  lemma ApartNormal(ivs: seq<Iv>, n: nat)
    requires Apart(ivs, n)
    ensures Normal(ScriptOf(ivs, n)) && Canon(ScriptOf(ivs, n)) == ScriptOf(ivs, n)
  {
    hide EntryOf, ScriptOf, IvsOk, Canon;
    var e := ScriptOf(ivs, n);
    forall q | 0 <= q < |e|
      ensures e[q].len > 0 && e[q].op == if q % 3 == 0 then EQ else if q % 3 == 1 then INS else DEL
    {
      EntryPositive(ivs, n, q);
    }
    assert Normal(e);
    CanonFixed(e);
  }

  lemma EntryPositive(ivs: seq<Iv>, n: nat, q: nat)
    requires Apart(ivs, n) && q <= 3 * |ivs|
    ensures var d := ScriptOf(ivs, n)[q];
      d.len > 0 && d.op == if q % 3 == 0 then EQ else if q % 3 == 1 then INS else DEL
  {
    hide IvsOk;
    GapsFit(ivs, n, q / 3);
    assert Prior(ivs, q / 3) < Later(ivs, n, q / 3);
  }

  /** Two neighbours as one. */
  function Joined(ivs: seq<Iv>, p: nat): (r: seq<Iv>)
    requires p + 1 < |ivs|
    ensures |r| == |ivs| - 1
  {
    ivs[..p] + [Iv(ivs[p].s, ivs[p + 1].e)] + ivs[p + 2..]
  }

  lemma {:induction false} CanonBehind(x: seq<Edit>, y: seq<Edit>)
    requires Normal(x + Canon(y))
    ensures Canon(x + y) == x + Canon(y)
    decreases |x|
  {
    hide Normal, Cons;
    if x == [] {
      assert [] + y == y && [] + Canon(y) == Canon(y);
    } else {
      var z := x + Canon(y);
      NormalTail(z);
      assert z[1..] == x[1..] + Canon(y) && (x + y)[1..] == x[1..] + y;
      CanonBehind(x[1..], y);
      ConsFollows(x[0], z[1..]);
      assert z == [z[0]] + z[1..];
    }
  }

  /** Two changes with nothing kept between them become one. */
  lemma CanonPair(m: nat, k: nat, t: seq<Edit>)
    requires m > 0 && k > 0 && Normal([Edit(INS, k), Edit(DEL, k)] + t)
    ensures Canon([Edit(INS, m), Edit(DEL, m), Edit(EQ, 0), Edit(INS, k), Edit(DEL, k)] + t)
         == [Edit(INS, m + k), Edit(DEL, m + k)] + t
  {
    hide Normal, Canon;
    var b := [Edit(INS, k), Edit(DEL, k)] + t;
    CanonFixed(b);
    var e3, e2 := [Edit(EQ, 0)] + b, [Edit(DEL, m)] + ([Edit(EQ, 0)] + b);
    var e1 := [Edit(INS, m)] + e2;
    CanonHead(Edit(EQ, 0), b);
    CanonHead(Edit(DEL, m), e3);
    CanonHead(Edit(INS, m), e2);
    assert b[1..] == [Edit(DEL, k)] + t && b[1..][1..] == t;
    var c2 := [Edit(INS, k)] + ([Edit(DEL, m + k)] + t);
    assert Canon(e2) == c2;
    assert c2[1..] == [Edit(DEL, m + k)] + t;
    assert [Edit(INS, m), Edit(DEL, m), Edit(EQ, 0), Edit(INS, k), Edit(DEL, k)] + t == e1;
    assert [Edit(INS, m + k)] + ([Edit(DEL, m + k)] + t) == [Edit(INS, m + k), Edit(DEL, m + k)] + t;
  }

  lemma CanonHead(d: Edit, t: seq<Edit>)
    ensures Canon([d] + t) == Cons(d, Canon(t))
  {
    hide Cons;
    assert ([d] + t)[1..] == t;
  }

  lemma NormalPart(f: seq<Edit>, q: nat)
    requires Normal(f) && q <= |f|
    ensures Normal(f[q..])
  {
    var t := f[q..];
    forall k | 0 <= k < |t| - 1
      ensures Follows(t[k].op, t[k + 1].op)
    {
      assert Follows(f[q + k].op, f[q + k + 1].op);
    }
  }

  lemma PairNormal(k: nat, f: seq<Edit>, q: nat)
    requires Normal(f) && q + 2 <= |f| && f[q + 1].op == DEL && k > 0
    ensures Normal([Edit(INS, k), Edit(DEL, k)] + f[q + 2..])
  {
    var t := f[q + 2..];
    NormalPart(f, q + 2);
    assert t != [] ==> Follows(f[q + 1].op, f[q + 2].op);
    NormalCons(Edit(DEL, k), t);
    NormalCons(Edit(INS, k), [Edit(DEL, k)] + t);
    assert [Edit(INS, k), Edit(DEL, k)] + t == [Edit(INS, k)] + ([Edit(DEL, k)] + t);
  }

  /** The entries of a list and of the one with two neighbours joined. */
  lemma JoinEntries(ivs: seq<Iv>, n: nat, p: nat)
    requires p + 1 < |ivs| && IvsOk(ivs, n) && ivs[p].e == ivs[p + 1].s
    ensures var e, f, q := ScriptOf(ivs, n), ScriptOf(Joined(ivs, p), n), 3 * p + 1;
      var m, k := ivs[p].e - ivs[p].s, ivs[p + 1].e - ivs[p + 1].s;
      && e[q..q + 5] == [Edit(INS, m), Edit(DEL, m), Edit(EQ, 0), Edit(INS, k), Edit(DEL, k)]
      && f[q..q + 2] == [Edit(INS, m + k), Edit(DEL, m + k)] && e[..q] == f[..q] && e[q + 5..] == f[q + 2..]
  {
    hide IvsOk, EntryOf, ScriptOf;
    var e, f, q := ScriptOf(ivs, n), ScriptOf(Joined(ivs, p), n), 3 * p + 1;
    var j := Joined(ivs, p);
    GapsFit(ivs, n, p);
    GapsFit(ivs, n, p + 1);
    ScriptAt(ivs, n, p);
    ScriptAt(ivs, n, p + 1);
    ScriptEntry(j, n, q);
    ScriptEntry(j, n, q + 1);
    JoinedEntry(ivs, n, p);
    forall x: nat | x < q
      ensures e[x] == f[x]
    {
      ScriptEntry(ivs, n, x);
      ScriptEntry(j, n, x);
      JoinBefore(ivs, n, p, x);
    }
    forall x: nat | q + 2 <= x < |f|
      ensures e[x + 3] == f[x]
    {
      ScriptEntry(ivs, n, x + 3);
      ScriptEntry(j, n, x);
      JoinBehind(ivs, n, p, x);
    }
  }

  lemma JoinedEntry(ivs: seq<Iv>, n: nat, p: nat)
    requires p + 1 < |ivs| && ivs[p].s < ivs[p].e == ivs[p + 1].s < ivs[p + 1].e
    ensures var j, l := Joined(ivs, p), ivs[p + 1].e - ivs[p].s;
      EntryOf(j, n, 3 * p + 1) == Edit(INS, l) && EntryOf(j, n, 3 * p + 2) == Edit(DEL, l)
  {
  }

  lemma JoinBefore(ivs: seq<Iv>, n: nat, p: nat, x: nat)
    requires p + 1 < |ivs| && x < 3 * p + 1
    ensures EntryOf(Joined(ivs, p), n, x) == EntryOf(ivs, n, x)
  {
  }

  lemma JoinBehind(ivs: seq<Iv>, n: nat, p: nat, x: nat)
    requires p + 1 < |ivs| && 3 * p + 3 <= x <= 3 * (|ivs| - 1)
    ensures EntryOf(Joined(ivs, p), n, x) == EntryOf(ivs, n, x + 3)
  {
    var j, i := Joined(ivs, p), x / 3;
    assert (x + 3) / 3 == i + 1 && (x + 3) % 3 == x % 3;
    assert i < |j| ==> j[i] == ivs[i + 1];
    assert j[i - 1].e == ivs[i].e;
  }

  /** Where the intervals `p` and `p + 1` touch, the normal form has them as one. */
  lemma JoinCanon(ivs: seq<Iv>, n: nat, p: nat)
    requires p + 1 < |ivs| && IvsOk(ivs, n) && ivs[p].e == ivs[p + 1].s && Apart(Joined(ivs, p), n)
    ensures Canon(ScriptOf(ivs, n)) == ScriptOf(Joined(ivs, p), n)
  {
    hide IvsOk, Normal, Canon, EntryOf, ScriptOf, Apart;
    var e, f := ScriptOf(ivs, n), ScriptOf(Joined(ivs, p), n);
    var m, k := ivs[p].e - ivs[p].s, ivs[p + 1].e - ivs[p + 1].s;
    JoinEntries(ivs, n, p);
    ApartNormal(Joined(ivs, p), n);
    var q := 3 * p + 1;
    var t := f[q + 2..];
    GapsFit(ivs, n, p);
    GapsFit(ivs, n, p + 1);
    assert f[q + 1] == f[q..q + 2][1];
    PairNormal(k, f, q);
    CanonPair(m, k, t);
    var x, pair := f[..q], [Edit(INS, m), Edit(DEL, m), Edit(EQ, 0), Edit(INS, k), Edit(DEL, k)];
    assert f == x + (f[q..q + 2] + t);
    CanonBehind(x, pair + t);
    assert e == x + (e[q..q + 5] + t);
  }

  // ---------- a valid script ----------

  /** What is kept is not marked. */
  ghost predicate KeepsPlain(line: seq<Spot>, ivs: seq<Iv>) {
    forall p: nat, x: nat | p <= |ivs| && Prior(ivs, p) <= x < Later(ivs, |line|, p) :: !Marked(line, x)
  }

  /** The pairs the first entries keep: equal places, outside the intervals. */
  lemma {:induction false} KeptPairs(line: seq<Spot>, ivs: seq<Iv>, p: nat, x: (nat, nat))
    requires p <= |ivs| && IvsOk(ivs, |line|) && KeepsPlain(line, ivs)
    requires x in Pairs(ScriptOf(ivs, |line|)[..3 * p + 1], 0, 0)
    ensures x.0 == x.1 < |line| && !line[x.0].mark
    decreases p
  {
    hide Pairs, ScriptOf, IvsOk, Diagonal, Prior, Later;
    var n, e, q := |line|, ScriptOf(ivs, |line|), 3 * p;
    var from, len := Prior(ivs, p), Later(ivs, n, p) - Prior(ivs, p);
    ScriptAt(ivs, n, p);
    TotalsTo(ivs, n, p);
    GapsFit(ivs, n, p);
    GapsInside(ivs, n, p);
    assert e[..q + 1] == e[..q] + [e[q]];
    PairsConcat(e[..q], [e[q]], 0, 0);
    PairsOne(e[q], from, from);
    InDiagonal(from, from, len, x);
    if p == 0 {
      assert e[..0] == [];
      NoPairs();
    }
    if x in Diagonal(from, from, len) {
      assert !Marked(line, x.0);
    } else if p > 0 {
      ScriptAt(ivs, n, p - 1);
      assert e[..q] == e[..q - 2] + e[q - 2..q];
      PairsConcat(e[..q - 2], e[q - 2..q], 0, 0);
      ChangesKeepNothing(e[q - 2..q], Olds(e[..q - 2]), News(e[..q - 2]));
      KeptPairs(line, ivs, p - 1, x);
    }
  }

  lemma NoPairs()
    ensures Pairs([], 0, 0) == []
  {
  }

  /** A script that keeps no marked token turns the one text into the other. */
  lemma ScriptTurns(line: seq<Spot>, ivs: seq<Iv>)
    requires IvsOk(ivs, |line|) && KeepsPlain(line, ivs)
    ensures Turns(ScriptOf(ivs, |line|), Texts(TextOf(line, false)), Texts(TextOf(line, true)))
  {
    hide Pairs, ScriptOf, IvsOk, KeepsPlain, TextOf, TextAt;
    var n, e, q := |line|, ScriptOf(ivs, |line|), 3 * |ivs|;
    var a, b := TextOf(line, false), TextOf(line, true);
    ScriptAt(ivs, n, |ivs|);
    TotalsTo(ivs, n, |ivs|);
    GapsFit(ivs, n, |ivs|);
    assert e == e[..q] + [e[q]] && e == e[..q + 1];
    TotalsConcat(e[..q], [e[q]]);
    PairsOne(e[q], 0, 0);
    TextsAre(line);
    forall x | x in Pairs(e, 0, 0)
      ensures PairEq(Texts(a), Texts(b), x)
    {
      KeptPairs(line, ivs, |ivs|, x);
      TokensAgree(line, x.0);
    }
  }

  lemma TextsAre(line: seq<Spot>)
    ensures |TextOf(line, false).ends| == |TextOf(line, true).ends| == |line|
  {
  }

  // ---------- a script the cleanup leaves alone ----------

  /** Every kept token has a line break, so no kept run is given up. */
  lemma NoFalseRun(line: seq<Spot>, ivs: seq<Iv>, k: nat)
    requires Apart(ivs, |line|) && KeepsPlain(line, ivs) && k <= 3 * |ivs|
    requires NonEmpty(ScriptOf(ivs, |line|))
    ensures |TextOf(line, false).ends| == |TextOf(line, false).tags|
    ensures |TextOf(line, true).ends| == |TextOf(line, true).tags|
    ensures !FalseRun(TextOf(line, false), TextOf(line, true), ScriptOf(ivs, |line|), k)
  {
    hide ScriptOf, IvsOk, TextOf, TextAt, Kills, KeepsPlain;
    var a, b, e, p := TextOf(line, false), TextOf(line, true), ScriptOf(ivs, |line|), k / 3;
    TagsAre(line);
    if e[k].op == EQ && Kills(a, b, e, OldStarts(e), NewStarts(e), k) {
      EntryPositive(ivs, |line|, k);
      TotalsTo(ivs, |line|, p);
      GapsInside(ivs, |line|, p);
      var x := Prior(ivs, p);
      BreakAt(line, ivs, p);
      KillsPlain(a, b, e, OldStarts(e), NewStarts(e), k);
    }
  }

  lemma TagsAre(line: seq<Spot>)
    ensures forall f :: |TextOf(line, f).ends| == |TextOf(line, f).tags| == |line|
  {
  }

  lemma BreakAt(line: seq<Spot>, ivs: seq<Iv>, p: nat)
    requires Apart(ivs, |line|) && KeepsPlain(line, ivs) && p <= |ivs| && Later(ivs, |line|, p) <= |line|
    ensures Protected(TextOf(line, true), Prior(ivs, p))
  {
    hide IvsOk, TextOf, TextAt, Ends;
    var x := Prior(ivs, p);
    assert !Marked(line, x);
    TokenIs(line, true, x);
    assert TextAt(TextOf(line, true), x)[1] == NEWLINE;
  }

  lemma ScriptCleans(line: seq<Spot>, ivs: seq<Iv>)
    requires Apart(ivs, |line|) && KeepsPlain(line, ivs)
    ensures NonEmpty(ScriptOf(ivs, |line|)) && (forall f :: |TextOf(line, f).ends| == |TextOf(line, f).tags|)
    ensures CleanupOf(TextOf(line, false), TextOf(line, true), ScriptOf(ivs, |line|)) == ScriptOf(ivs, |line|)
  {
    hide ScriptOf, Apart, TextOf, KeepsPlain, FalseRun, CleanupOf, Canon;
    ApartNormal(ivs, |line|);
    TagsAre(line);
    forall k | 0 <= k < |ScriptOf(ivs, |line|)|
      ensures !FalseRun(TextOf(line, false), TextOf(line, true), ScriptOf(ivs, |line|), k)
    {
      NoFalseRun(line, ivs, k);
    }
    CleanupStays(TextOf(line, false), TextOf(line, true), ScriptOf(ivs, |line|));
  }
}
