/** A valid script that slides for longer than its cap of passes.  Eleven changes in a row walk to the right, one in
  * each pass, as each gets room only when the one behind it has gone.  When all have gone, a change to the left joins
  * the first of them, and so joined it finds a better place to the left; all follow in one pass, and a change to the
  * right joins the last, which then finds a better place to the right: the next walk.  There are five, each to places
  * that score higher than those of the walk before. */
module NeilRunsOut {
  import opened Common
  import opened Script
  import opened EditLists
  import opened EditCanon
  import opened NeilTokens
  import opened NeilCleanup
  import opened NeilShift
  import opened NeilSettle
  import opened NeilLine

  // ---------- the line ----------

  const MAINS := 11
  const TAPES := 20

  /** Where on its tape walk `k` takes a change. */
  function Far(k: nat): nat {
    12 + 3 * k
  }

  /** A tape's length but for its last token; that one is marked, but for the last tape's. */
  function Width(t: nat): nat {
    if 15 <= t < 19 then 3 * t - 30 else 28
  }

  /** What the boundaries on a tape between two of the eleven score. */
  function Main(c: int): nat {
    if c == 3 then 5 else if c == 5 then 4 else if c == 7 then 3 else if c == 9 then 2 else if c == 11 then 1
    else if c == 14 then 1 else if c == 17 then 2 else if c == 20 then 3 else if c == 23 then 4
    else if c == 26 then 5 else 0
  }

  /** On a tape to the left of them, before the change that joins them after walk `j`; */
  function Left(j: nat, c: int): nat {
    if c == 13 - 2 * j || c == 12 - 2 * j || c == 12 + 3 * j || c == 15 + 3 * j then j else 0
  }

  /** and on one to the right, before the change that joins them after walk `k`. */
  function Right(k: nat, c: int): nat {
    if k <= 4 && c == 11 - 2 * k then k + 1 else if c == 11 + 3 * k then k
    else if k >= 2 && c == 9 + 3 * k then k - 1 else 0
  }

  function Peak(t: nat, c: int): (r: nat)
    ensures t < TAPES ==> r <= 5
  {
    if t <= 4 then Left(4 - t, c) else if t < 15 then Main(c) else Right(t - 14, c)
  }

  function Tape(t: nat): (r: seq<Spot>)
    ensures |r| == Width(t) + 1
  {
    seq(Width(t) + 1, (c: nat) => Spot(Peak(t, c), c == Width(t) && t < 19))
  }

  /** The tapes before tape `t`, behind one more token. */
  function LineTo(t: nat): seq<Spot> {
    if t == 0 then [Spot(0, false)] else LineTo(t - 1) + Tape(t - 1)
  }

  function Base(t: nat): nat {
    if t == 0 then 1 else Base(t - 1) + Width(t - 1) + 1
  }

  function Line(): seq<Spot> {
    LineTo(TAPES)
  }

  lemma {:induction false} LineLen(t: nat)
    ensures |LineTo(t)| == Base(t)
  {
    hide Tape;
    if t > 0 {
      LineLen(t - 1);
      TapeLen(t - 1);
    }
  }

  lemma TapeLen(t: nat)
    ensures |Tape(t)| == Width(t) + 1
  {
  }

  lemma {:induction false} BaseMore(t: nat, u: nat)
    requires t <= u
    ensures Base(t) <= Base(u) && (t < u ==> Base(t) + Width(t) < Base(u))
    decreases u
  {
    hide Width;
    if t < u {
      BaseMore(t, u - 1);
    }
  }

  lemma {:induction false} SpotTo(t: nat, c: nat, u: nat)
    requires t < u && c <= Width(t)
    ensures Base(t) + c < |LineTo(u)| && LineTo(u)[Base(t) + c] == Tape(t)[c]
    decreases u
  {
    hide Tape, Width;
    LineLen(u);
    LineLen(u - 1);
    TapeLen(u - 1);
    BaseMore(t, u);
    if t < u - 1 {
      SpotTo(t, c, u - 1);
    } else {
      assert LineTo(u)[Base(t) + c] == Tape(t)[c];
    }
  }

  /** The token of a tape at `c`. */
  lemma SpotIs(t: nat, c: nat)
    requires t < TAPES && c <= Width(t)
    ensures Base(t) + c < |Line()| == Base(TAPES)
    ensures Line()[Base(t) + c] == Spot(Peak(t, c), c == Width(t) && t < 19)
  {
    hide LineTo, Base, Peak, Width;
    SpotTo(t, c, TAPES);
    LineLen(TAPES);
  }

  lemma {:induction false} LineToOk(t: nat)
    requires t <= TAPES
    ensures LineOk(LineTo(t))
  {
    hide Peak, Width;
    if t > 0 {
      LineToOk(t - 1);
    }
  }

  // ---------- changes on the line ----------

  /** A change that starts at `at` of tape `lt` and ends at `at - q` of tape `rt`. */
  datatype Change = Change(lt: nat, rt: nat, q: nat, at: nat)

  ghost predicate ChangeOk(c: Change) {
    c.lt < c.rt < TAPES && c.q <= c.at <= Width(c.lt) && c.at - c.q <= Width(c.rt)
  }

  /** In a row, each starting on the tape the one before ends on. */
  ghost predicate RowOk(row: seq<Change>) {
    && row != [] && row[0].lt == 0 && row[|row| - 1].rt == TAPES - 1
    && (forall p | 0 <= p < |row| :: ChangeOk(row[p]))
    && (forall p | 0 <= p < |row| - 1 :: Linked(row[p], row[p + 1]))
  }

  ghost predicate Linked(c: Change, d: Change) {
    d.lt == c.rt && c.at <= d.at + c.q
  }

  function IvOf(c: Change): Iv {
    Iv(Base(c.lt) + c.at, if c.q <= c.at then Base(c.rt) + c.at - c.q else 0)
  }

  function Ivs(row: seq<Change>): (r: seq<Iv>)
    ensures |r| == |row|
  {
    seq(|row|, p requires 0 <= p < |row| => IvOf(row[p]))
  }

  function Len(c: Change): nat {
    if Base(c.lt) + c.q <= Base(c.rt) then Base(c.rt) - Base(c.lt) - c.q else 0
  }

  lemma IvInside(c: Change)
    requires ChangeOk(c)
    ensures Len(c) == IvOf(c).e - IvOf(c).s
    ensures IvOf(c).s < IvOf(c).e < |Line()| && 0 < IvOf(c).s && Base(c.lt) + Width(c.lt) < Base(c.rt)
  {
    hide Base, LineTo, Width;
    BaseMore(c.lt, c.rt);
    BaseMore(0, c.lt);
    BaseMore(c.rt, TAPES);
    SpotIs(c.rt, c.at - c.q);
    BaseStart();
    WidthAny(c.lt);
  }

  lemma BaseStart()
    ensures Base(0) == 1
  {
  }

  lemma WidthAny(t: nat)
    ensures Width(t) >= 15
  {
  }

  /** What the two ends of a change score, started at `x`. */
  function Score(c: Change, x: int): nat {
    Peak(c.lt, x) + Peak(c.rt, x - c.q)
  }

  /** How far the `p`-th change gets to the left, those before it moved, and to the right. */
  function Lo(to: seq<Change>, p: nat, q: nat): int
    requires p <= |to|
  {
    if p > 0 && to[p - 1].at - to[p - 1].q > q then to[p - 1].at - to[p - 1].q else q
  }

  function Hi(from: seq<Change>, p: nat): int
    requires p < |from|
  {
    var w := Width(from[p].lt);
    if p + 1 < |from| && from[p + 1].at + from[p].q < w then from[p + 1].at + from[p].q else w
  }

  /** Of the places it gets to, the `p`-th change takes the last of the best. */
  ghost predicate Goes(from: seq<Change>, to: seq<Change>, p: nat)
    requires p < |from| == |to|
  {
    && to[p] == from[p].(at := to[p].at) && Lo(to, p, from[p].q) <= from[p].at
    && Lo(to, p, from[p].q) <= to[p].at <= Hi(from, p)
    && forall x | Lo(to, p, from[p].q) <= x <= Hi(from, p) :: Beaten(from[p], x, to[p].at)
  }

  ghost predicate Beaten(c: Change, x: int, to: nat) {
    Score(c, x) < Score(c, to) || (Score(c, x) == Score(c, to) && x <= to)
  }

  // ---------- a pass over changes ----------

  lemma RowAt(row: seq<Change>, p: nat)
    requires RowOk(row) && p < |row|
    ensures ChangeOk(row[p]) && (p > 0 ==> Linked(row[p - 1], row[p])) && (p + 1 < |row| ==> Linked(row[p], row[p + 1]))
    ensures (p == 0 ==> row[p].lt == 0) && (p == |row| - 1 ==> row[p].rt == TAPES - 1)
  {
    hide ChangeOk, Linked;
    assert p > 0 ==> Linked(row[p - 1], row[p - 1 + 1]);
  }

  lemma RowIvs(row: seq<Change>)
    requires RowOk(row)
    ensures IvsOk(Ivs(row), |Line()|)
  {
    hide ChangeOk, Linked, Base, LineTo;
    var ivs := Ivs(row);
    forall p | 0 <= p <= |ivs|
      ensures Prior(ivs, p) <= Later(ivs, |Line()|, p)
    {
      if p < |row| {
        RowGap(row, p);
      } else {
        RowAt(row, p - 1);
        IvInside(row[p - 1]);
      }
    }
    forall p | 0 <= p < |ivs|
      ensures ivs[p].s < ivs[p].e
    {
      RowAt(row, p);
      IvInside(row[p]);
    }
  }

  lemma RowGap(row: seq<Change>, p: nat)
    requires RowOk(row) && p < |row|
    ensures p > 0 ==> IvOf(row[p - 1]).e <= IvOf(row[p]).s
  {
    hide Base, RowOk;
    RowAt(row, p);
    if p > 0 {
      RowAt(row, p - 1);
    }
  }

  lemma EndsAre(c: Change, x: int)
    requires ChangeOk(c) && c.q <= x <= Width(c.lt) && x - c.q <= Width(c.rt)
    ensures EndsScore(Line(), Base(c.lt) + x, Len(c)) == Score(c, x)
  {
    hide Base, LineTo, Peak, Width;
    SpotIs(c.lt, x);
    SpotIs(c.rt, x - c.q);
    IvInside(c);
  }

  /** No mark on a tape but at its end. */
  lemma PlainOn(t: nat, lo: int, hi: int)
    requires t < TAPES && 0 <= lo && hi <= Width(t)
    ensures forall x | Base(t) + lo <= x < Base(t) + hi :: !Marked(Line(), x)
  {
    hide Base, LineTo, Peak, Width;
    forall x | Base(t) + lo <= x < Base(t) + hi
      ensures !Marked(Line(), x)
    {
      SpotIs(t, x - Base(t));
    }
  }

  lemma MarkAt(t: nat)
    requires t < TAPES - 1
    ensures Marked(Line(), Base(t) + Width(t)) && Base(t) + Width(t) + 1 == Base(t + 1)
  {
    hide LineTo, Peak, Width;
    SpotIs(t, Width(t));
  }

  ghost predicate Moves(from: seq<Change>, to: seq<Change>) {
    |from| == |to| && RowOk(from) && RowOk(to) && forall p | 0 <= p < |from| :: Goes(from, to, p)
  }

  /** The limits of a change, on the line. */
  lemma LeftLimit(from: seq<Change>, to: seq<Change>, p: nat, r: Region)
    requires RowOk(from) && RowOk(to) && p < |from| == |to| && Goes(from, to, p)
    requires r.oi == if p > 0 then IvOf(to[p - 1]).e else 0
    ensures var c := from[p];
      && c.q <= Lo(to, p, c.q) && 0 < Base(c.lt) + Lo(to, p, c.q)
      && Leftmost(Line(), r, IvOf(c).s, Len(c), Base(c.lt) + Lo(to, p, c.q))
  {
    hide Base, LineTo, Peak, Width, RowOk, Score;
    var c := from[p];
    RowAt(from, p);
    RowAt(to, p);
    IvInside(c);
    BaseMore(0, c.lt);
    BaseStart();
    var lo := Lo(to, p, c.q);
    MarkAt(c.rt - 1);
    PlainOn(c.rt, lo - c.q, c.at - c.q);
    if p > 0 {
      RowAt(to, p - 1);
    }
  }

  lemma RightLimit(from: seq<Change>, to: seq<Change>, p: nat, r: Region)
    requires RowOk(from) && p < |from| == |to| && Goes(from, to, p)
    requires r.n2 == (if p + 1 < |from| then IvOf(from[p + 1]).s else |Line()|) - IvOf(from[p]).e
    ensures var c := from[p];
      && c.at <= Hi(from, p) <= Width(c.lt) && Hi(from, p) - c.q <= Width(c.rt)
      && Rightmost(Line(), r, IvOf(c).s, Len(c), Base(c.lt) + Hi(from, p))
  {
    hide Base, LineTo, Peak, Width, RowOk, Score;
    var c, hi := from[p], Hi(from, p);
    RowAt(from, p);
    IvInside(c);
    MarkAt(c.lt);
    PlainOn(c.lt, c.at, hi);
    if p + 1 < |from| {
      RowAt(from, p + 1);
    } else {
      LastWidth(c.lt);
      SpotIs(c.rt, Width(c.rt));
    }
  }

  lemma LastWidth(t: nat)
    ensures Width(t) <= Width(TAPES - 1)
  {
  }

  lemma GoesPeaks(from: seq<Change>, to: seq<Change>, p: nat)
    requires p < |from| == |to| && ChangeOk(from[p]) && Goes(from, to, p) && from[p].q <= Lo(to, p, from[p].q)
    requires Hi(from, p) <= Width(from[p].lt) && Hi(from, p) - from[p].q <= Width(from[p].rt)
    ensures var c := from[p];
      Peaks(Line(), Len(c), Base(c.lt) + Lo(to, p, c.q), Base(c.lt) + Hi(from, p), Base(c.lt) + to[p].at)
  {
    hide Base, LineTo, Peak, Width, Score, EndsScore, Len, Lo, Hi, ChangeOk;
    var c := from[p];
    EndsAre(c, to[p].at);
    forall x: nat | Base(c.lt) + Lo(to, p, c.q) <= x <= Base(c.lt) + Hi(from, p)
      ensures EndsScore(Line(), x, Len(c)) < EndsScore(Line(), Base(c.lt) + to[p].at, Len(c))
        || (EndsScore(Line(), x, Len(c)) == EndsScore(Line(), Base(c.lt) + to[p].at, Len(c))
            && x <= Base(c.lt) + to[p].at)
    {
      EndsAre(c, x - Base(c.lt));
      assert Beaten(c, x - Base(c.lt), to[p].at);
    }
  }

  lemma GoesSteps(from: seq<Change>, to: seq<Change>, p: nat)
    requires Moves(from, to) && p < |from|
    ensures Steps(Line(), Ivs(from), Ivs(to), p)
  {
    hide Base, LineTo, Peak, Width, Score, RowOk, Goes, Leftmost, Rightmost, Peaks, IvsOk, Line, Prior, Later, Lo, Hi,
      Linked, ChangeOk, RegionAt;
    RowIvs(from);
    RowIvs(to);
    var c, x, y := from[p], Ivs(from), Ivs(to);
    assert Goes(from, to, p);
    GoesSame(from, to, p);
    RowAt(from, p);
    RowAt(to, p);
    IvInside(c);
    IvInside(to[p]);
    var m := Mixed(x, y, p);
    var r := RegionAt(m, |Line()|, p);
    MixedGaps(from, to, p);
    RegionParts(m, |Line()|, p);
    LeftLimit(from, to, p, r);
    RightLimit(from, to, p, r);
    GoesPeaks(from, to, p);
    var lo: nat, hi: nat := Base(c.lt) + Lo(to, p, c.q), Base(c.lt) + Hi(from, p);
    HiInside(c, Hi(from, p));
    assert x[p] == IvOf(c) && y[p] == IvOf(to[p]) && Len(to[p]) == Len(c);
    assert Prior(y, p) <= x[p].s && x[p].e <= Later(x, |Line()|, p + 1);
    assert StepsTo(Line(), r, x[p].s, x[p].e - x[p].s, lo, hi, y[p].s);
  }

  lemma GoesSame(from: seq<Change>, to: seq<Change>, p: nat)
    requires p < |from| == |to| && Goes(from, to, p)
    ensures to[p] == from[p].(at := to[p].at)
    ensures p > 0 ==> to[p - 1].at - to[p - 1].q <= from[p].at
  {
    hide Score, Width;
  }

  lemma HiInside(c: Change, hi: int)
    requires ChangeOk(c) && c.at <= hi && hi - c.q <= Width(c.rt)
    ensures 0 <= Base(c.lt) + hi && Base(c.lt) + hi + Len(c) < |Line()|
  {
    hide Base, LineTo, Width;
    IvInside(c);
    SpotIs(c.rt, hi - c.q);
  }

  lemma MixedGaps(from: seq<Change>, to: seq<Change>, p: nat)
    requires Moves(from, to) && p < |from|
    ensures var m, n := Mixed(Ivs(from), Ivs(to), p), |Line()|;
      && Prior(m, p) == Prior(Ivs(to), p) && Later(m, n, p + 1) == Later(Ivs(from), n, p + 1)
      && Prior(m, p) == (if p > 0 then IvOf(to[p - 1]).e else 0) <= m[p].s == IvOf(from[p]).s
      && Later(m, n, p + 1) == (if p + 1 < |from| then IvOf(from[p + 1]).s else n) >= m[p].e == IvOf(from[p]).e
  {
    hide Base, LineTo, Score, Goes, RowOk, IvsOk, Linked;
    var m := Mixed(Ivs(from), Ivs(to), p);
    RowIvs(from);
    GapsFit(Ivs(from), |Line()|, p + 1);
    assert Goes(from, to, p);
    GoesSame(from, to, p);
    RowAt(from, p);
    RowAt(to, p);
    if p > 0 {
      RowAt(to, p - 1);
      LinkedLt(to[p - 1], to[p]);
    }
  }

  lemma LinkedLt(c: Change, d: Change)
    requires Linked(c, d)
    ensures d.lt == c.rt
  {
  }

  /** A pass over the script of the changes. */
  lemma PassMoves(from: seq<Change>, to: seq<Change>)
    requires Moves(from, to)
    ensures PassFrom(ScriptOf(Ivs(from), |Line()|), 0, TextOf(Line(), false), TextOf(Line(), true))
         == ScriptOf(Ivs(to), |Line()|)
  {
    hide Base, LineTo, RowOk, Goes, Steps, ScriptOf, PassFrom, TextOf, LineOk, IvsOk;
    RowIvs(from);
    RowIvs(to);
    LineToOk(TAPES);
    forall p | 0 <= p < |from|
      ensures Steps(Line(), Ivs(from), Ivs(to), p)
    {
      GoesSteps(from, to, p);
    }
    PassIs(Line(), Ivs(from), Ivs(to));
  }

  // ---------- where each change rests and goes ----------

  /** A change to the left of the eleven stays, whatever of these it gets to; */
  lemma LeftStays(p: nat, at: nat, x: int)
    requires p <= 3 && 0 <= x <= 21 - 3 * p
    ensures Beaten(Change(p, p + 1, 0, at), x, 5 + 2 * p)
  {
  }

  /** once the first of the eleven has gone right, the nearest one follows up to it; */
  lemma LeftJoins(k: nat, at: nat, x: int)
    requires 1 <= k <= 4 && 0 <= x <= Far(k)
    ensures Beaten(Change(4 - k, 5 - k, 0, at), x, Far(k))
  {
  }

  /** one to the right stays; */
  lemma RightStays(j: nat, at: nat, x: int)
    requires 1 <= j <= 4 && 13 - 2 * j <= x <= Far(j)
    ensures Beaten(Change(14 + j, 15 + j, 0, at), x, Far(j))
  {
  }

  /** and when the last of the eleven goes left, the nearest one follows up to it. */
  lemma RightJoins(k: nat, at: nat, x: int)
    requires 1 <= k <= 4 && 11 - 2 * k <= x <= Far(k)
    ensures Beaten(Change(14 + k, 15 + k, 0, at), x, 11 - 2 * k)
  {
  }

  /** The `u`-th of the eleven after so many have joined from both sides. */
  function MainAt(kl: nat, kr: nat, u: nat, at: nat): Change {
    Change(if u == 0 && kl <= 5 then 5 - kl else 4 + u, if u == 10 then 14 + kr else 5 + u, 1, at)
  }

  /** It rests at the start of walk `k`, between neighbours that do; */
  lemma MainRests(k: nat, u: nat, at: nat, x: int)
    requires 1 <= k <= 5 && u < 10 && 1 <= x && (13 - 2 * k <= x || (u == 0 && k == 5)) && x <= 15 - 2 * k
    ensures Beaten(MainAt(k, k, u, at), x, 14 - 2 * k)
  {
  }

  /** goes right, and stays there, as far as it gets in the walk; */
  lemma MainGoes(k: nat, u: nat, at: nat, x: int)
    requires 1 <= k <= 5 && u <= 10 && 1 <= x && (13 - 2 * k <= x || (u == 0 && k == 5)) && x <= Far(k) + 1
    ensures Beaten(MainAt(k, k, u, at), x, Far(k))
  {
  }

  /** and goes left once there is room. */
  lemma MainTurns(k: nat, u: nat, at: nat, x: int)
    requires 1 <= k <= 4 && u <= 10 && 1 <= x && (11 - 2 * k <= x || (u == 0 && k == 4)) && x <= Far(k) + 1
    ensures Beaten(MainAt(k + 1, k, u, at), x, 12 - 2 * k)
  {
  }

  // ---------- the changes, walk by walk ----------

  /** The `p`-th change: those to the left that have not joined, the eleven, the first `i` of them at `x` and the rest
    * at `y`, and those to the right that have not joined. */
  function At(kl: nat, kr: nat, i: nat, x: nat, y: nat, p: nat): Change
    requires kl <= 5
  {
    var nl := 5 - kl;
    if p < nl then Change(p, p + 1, 0, 5 + 2 * p)
    else if p < nl + MAINS then MainAt(kl, kr, p - nl, if p - nl < i then x else y)
    else Change(14 + kr + (p - nl - MAINS), 15 + kr + (p - nl - MAINS), 0, Far(kr + (p - nl - MAINS)))
  }

  function Size(kl: nat, kr: nat): nat {
    if kl <= 5 && kr <= 5 then 5 - kl + MAINS + 5 - kr else 0
  }

  function Row(kl: nat, kr: nat, i: nat, x: nat, y: nat): (r: seq<Change>)
    requires kl <= 5 && kr <= 5
    ensures |r| == Size(kl, kr)
  {
    seq(Size(kl, kr), (p: nat) => At(kl, kr, i, x, y, p))
  }

  /** Places the eleven may be at. */
  ghost predicate Fits(kl: nat, kr: nat, at: nat) {
    1 <= at <= Far(kr) + 1 && at <= 28 && (kl < 5 ==> 13 - 2 * kl <= at)
  }

  lemma RowGood(kl: nat, kr: nat, i: nat, x: nat, y: nat)
    requires 1 <= kl <= 5 && 1 <= kr <= 5 && x <= y + 1
    requires (i > 0 ==> Fits(kl, kr, x)) && (i < MAINS ==> Fits(kl, kr, y))
    ensures RowOk(Row(kl, kr, i, x, y))
  {
    var s, nl := Row(kl, kr, i, x, y), 5 - kl;
    forall p: nat | p < |s|
      ensures ChangeOk(s[p])
    {
      AtOk(kl, kr, i, x, y, p);
    }
    forall p: nat | p < |s| - 1
      ensures Linked(s[p], s[p + 1])
    {
      AtLinked(kl, kr, i, x, y, p);
    }
  }

  lemma AtOk(kl: nat, kr: nat, i: nat, x: nat, y: nat, p: nat)
    requires 1 <= kl <= 5 && 1 <= kr <= 5 && p < Size(kl, kr)
    requires (i > 0 ==> Fits(kl, kr, x)) && (i < MAINS ==> Fits(kl, kr, y))
    ensures ChangeOk(At(kl, kr, i, x, y, p))
  {
  }

  lemma AtLinked(kl: nat, kr: nat, i: nat, x: nat, y: nat, p: nat)
    requires 1 <= kl <= 5 && 1 <= kr <= 5 && p + 1 < Size(kl, kr) && x <= y + 1
    requires (i > 0 ==> Fits(kl, kr, x)) && (i < MAINS ==> Fits(kl, kr, y))
    ensures Linked(At(kl, kr, i, x, y, p), At(kl, kr, i, x, y, p + 1))
  {
  }

  lemma EntryAt(kl: nat, kr: nat, i: nat, x: nat, y: nat, p: nat)
    requires kl <= 5 && kr <= 5 && p < Size(kl, kr)
    ensures Row(kl, kr, i, x, y)[p] == At(kl, kr, i, x, y, p)
  {
  }

  /** What a change does in a pass, from the changes next to it. */
  lemma GoesIf(from: seq<Change>, to: seq<Change>, p: nat, lo: int, hi: int)
    requires p < |from| == |to| && to[p] == from[p].(at := to[p].at) && lo <= from[p].at && lo <= to[p].at <= hi
    requires lo == Lo(to, p, from[p].q) && hi == Hi(from, p)
    requires forall x | lo <= x <= hi :: Beaten(from[p], x, to[p].at)
    ensures Goes(from, to, p)
  {
    hide Beaten, Lo, Hi;
  }

  lemma LeftGoes(from: seq<Change>, to: seq<Change>, p: nat)
    requires p <= 3 && p < |from| == |to| && from[p] == to[p] == Change(p, p + 1, 0, 5 + 2 * p)
    requires Lo(to, p, 0) <= 5 + 2 * p <= Hi(from, p) <= 21 - 3 * p
    ensures Goes(from, to, p)
  {
    hide Peak, Score, Beaten;
    forall x | Lo(to, p, 0) <= x <= Hi(from, p)
      ensures Beaten(from[p], x, to[p].at)
    {
      LeftStays(p, from[p].at, x);
    }
    GoesIf(from, to, p, Lo(to, p, 0), Hi(from, p));
  }

  lemma RightGoes(from: seq<Change>, to: seq<Change>, p: nat, j: nat)
    requires 1 <= j <= 4 && p < |from| == |to| && from[p] == to[p] == Change(14 + j, 15 + j, 0, Far(j))
    requires 13 - 2 * j <= Lo(to, p, 0) <= Far(j) == Hi(from, p)
    ensures Goes(from, to, p)
  {
    hide Peak, Score, Beaten;
    forall x | Lo(to, p, 0) <= x <= Hi(from, p)
      ensures Beaten(from[p], x, to[p].at)
    {
      RightStays(j, from[p].at, x);
    }
    GoesIf(from, to, p, Lo(to, p, 0), Hi(from, p));
  }

  /** The changes around the `p`-th. */
  lemma Around(kl: nat, kr: nat, i: nat, x: nat, y: nat, p: nat)
    requires kl <= 5 && kr <= 5 && p < Size(kl, kr)
    ensures var s := Row(kl, kr, i, x, y);
      && s[p] == At(kl, kr, i, x, y, p) && (p > 0 ==> s[p - 1] == At(kl, kr, i, x, y, p - 1))
      && (p + 1 < Size(kl, kr) ==> s[p + 1] == At(kl, kr, i, x, y, p + 1))
  {
  }

  /** One step of walk `k`: the `i`-th of the eleven goes right, all others stay. */
  lemma WalkGoes(k: nat, i: nat, p: nat)
    requires 1 <= k <= 5 && 1 <= i <= MAINS && p < Size(k, k)
    ensures Goes(Row(k, k, i, 14 - 2 * k, Far(k)), Row(k, k, i - 1, 14 - 2 * k, Far(k)), p)
  {
    hide Goes, Row, Peak, Score;
    var from, to, nl := Row(k, k, i, 14 - 2 * k, Far(k)), Row(k, k, i - 1, 14 - 2 * k, Far(k)), 5 - k;
    Around(k, k, i, 14 - 2 * k, Far(k), p);
    Around(k, k, i - 1, 14 - 2 * k, Far(k), p);
    if p < nl {
      LeftGoes(from, to, p);
    } else if p < nl + MAINS {
      WalkMain(k, i, p);
    } else {
      RightGoes(from, to, p, k + p - nl - MAINS);
    }
  }

  lemma WalkMain(k: nat, i: nat, p: nat)
    requires 1 <= k <= 5 && 1 <= i <= MAINS && 5 - k <= p < 5 - k + MAINS
    ensures Goes(Row(k, k, i, 14 - 2 * k, Far(k)), Row(k, k, i - 1, 14 - 2 * k, Far(k)), p)
  {
    hide Peak, Score, Beaten, Row;
    var from, to, u := Row(k, k, i, 14 - 2 * k, Far(k)), Row(k, k, i - 1, 14 - 2 * k, Far(k)), p - (5 - k);
    EntryAt(k, k, i, 14 - 2 * k, Far(k), p);
    EntryAt(k, k, i - 1, 14 - 2 * k, Far(k), p);
    if p > 0 {
      EntryAt(k, k, i - 1, 14 - 2 * k, Far(k), p - 1);
    }
    if p + 1 < Size(k, k) {
      EntryAt(k, k, i, 14 - 2 * k, Far(k), p + 1);
    }
    var lo, hi := Lo(to, p, 1), Hi(from, p);
    forall x | lo <= x <= hi
      ensures Beaten(from[p], x, to[p].at)
    {
      if u < i - 1 {
        MainRests(k, u, from[p].at, x);
      } else {
        MainGoes(k, u, from[p].at, x);
      }
    }
    GoesIf(from, to, p, lo, hi);
  }

  /** After walk `k` the nearest change to the left joins the eleven. */
  function Joining(k: nat): seq<Change>
    requires 1 <= k <= 4
  {
    Row(k, k, 0, 14 - 2 * k, Far(k))[4 - k := Change(4 - k, 5 - k, 0, Far(k))]
  }

  lemma JoinMain(k: nat, p: nat)
    requires 1 <= k <= 4 && 5 - k <= p < 5 - k + MAINS
    ensures Goes(Row(k, k, 0, 14 - 2 * k, Far(k)), Joining(k), p)
  {
    hide Peak, Score, Beaten, Row;
    var from, to := Row(k, k, 0, 14 - 2 * k, Far(k)), Joining(k);
    Around(k, k, 0, 14 - 2 * k, Far(k), p);
    var lo, hi := Lo(to, p, 1), Hi(from, p);
    forall x | lo <= x <= hi
      ensures Beaten(from[p], x, to[p].at)
    {
      MainGoes(k, p - (5 - k), from[p].at, x);
    }
    GoesIf(from, to, p, lo, hi);
  }

  lemma JoinLeft(k: nat)
    requires 1 <= k <= 4
    ensures Goes(Row(k, k, 0, 14 - 2 * k, Far(k)), Joining(k), 4 - k)
  {
    hide Peak, Score, Beaten, Row;
    var from, to, p := Row(k, k, 0, 14 - 2 * k, Far(k)), Joining(k), 4 - k;
    Around(k, k, 0, 14 - 2 * k, Far(k), p);
    var lo, hi := Lo(to, p, 0), Hi(from, p);
    forall x | lo <= x <= hi
      ensures Beaten(from[p], x, to[p].at)
    {
      LeftJoins(k, from[p].at, x);
    }
    GoesIf(from, to, p, lo, hi);
  }

  lemma JoinGoes(k: nat, p: nat)
    requires 1 <= k <= 4 && p < Size(k, k)
    ensures Goes(Row(k, k, 0, 14 - 2 * k, Far(k)), Joining(k), p)
  {
    hide Goes, Row, Peak, Score;
    var from, to, nl := Row(k, k, 0, 14 - 2 * k, Far(k)), Joining(k), 5 - k;
    Around(k, k, 0, 14 - 2 * k, Far(k), p);
    if p < nl - 1 {
      LeftGoes(from, to, p);
    } else if p == nl - 1 {
      JoinLeft(k);
    } else if p < nl + MAINS {
      JoinMain(k, p);
    } else {
      RightGoes(from, to, p, k + p - nl - MAINS);
    }
  }

  /** Then all eleven go left, and the nearest change to the right joins them. */
  function Turning(k: nat): seq<Change>
    requires 1 <= k <= 4
  {
    Row(k + 1, k, MAINS, 12 - 2 * k, Far(k + 1))[15 - k := Change(14 + k, 15 + k, 0, 11 - 2 * k)]
  }

  lemma TurnMain(k: nat, p: nat)
    requires 1 <= k <= 4 && 4 - k <= p < 4 - k + MAINS
    ensures Goes(Row(k + 1, k, 0, 14 - 2 * k, Far(k)), Turning(k), p)
  {
    hide Peak, Score, Beaten, Row;
    var from, to := Row(k + 1, k, 0, 14 - 2 * k, Far(k)), Turning(k);
    Around(k + 1, k, 0, 14 - 2 * k, Far(k), p);
    Around(k + 1, k, MAINS, 12 - 2 * k, Far(k + 1), p);
    var lo, hi := Lo(to, p, 1), Hi(from, p);
    forall x | lo <= x <= hi
      ensures Beaten(from[p], x, to[p].at)
    {
      MainTurns(k, p - (4 - k), from[p].at, x);
    }
    GoesIf(from, to, p, lo, hi);
  }

  lemma TurnRight(k: nat)
    requires 1 <= k <= 4
    ensures Goes(Row(k + 1, k, 0, 14 - 2 * k, Far(k)), Turning(k), 15 - k)
  {
    hide Peak, Score, Beaten, Row;
    var from, to, p := Row(k + 1, k, 0, 14 - 2 * k, Far(k)), Turning(k), 15 - k;
    Around(k + 1, k, 0, 14 - 2 * k, Far(k), p);
    Around(k + 1, k, MAINS, 12 - 2 * k, Far(k + 1), p);
    var lo, hi := Lo(to, p, 0), Hi(from, p);
    forall x | lo <= x <= hi
      ensures Beaten(from[p], x, to[p].at)
    {
      RightJoins(k, from[p].at, x);
    }
    GoesIf(from, to, p, lo, hi);
  }

  lemma TurnGoes(k: nat, p: nat)
    requires 1 <= k <= 4 && p < Size(k + 1, k)
    ensures Goes(Row(k + 1, k, 0, 14 - 2 * k, Far(k)), Turning(k), p)
  {
    hide Goes, Row, Peak, Score;
    var from, to, nl := Row(k + 1, k, 0, 14 - 2 * k, Far(k)), Turning(k), 4 - k;
    Around(k + 1, k, 0, 14 - 2 * k, Far(k), p);
    Around(k + 1, k, MAINS, 12 - 2 * k, Far(k + 1), p);
    if p < nl {
      LeftGoes(from, to, p);
    } else if p < nl + MAINS {
      TurnMain(k, p);
    } else if p == nl + MAINS {
      TurnRight(k);
    } else {
      RightGoes(from, to, p, k + p - nl - MAINS);
    }
  }

  // ---------- the passes ----------

  function Old(): Toks {
    TextOf(Line(), false)
  }

  function New(): Toks {
    TextOf(Line(), true)
  }

  function Scr(row: seq<Change>): seq<Edit> {
    ScriptOf(Ivs(row), |Line()|)
  }

  lemma RowStarts(row: seq<Change>)
    requires RowOk(row)
    ensures row != []
  {
  }

  /** The start of walk `k`'s last `i` steps. */
  function Walk(k: nat, i: nat): seq<Change>
    requires k <= 5
  {
    Row(k, k, i, 14 - 2 * k, Far(k))
  }

  lemma WalkRow(k: nat, i: nat)
    requires 1 <= k <= 5 && i <= MAINS
    ensures RowOk(Walk(k, i))
  {
    hide Row, RowOk;
    RowGood(k, k, i, 14 - 2 * k, Far(k));
  }

  /** None touches the next. */
  ghost predicate Loose(row: seq<Change>) {
    forall p | 0 <= p < |row| - 1 :: row[p].at < row[p + 1].at + row[p].q
  }

  lemma LooseApart(row: seq<Change>)
    requires RowOk(row) && Loose(row)
    ensures Apart(Ivs(row), |Line()|)
  {
    hide Base, LineTo, RowOk, IvsOk;
    RowIvs(row);
    RowStarts(row);
    var ivs := Ivs(row);
    forall p | 0 <= p <= |ivs|
      ensures Prior(ivs, p) < Later(ivs, |Line()|, p)
    {
      RowAt(row, if p < |row| then p else p - 1);
      IvInside(row[if p < |row| then p else p - 1]);
      if 0 < p < |row| {
        assert row[p - 1].at < row[p - 1 + 1].at + row[p - 1].q;
        RowAt(row, p - 1);
      }
    }
  }

  lemma RowLoose(kl: nat, kr: nat, i: nat, x: nat, y: nat)
    requires 1 <= kl <= 5 && 1 <= kr <= 5 && x <= y && (i > 0 ==> x > 13 - 2 * kl && x <= Far(kr))
    requires i < MAINS ==> y > 13 - 2 * kl && y <= Far(kr)
    ensures Loose(Row(kl, kr, i, x, y))
  {
    hide Row;
    var s := Row(kl, kr, i, x, y);
    forall p | 0 <= p < |s| - 1
      ensures s[p].at < s[p + 1].at + s[p].q
    {
      Around(kl, kr, i, x, y, p);
    }
  }

  lemma WalkApart(k: nat, i: nat)
    requires 1 <= k <= 5 && i <= MAINS
    ensures Apart(Ivs(Walk(k, i)), |Line()|)
    ensures var e := Scr(Walk(k, i));
      Normal(e) && Canon(e) == e && |e| == 3 * Size(k, k) + 1
  {
    hide Row, RowOk, Loose, Apart, Line, Normal, Canon;
    WalkRow(k, i);
    RowLoose(k, k, i, 14 - 2 * k, Far(k));
    LooseApart(Walk(k, i));
    ApartNormal(Ivs(Walk(k, i)), |Line()|);
  }

  lemma StepOfWalk(k: nat, i: nat)
    requires 1 <= k <= 5 && 1 <= i <= MAINS
    ensures PassFrom(Scr(Walk(k, i)), 0, Old(), New()) == Scr(Walk(k, i - 1)) != Scr(Walk(k, i))
  {
    hide Row, RowOk, Line, Goes, PassFrom, TextOf, ScriptOf, IvsOk, Prior, Later;
    var from, to := Walk(k, i), Walk(k, i - 1);
    WalkRow(k, i);
    WalkRow(k, i - 1);
    forall p | 0 <= p < |from|
      ensures Goes(from, to, p)
    {
      WalkGoes(k, i, p);
    }
    PassMoves(from, to);
    WalkDiffers(k, i);
  }

  /** The run before the change that went right has grown. */
  lemma WalkDiffers(k: nat, i: nat)
    requires 1 <= k <= 5 && 1 <= i <= MAINS
    ensures Scr(Walk(k, i)) != Scr(Walk(k, i - 1))
  {
    hide Row, RowOk, Line, ScriptOf, IvsOk, Base;
    var from, to, p := Walk(k, i), Walk(k, i - 1), 5 - k + i - 1;
    WalkRow(k, i);
    WalkRow(k, i - 1);
    RowIvs(from);
    RowIvs(to);
    Around(k, k, i, 14 - 2 * k, Far(k), p);
    Around(k, k, i - 1, 14 - 2 * k, Far(k), p);
    ScriptAt(Ivs(from), |Line()|, p);
    ScriptAt(Ivs(to), |Line()|, p);
    assert Prior(Ivs(from), p) == Prior(Ivs(to), p);
  }

  lemma RowUpdated(s: seq<Change>, p: nat, at: nat)
    requires RowOk(s) && p < |s| && ChangeOk(s[p].(at := at))
    requires p > 0 ==> s[p - 1].at <= at + s[p - 1].q
    requires p + 1 < |s| ==> at <= s[p + 1].at + s[p].q
    ensures RowOk(s[p := s[p].(at := at)])
  {
    hide ChangeOk;
    var t := s[p := s[p].(at := at)];
    forall i | 0 <= i < |t| - 1
      ensures Linked(t[i], t[i + 1])
    {
      assert Linked(s[i], s[i + 1]);
    }
  }

  lemma JoiningRow(k: nat)
    requires 1 <= k <= 4
    ensures RowOk(Joining(k))
  {
    hide Row, RowOk;
    WalkRow(k, 0);
    Around(k, k, 0, 14 - 2 * k, Far(k), 4 - k);
    RowUpdated(Walk(k, 0), 4 - k, Far(k));
  }

  /** Between the walks: the eleven on the right, the nearest change to the left with them. */
  function Between(k: nat): seq<Change>
    requires k <= 4
  {
    Row(k + 1, k, 0, 14 - 2 * k, Far(k))
  }

  lemma BetweenRow(k: nat)
    requires 1 <= k <= 4
    ensures RowOk(Between(k)) && Apart(Ivs(Between(k)), |Line()|)
    ensures |Scr(Between(k))| == 3 * Size(k + 1, k) + 1
  {
    hide Row, RowOk, Loose, Apart, Line;
    RowGood(k + 1, k, 0, 14 - 2 * k, Far(k));
    RowLoose(k + 1, k, 0, 14 - 2 * k, Far(k));
    LooseApart(Between(k));
  }

  lemma JoiningAt(k: nat, p: nat)
    requires 1 <= k <= 4 && p < Size(k + 1, k)
    ensures Joined(Ivs(Joining(k)), 4 - k)[p] == Ivs(Between(k))[p]
  {
    hide Row, Base;
    EntryAt(k + 1, k, 0, 14 - 2 * k, Far(k), p);
    Around(k, k, 0, 14 - 2 * k, Far(k), p);
  }

  lemma JoiningIs(k: nat)
    requires 1 <= k <= 4
    ensures Joined(Ivs(Joining(k)), 4 - k) == Ivs(Between(k))
    ensures Ivs(Joining(k))[4 - k].e == Ivs(Joining(k))[5 - k].s
  {
    hide Row, Base, Joined;
    Around(k, k, 0, 14 - 2 * k, Far(k), 4 - k);
    var x, y, n := Joined(Ivs(Joining(k)), 4 - k), Ivs(Between(k)), Size(k + 1, k);
    forall p: nat | p < n
      ensures x[p] == y[p]
    {
      JoiningAt(k, p);
    }
  }

  lemma StepOfJoin(k: nat)
    requires 1 <= k <= 4
    ensures Canon(PassFrom(Scr(Walk(k, 0)), 0, Old(), New())) == Scr(Between(k))
    ensures |Scr(Between(k))| < |Scr(Walk(k, 0))|
  {
    hide Row, RowOk, Line, Goes, PassFrom, TextOf, ScriptOf, IvsOk, Prior, Later, Canon, Apart, Base;
    var from, to := Walk(k, 0), Joining(k);
    WalkApart(k, 0);
    WalkRow(k, 0);
    JoiningRow(k);
    BetweenRow(k);
    forall p | 0 <= p < |from|
      ensures Goes(from, to, p)
    {
      JoinGoes(k, p);
    }
    PassMoves(from, to);
    JoiningIs(k);
    RowIvs(to);
    JoinCanon(Ivs(to), |Line()|, 4 - k);
  }

  lemma TurningRow(k: nat)
    requires 1 <= k <= 4
    ensures RowOk(Turning(k))
  {
    hide Row, RowOk;
    var s := Row(k + 1, k, MAINS, 12 - 2 * k, Far(k + 1));
    RowGood(k + 1, k, MAINS, 12 - 2 * k, Far(k + 1));
    Around(k + 1, k, MAINS, 12 - 2 * k, Far(k + 1), 15 - k);
    RowUpdated(s, 15 - k, 11 - 2 * k);
  }

  lemma TurningAt(k: nat, p: nat)
    requires 1 <= k <= 4 && p < Size(k + 1, k + 1)
    ensures Joined(Ivs(Turning(k)), 14 - k)[p] == Ivs(Walk(k + 1, MAINS))[p]
  {
    hide Row, Base;
    EntryAt(k + 1, k + 1, MAINS, 12 - 2 * k, Far(k + 1), p);
    Around(k + 1, k, MAINS, 12 - 2 * k, Far(k + 1), p);
  }

  lemma TurningIs(k: nat)
    requires 1 <= k <= 4
    ensures Joined(Ivs(Turning(k)), 14 - k) == Ivs(Walk(k + 1, MAINS))
    ensures Ivs(Turning(k))[14 - k].e == Ivs(Turning(k))[15 - k].s
  {
    hide Row, Base, Joined;
    Around(k + 1, k, MAINS, 12 - 2 * k, Far(k + 1), 15 - k);
    Around(k + 1, k, MAINS, 12 - 2 * k, Far(k + 1), 14 - k);
    var x, y, n := Joined(Ivs(Turning(k)), 14 - k), Ivs(Walk(k + 1, MAINS)), Size(k + 1, k + 1);
    forall p: nat | p < n
      ensures x[p] == y[p]
    {
      TurningAt(k, p);
    }
  }

  lemma StepOfTurn(k: nat)
    requires 1 <= k <= 4
    ensures Canon(PassFrom(Scr(Between(k)), 0, Old(), New())) == Scr(Walk(k + 1, MAINS))
    ensures |Scr(Walk(k + 1, MAINS))| < |Scr(Between(k))|
  {
    hide Row, RowOk, Line, Goes, PassFrom, TextOf, ScriptOf, IvsOk, Prior, Later, Canon, Apart, Base;
    var from, to := Between(k), Turning(k);
    WalkApart(k + 1, MAINS);
    BetweenRow(k);
    TurningRow(k);
    forall p | 0 <= p < |from|
      ensures Goes(from, to, p)
    {
      TurnGoes(k, p);
    }
    PassMoves(from, to);
    TurningIs(k);
    RowIvs(to);
    JoinCanon(Ivs(to), |Line()|, 14 - k);
  }

  // ---------- the whole run ----------

  /** Passes that still change something. */
  function Togo(k: nat, i: nat): nat
    requires k <= 5
  {
    i + (MAINS + 2) * (5 - k)
  }

  /** With one pass too few for all that there is to do, sliding ends where one thing is left to do. */
  lemma {:induction false} WalksOn(k: nat, i: nat, left: nat)
    requires 1 <= k <= 5 && i <= MAINS && left + 1 == Togo(k, i)
    ensures ShiftFrom(Scr(Walk(k, i)), left, Old(), New()) == (Scr(Walk(5, 1)), false)
    decreases left
  {
    hide Walk, Scr, PassFrom, Canon, Old, New, Normal;
    if left > 0 {
      if i > 0 {
        StepOfWalk(k, i);
        WalkApart(k, i - 1);
        WalksOn(k, i - 1, left - 1);
      } else {
        StepOfJoin(k);
        StepOfTurn(k);
        WalksOn(k + 1, MAINS, left - 2);
        TwoPasses(k, left);
      }
    }
  }

  /** After a walk, one pass joins and one turns. */
  lemma TwoPasses(k: nat, left: nat)
    requires 1 <= k <= 4 && left >= 2
    ensures ShiftFrom(Scr(Walk(k, 0)), left, Old(), New()) == ShiftFrom(Scr(Walk(k + 1, MAINS)), left - 2, Old(), New())
  {
    hide Walk, Between, Scr, PassFrom, Canon, Old, New;
    StepOfJoin(k);
    StepOfTurn(k);
    OnePass(Scr(Walk(k, 0)), left);
    OnePass(Scr(Between(k)), left - 1);
  }

  lemma OnePass(e: seq<Edit>, left: nat)
    requires left > 0 && |Canon(PassFrom(e, 0, Old(), New()))| < |e|
    ensures ShiftFrom(e, left, Old(), New())
         == ShiftFrom(Canon(PassFrom(e, 0, Old(), New())), left - 1, Old(), New())
  {
    hide PassFrom, Canon, Old, New;
  }

  /** At the end of the last walk nothing moves. */
  lemma EndRests(p: nat)
    requires p < MAINS
    ensures Goes(Walk(5, 0), Walk(5, 0), p)
  {
    hide Peak, Score, Beaten, Row;
    var from := Walk(5, 0);
    Around(5, 5, 0, 4, Far(5), p);
    var lo, hi := Lo(from, p, 1), Hi(from, p);
    forall x | lo <= x <= hi
      ensures Beaten(from[p], x, from[p].at)
    {
      MainGoes(5, p, from[p].at, x);
    }
    GoesIf(from, from, p, lo, hi);
  }

  /** Slid again, the last of the eleven goes right, and then nothing moves. */
  lemma TwoLeft(left: nat)
    requires left >= 2
    ensures Scr(Walk(5, 0)) != Scr(Walk(5, 1))
    ensures ShiftFrom(Scr(Walk(5, 1)), left, Old(), New()) == (Scr(Walk(5, 0)), true)
  {
    hide Row, RowOk, Line, Goes, PassFrom, TextOf, ScriptOf, IvsOk, Canon, Normal;
    StepOfWalk(5, 1);
    WalkRow(5, 0);
    WalkApart(5, 0);
    forall p | 0 <= p < MAINS
      ensures Goes(Walk(5, 0), Walk(5, 0), p)
    {
      EndRests(p);
    }
    PassMoves(Walk(5, 0), Walk(5, 0));
  }

  lemma TokensOk(line: seq<Spot>, fresh_: bool)
    ensures ToksOk(TextOf(line, fresh_))
  {
    hide ByteAt;
  }

  /** No kept token is marked. */
  lemma KeptPlain(row: seq<Change>)
    requires RowOk(row)
    ensures KeepsPlain(Line(), Ivs(row))
  {
    hide RowOk, Base, LineTo, Width, Peak;
    forall p: nat, x: nat | p <= |row| && Prior(Ivs(row), p) <= x < Later(Ivs(row), |Line()|, p)
      ensures !Marked(Line(), x)
    {
      KeptAt(row, p, x);
    }
  }

  lemma KeptAt(row: seq<Change>, p: nat, x: nat)
    requires RowOk(row) && p <= |row| && Prior(Ivs(row), p) <= x < Later(Ivs(row), |Line()|, p)
    ensures !Marked(Line(), x)
  {
    hide RowOk, Base, LineTo, Width, Peak;
    RowStarts(row);
    if p < |row| {
      RowAt(row, p);
      if p > 0 {
        RowAt(row, p - 1);
      }
      PlainOn(row[p].lt, if p > 0 then row[p - 1].at - row[p - 1].q else 0, row[p].at);
      if p == 0 {
        BaseStart();
        FirstPlain();
      }
    } else {
      RowAt(row, p - 1);
      LastPlain(x);
    }
  }

  lemma FirstPlain()
    ensures !Marked(Line(), 0)
  {
    hide Peak, Width;
    FirstSpot(TAPES);
  }

  lemma {:induction false} FirstSpot(t: nat)
    ensures LineTo(t) != [] && !LineTo(t)[0].mark
  {
    hide Tape;
    if t > 0 {
      FirstSpot(t - 1);
    }
  }

  lemma LastPlain(x: nat)
    requires Base(TAPES - 1) <= x < |Line()|
    ensures !Marked(Line(), x)
  {
    hide Base, LineTo, Peak, Width;
    LineLen(TAPES);
    LastBase();
    SpotIs(TAPES - 1, x - Base(TAPES - 1));
  }

  lemma LastBase()
    ensures Base(TAPES) == Base(TAPES - 1) + Width(TAPES - 1) + 1
  {
    hide Width;
  }

  /** A slide with its cap of passes: what it leaves, and whether it left through its fixed-point test. */
  ghost function Slide(e: seq<Edit>): (seq<Edit>, bool) {
    ShiftFrom(e, |e| + 4, Old(), New())
  }

  lemma SlideOnce(e: seq<Edit>)
    requires e == Scr(Walk(1, MAINS))
    ensures |e| == 58 && Slide(e) == (Scr(Walk(5, 1)), false)
  {
    hide Walk, Scr, ShiftFrom, Normal, Canon, IvsOk, Apart;
    WalkApart(1, MAINS);
    WalksOn(1, MAINS, |e| + 4);
  }

  lemma SlideAgain(g: seq<Edit>)
    requires g == Scr(Walk(5, 1))
    ensures |g| == 34 && Slide(g) == (Scr(Walk(5, 0)), true) && g != Scr(Walk(5, 0))
  {
    hide Walk, Scr, ShiftFrom, Normal, Canon, IvsOk, Apart;
    WalkApart(5, 1);
    TwoLeft(|g| + 4);
  }

  lemma StartTurns(e: seq<Edit>)
    requires e == Scr(Walk(1, MAINS))
    ensures ToksOk(Old()) && ToksOk(New()) && Turns(e, Texts(Old()), Texts(New())) && Normal(e) && NonEmpty(e)
    ensures CleanupOf(Old(), New(), e) == e
  {
    hide Walk, Line, Normal, Canon, IvsOk, KeepsPlain, RowOk, TextOf, ToksOk, Apart, NonEmpty, CleanupOf;
    WalkApart(1, MAINS);
    WalkRow(1, MAINS);
    TokensOk(Line(), false);
    TokensOk(Line(), true);
    KeptPlain(Walk(1, MAINS));
    RowIvs(Walk(1, MAINS));
    ScriptTurns(Line(), Ivs(Walk(1, MAINS)));
    ScriptCleans(Line(), Ivs(Walk(1, MAINS)));
  }

  /** A valid normal script of 58 entries that the cleanup leaves alone and 62 passes do not bring to a fixed point:
    * sliding what they leave once more changes it. */
  lemma RunsOut() returns (e: seq<Edit>)
    ensures ToksOk(Old()) && ToksOk(New()) && Turns(e, Texts(Old()), Texts(New())) && Normal(e) && |e| == 58
    ensures NonEmpty(e) && CleanupOf(Old(), New(), e) == e
    ensures !Slide(e).1 && Slide(Slide(e).0).1 && Slide(Slide(e).0).0 != Slide(e).0
  {
    hide Walk, Scr, Slide, ToksOk, Normal, Turns, Old, New, NonEmpty, CleanupOf;
    e := Scr(Walk(1, MAINS));
    StartTurns(e);
    SlideOnce(e);
    SlideAgain(Scr(Walk(5, 1)));
  }
}
