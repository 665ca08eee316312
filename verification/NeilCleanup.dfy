/** Cleaning a script of false equalities, sweep by sweep, in two scratch buffers. */
module NeilCleanup {
  import opened Common
  import opened Script
  import opened EditLists
  import opened EditCanon
  import opened NeilTokens
  import opened NeilCanon

  /** `f` keeps no pair `e` does not, and still keeps every protected one. */
  ghost predicate Thins(t: Toks, e: seq<Edit>, f: seq<Edit>) {
    && Olds(f) == Olds(e) && News(f) == News(e)
    && (forall p | p in Pairs(f, 0, 0) :: p in Pairs(e, 0, 0))
    && (forall p | p in Pairs(e, 0, 0) && Protected(t, p.1) :: p in Pairs(f, 0, 0))
  }

  lemma ThinsTrans(t: Toks, e: seq<Edit>, f: seq<Edit>, g: seq<Edit>)
    requires Thins(t, e, f) && Thins(t, f, g)
    ensures Thins(t, e, g)
  {
  }

  lemma ThinsSame(t: Toks, e: seq<Edit>, f: seq<Edit>)
    requires SameFrom(f, e)
    ensures Thins(t, e, f)
  {
    SameFromIsSame(f, e);
  }

  lemma ThinsTurns<T>(t: Toks, e: seq<Edit>, f: seq<Edit>, a: seq<T>, b: seq<T>)
    requires Thins(t, e, f) && Turns(e, a, b)
    ensures Turns(f, a, b)
  {
  }

  // ---------- one sweep ----------

  /** The sweep so far. */
  ghost predicate Swept(t: Toks, e: seq<Edit>, k: nat, f: seq<Edit>) {
    k <= |e| && |f| <= 2 * k && Thins(t, e[..k], f)
  }

  lemma SweptKeep(t: Toks, e: seq<Edit>, k: nat, f: seq<Edit>)
    requires Swept(t, e, k, f) && k < |e|
    ensures Swept(t, e, k + 1, f + [e[k]])
  {
    hide Pairs;
    TakeNext(e, k);
    var d := e[k];
    TotalsConcat(e[..k], [d]);
    TotalsConcat(f, [d]);
    PairsConcat(e[..k], [d], 0, 0);
    PairsConcat(f, [d], 0, 0);
  }

  /** Kept run `k`, from new position `ni` on, holds no protected token. */
  ghost predicate Plain(t: Toks, ni: nat, n: nat) {
    forall j | ni <= j < ni + n :: !Protected(t, j)
  }

  lemma SweptKill(t: Toks, e: seq<Edit>, k: nat, f: seq<Edit>)
    requires Swept(t, e, k, f) && k < |e| && e[k].op == EQ && Plain(t, News(e[..k]), e[k].len)
    ensures Swept(t, e, k + 1, f + [Edit(DEL, e[k].len)] + [Edit(INS, e[k].len)])
  {
    hide Pairs, Olds, News, Diagonal, Protected, Plain;
    TakeNext(e, k);
    var d, n := e[k], e[k].len;
    var x := [Edit(DEL, n)] + [Edit(INS, n)];
    KillPairs(n, Olds(f), News(f));
    Assoc(f, [Edit(DEL, n)], [Edit(INS, n)]);
    TotalsConcat(e[..k], [d]);
    TotalsConcat(f, x);
    PairsConcat(e[..k], [d], 0, 0);
    PairsConcat(f, x, 0, 0);
    PairsOne(d, Olds(e[..k]), News(e[..k]));
    DiagonalPlain(t, Olds(e[..k]), News(e[..k]), n);
    assert Pairs(f, 0, 0) + [] == Pairs(f, 0, 0);
  }

  lemma DiagonalPlain(t: Toks, i: nat, j: nat, n: nat)
    requires Plain(t, j, n)
    ensures forall p | p in Diagonal(i, j, n) :: !Protected(t, p.1)
  {
    DiagonalElements(i, j, n);
    forall p | p in Diagonal(i, j, n)
      ensures !Protected(t, p.1)
    {
      var k :| 0 <= k < n && Diagonal(i, j, n)[k] == p;
    }
  }

  lemma KillPairs(n: nat, i: nat, j: nat)
    ensures var x := [Edit(DEL, n)] + [Edit(INS, n)];
      Olds(x) == n && News(x) == n && Pairs(x, i, j) == []
  {
    PairsCons(Edit(DEL, n), [Edit(INS, n)], i, j);
    PairsOne(Edit(INS, n), i + n, j);
  }

  lemma KillsPlain(old_: Toks, new_: Toks, e: seq<Edit>, oi: seq<nat>, ni: seq<nat>, k: nat)
    requires |old_.ends| == |old_.tags| && |new_.ends| == |new_.tags|
    requires k < |e| == |oi| == |ni| && e[k].len > 0 && Kills(old_, new_, e, oi, ni, k)
    ensures Plain(new_, ni[k], e[k].len)
  {
  }

  /** Where each entry starts on both sides. */
  ghost predicate StartsAt(e: seq<Edit>, n: nat, oi: seq<nat>, ni: seq<nat>) {
    n <= |e| && n <= |oi| && n <= |ni| && forall k | 0 <= k < n :: oi[k] == Olds(e[..k]) && ni[k] == News(e[..k])
  }

  ghost function OldStarts(e: seq<Edit>): seq<nat> {
    seq(|e|, k requires 0 <= k < |e| => Olds(e[..k]))
  }

  ghost function NewStarts(e: seq<Edit>): seq<nat> {
    seq(|e|, k requires 0 <= k < |e| => News(e[..k]))
  }

  lemma StartsAre(e: seq<Edit>, oi: seq<nat>, ni: seq<nat>)
    requires StartsAt(e, |e|, oi, ni)
    ensures oi[..|e|] == OldStarts(e) && ni[..|e|] == NewStarts(e)
  {
  }

  /** Entry `k` is a kept run that the cleanup gives up. */
  ghost predicate FalseRun(old_: Toks, new_: Toks, e: seq<Edit>, k: nat)
    requires |old_.ends| == |old_.tags| && |new_.ends| == |new_.tags| && NonEmpty(e) && k < |e|
  {
    e[k].op == EQ && Kills(old_, new_, e, OldStarts(e), NewStarts(e), k)
  }

  /** The first `k` entries, every false run among them replaced by a deletion and an insertion. */
  ghost function SweptTo(old_: Toks, new_: Toks, e: seq<Edit>, k: nat): seq<Edit>
    requires |old_.ends| == |old_.tags| && |new_.ends| == |new_.tags| && NonEmpty(e) && k <= |e|
  {
    if k == 0 then []
    else
      var d := e[k - 1];
      SweptTo(old_, new_, e, k - 1)
      + if FalseRun(old_, new_, e, k - 1) then [Edit(DEL, d.len)] + [Edit(INS, d.len)] else [d]
  }

  /** The kept runs with no protected token in them, of a list that starts at new position `j`. */
  ghost function Loose(t: Toks, e: seq<Edit>, j: nat): nat {
    if e == [] then 0
    else
      (if e[0].op == EQ && Plain(t, j, e[0].len) then 1 else 0)
      + Loose(t, e[1..], j + if e[0].op == DEL then 0 else e[0].len)
  }

  lemma {:induction false} LooseConcat(t: Toks, e: seq<Edit>, f: seq<Edit>, j: nat)
    ensures Loose(t, e + f, j) == Loose(t, e, j) + Loose(t, f, j + News(e))
    decreases |e|
  {
    hide Plain;
    if e == [] {
      assert e + f == f;
    } else {
      assert (e + f)[1..] == e[1..] + f;
      LooseConcat(t, e[1..], f, j + if e[0].op == DEL then 0 else e[0].len);
    }
  }

  lemma LooseOne(t: Toks, d: Edit, j: nat)
    ensures Loose(t, [d], j) == if d.op == EQ && Plain(t, j, d.len) then 1 else 0
  {
    assert [d][1..] == [];
  }

  lemma LooseKilled(t: Toks, n: nat, j: nat)
    ensures Loose(t, [Edit(DEL, n)] + [Edit(INS, n)], j) == 0
  {
    hide Loose;
    LooseConcat(t, [Edit(DEL, n)], [Edit(INS, n)], j);
    LooseOne(t, Edit(DEL, n), j);
    LooseOne(t, Edit(INS, n), j + News([Edit(DEL, n)]));
  }

  /** Joining entries leaves no more such runs. */
  lemma {:induction false} LooseJoined(t: Toks, e: seq<Edit>)
    ensures Loose(t, Joined(e), 0) <= Loose(t, e, 0)
    decreases |e|
  {
    hide Loose, News, Joined;
    if e == [] {
      JoinedNone(e);
    } else {
      var k := |e| - 1;
      LooseJoined(t, e[..k]);
      JoinedNext(e, k);
      JoinedSame(e[..k]);
      assert e[..k + 1] == e && e == e[..k] + [e[k]];
      LooseConcat(t, e[..k], [e[k]], 0);
      LooseJoin(t, Joined(e[..k]), e[k]);
    }
  }

  lemma LooseJoin(t: Toks, o: seq<Edit>, d: Edit)
    ensures Loose(t, Join(o, d), 0) <= Loose(t, o, 0) + Loose(t, [d], News(o))
  {
    hide Loose, News;
    if d.len > 0 && o != [] && o[|o| - 1].op == d.op {
      var m, l := o[..|o| - 1], o[|o| - 1];
      var g := Edit(d.op, l.len + d.len);
      assert o == m + [l] && Join(o, d) == m + [g];
      LooseConcat(t, m, [l], 0);
      LooseConcat(t, m, [g], 0);
      LooseOne(t, l, News(m));
      LooseOne(t, g, News(m));
    } else if d.len > 0 {
      LooseConcat(t, o, [d], 0);
    }
  }

  /** A sweep that gives up a run leaves fewer to give up; one that gives up none changes nothing. */
  lemma {:induction false} SweepLoses(old_: Toks, new_: Toks, e: seq<Edit>, k: nat)
    requires |old_.ends| == |old_.tags| && |new_.ends| == |new_.tags| && NonEmpty(e) && k <= |e|
    ensures var f := SweptTo(old_, new_, e, k);
      && |f| >= k && News(f) == News(e[..k])
      && (if |f| == k then f == e[..k] else Loose(new_, f, 0) < Loose(new_, e[..k], 0))
      && (|f| == k ==> forall x | 0 <= x < k :: !FalseRun(old_, new_, e, x))
  {
    hide FalseRun, News, Loose, Plain;
    if k > 0 {
      SweepLoses(old_, new_, e, k - 1);
      var f, d := SweptTo(old_, new_, e, k - 1), e[k - 1];
      TakeNext(e, k - 1);
      TotalsConcat(e[..k - 1], [d]);
      LooseConcat(new_, e[..k - 1], [d], 0);
      if FalseRun(old_, new_, e, k - 1) {
        FalseRunPlain(old_, new_, e, k - 1);
        LooseOne(new_, d, News(e[..k - 1]));
        var x := [Edit(DEL, d.len)] + [Edit(INS, d.len)];
        LooseConcat(new_, f, x, 0);
        LooseKilled(new_, d.len, News(f));
        TotalsConcat(f, x);
        KillPairs(d.len, 0, 0);
        PairsOne(d, 0, 0);
      } else {
        LooseConcat(new_, f, [d], 0);
        TotalsConcat(f, [d]);
      }
    }
  }

  lemma FalseRunPlain(old_: Toks, new_: Toks, e: seq<Edit>, k: nat)
    requires |old_.ends| == |old_.tags| && |new_.ends| == |new_.tags| && NonEmpty(e) && k < |e|
    requires FalseRun(old_, new_, e, k)
    ensures e[k].op == EQ && Plain(new_, News(e[..k]), e[k].len)
  {
    hide Kills, Plain, News;
    KillsPlain(old_, new_, e, OldStarts(e), NewStarts(e), k);
  }

  method Offsets(e: seq<Edit>, oldOff: array<nat>, newOff: array<nat>)
    requires |e| <= oldOff.Length == newOff.Length && oldOff != newOff
    modifies oldOff, newOff
    ensures StartsAt(e, |e|, oldOff[..], newOff[..])
  {
    var oi, ni: nat := 0, 0;
    for k := 0 to |e|
      invariant oi == Olds(e[..k]) && ni == News(e[..k])
      invariant StartsAt(e, k, oldOff[..], newOff[..])
    {
      oldOff[k], newOff[k] := oi, ni;
      TakeNext(e, k);
      TotalsConcat(e[..k], [e[k]]);
      PairsOne(e[k], 0, 0);
      if e[k].op == EQ {
        oi, ni := oi + e[k].len, ni + e[k].len;
      } else if e[k].op == DEL {
        oi := oi + e[k].len;
      } else {
        ni := ni + e[k].len;
      }
    }
  }

  /** Every kept run judged once: kept as it is, or turned into a deletion and an insertion. */
  method Sweep(cur: array<Edit>, n: nat, next: array<Edit>, oldOff: array<nat>, newOff: array<nat>, old_: Toks,
          new_: Toks)
      returns (w: nat, changed: bool)
    requires ToksOk(old_) && ToksOk(new_) && cur != next && oldOff != newOff
    requires n <= cur.Length && n <= oldOff.Length == newOff.Length && 2 * n <= next.Length
    requires NonEmpty(cur[..n])
    modifies next, oldOff, newOff
    ensures w <= 2 * n && Thins(new_, cur[..n], next[..w])
    ensures next[..w] == SweptTo(old_, new_, cur[..n], n) && changed == (next[..w] != cur[..n])
  {
    hide Kills, Thins, Swept, ToksOk, OldStarts, NewStarts;
    ghost var e := cur[..n];
    ToksTags(old_);
    ToksTags(new_);
    Offsets(cur[..n], oldOff, newOff);
    changed, w := false, 0;
    SweptNone(new_, e);
    StartsAre(e, oldOff[..], newOff[..]);
    for k := 0 to n
      invariant k <= w <= 2 * k && changed == (w > k) && cur[..n] == e && Swept(new_, e, k, next[..w])
      invariant oldOff[..n] == OldStarts(e) && newOff[..n] == NewStarts(e)
      invariant next[..w] == SweptTo(old_, new_, e, k)
    {
      ghost var f := next[..w];
      assert cur[k] == e[k];
      TakeNext(e, k);
      if cur[k].op != EQ || !Kills(old_, new_, cur[..n], oldOff[..n], newOff[..n], k) {
        SweptKeep(new_, e, k, f);
        w := Push(next, w, cur[k]);
      } else {
        KillsPlain(old_, new_, e, oldOff[..n], newOff[..n], k);
        SweptKill(new_, e, k, f);
        w := Push(next, w, Edit(DEL, cur[k].len));
        w := Push(next, w, Edit(INS, cur[k].len));
        changed := true;
      }
    }
    SweptAll(new_, e, next[..w]);
    SweepLoses(old_, new_, e, n);
  }

  lemma ToksTags(t: Toks)
    requires ToksOk(t)
    ensures |t.tags| == |t.ends|
  {
  }

  lemma SweptNone(t: Toks, e: seq<Edit>)
    ensures Swept(t, e, 0, [])
  {
  }

  lemma SweptAll(t: Toks, e: seq<Edit>, f: seq<Edit>)
    requires Swept(t, e, |e|, f)
    ensures Thins(t, e, f)
  {
    assert e[..|e|] == e;
  }

  // ---------- the cleanup ----------

  const SWEEPS := 8

  /** Sweep and join, again while a sweep gives something up, `left` times at most. */
  ghost function Cleaned(old_: Toks, new_: Toks, e: seq<Edit>, left: nat): (f: seq<Edit>)
    requires |old_.ends| == |old_.tags| && |new_.ends| == |new_.tags| && NonEmpty(e)
    ensures NonEmpty(f)
    decreases left
  {
    if left == 0 then e
    else
      var f := SweptTo(old_, new_, e, |e|);
      JoinedTight(f);
      if f == e then Joined(f) else Cleaned(old_, new_, Joined(f), left - 1)
  }

  lemma CleanedStep(old_: Toks, new_: Toks, e: seq<Edit>, left: nat, f: seq<Edit>, g: seq<Edit>)
    requires |old_.ends| == |old_.tags| && |new_.ends| == |new_.tags| && NonEmpty(e) && NonEmpty(g)
    requires left > 0 && f == SweptTo(old_, new_, e, |e|) && g == Joined(f)
    ensures Cleaned(old_, new_, e, left) == if f == e then g else Cleaned(old_, new_, g, left - 1)
  {
  }

  lemma CleanedNone(old_: Toks, new_: Toks, e: seq<Edit>)
    requires |old_.ends| == |old_.tags| && |new_.ends| == |new_.tags| && NonEmpty(e)
    ensures Cleaned(old_, new_, e, 0) == e
  {
  }

  /** The cleanup ends where no run is left to give up, unless every one of its sweeps gave one up. */
  lemma {:induction false} CleanedSettles(old_: Toks, new_: Toks, e: seq<Edit>, left: nat)
    requires |old_.ends| == |old_.tags| && |new_.ends| == |new_.tags| && Tight(e)
    ensures NonEmpty(e)
    ensures var f := Cleaned(old_, new_, e, left);
      SweptTo(old_, new_, f, |f|) == f || 0 < Loose(new_, f, 0) <= Loose(new_, e, 0) - left
    decreases left
  {
    hide SweptTo, Loose, News, Joined, FalseRun, Tight;
    TightSolid(e);
    SweepLoses(old_, new_, e, |e|);
    assert e[..|e|] == e;
    if left > 0 {
      var f := SweptTo(old_, new_, e, |e|);
      JoinedTight(f);
      if f == e {
        TightUnique(Joined(e), e);
      } else {
        LooseJoined(new_, f);
        CleanedSettles(old_, new_, Joined(f), left - 1);
      }
    }
  }

  /** One sweep and the merge after it. */
  method SweepOnce(cur: array<Edit>, n: nat, next: array<Edit>, oldOff: array<nat>, newOff: array<nat>, old_: Toks,
          new_: Toks)
      returns (w: nat, changed: bool)
    requires ToksOk(old_) && ToksOk(new_) && cur != next && oldOff != newOff
    requires n <= cur.Length && n <= oldOff.Length == newOff.Length && 2 * n <= next.Length
    requires NonEmpty(cur[..n])
    modifies next, oldOff, newOff
    ensures w <= next.Length && NonEmpty(next[..w]) && Thins(new_, cur[..n], next[..w]) && cur[..n] == old(cur[..n])
    ensures var f := SweptTo(old_, new_, cur[..n], n);
      next[..w] == Joined(f) && changed == (f != cur[..n])
  {
    hide Thins, ToksOk, SameFrom, SweptTo, Joined;
    w, changed := Sweep(cur, n, next, oldOff, newOff, old_, new_);
    ghost var f := next[..w];
    w := Merge(next, w);
    ThinsSame(new_, f, next[..w]);
    ThinsTrans(new_, cur[..n], f, next[..w]);
  }

  /** Sweeps until nothing changes, eight times at most; the buffers swap roles after every sweep.
    * Twice the tokens of both sides is room enough in every sweep. */
  method SweepAll(edl: array<Edit>, n: nat, old_: Toks, new_: Toks) returns (n': nat)
    requires ToksOk(old_) && ToksOk(new_) && n <= edl.Length && |old_.ends| + |new_.ends| <= edl.Length
    requires NonEmpty(edl[..n]) && Turns(edl[..n], Texts(old_), Texts(new_))
    modifies edl
    ensures n' <= |old_.ends| + |new_.ends| && Thins(new_, old(edl[..n]), edl[..n']) && NonEmpty(edl[..n'])
    ensures edl[..n'] == Cleaned(old_, new_, old(edl[..n]), SWEEPS)
  {
    hide Thins, Turns, ToksOk, SameFrom, Texts, SweptTo, Joined, Cleaned;
    ghost var e := edl[..n];
    ToksTags(old_);
    ToksTags(new_);
    var total := |old_.ends| + |new_.ends|;
    ListFits(e, old_, new_);
    var cap := total * 2 + 16;
    if cap < n * 2 + 16 {
      cap := n * 2 + 16;
    }
    assert cap == total * 2 + 16;
    var cur, next := new Edit[cap], new Edit[cap];
    var oldOff, newOff := new nat[cap], new nat[cap];
    CopyBack(cur, edl, n);
    var m := n;
    ThinsRefl(new_, e);
    for iter := 0 to SWEEPS
      invariant cur != next && oldOff != newOff && cur.Length == next.Length == oldOff.Length == newOff.Length == cap
      invariant fresh(cur) && fresh(next) && fresh(oldOff) && fresh(newOff)
      invariant m <= total && NonEmpty(cur[..m]) && Thins(new_, e, cur[..m])
      invariant Cleaned(old_, new_, cur[..m], SWEEPS - iter) == Cleaned(old_, new_, e, SWEEPS)
      invariant iter == SWEEPS ==> cur[..m] == Cleaned(old_, new_, e, SWEEPS)
    {
      var w, changed := SweepOnce(cur, m, next, oldOff, newOff, old_, new_);
      ThinsTrans(new_, e, cur[..m], next[..w]);
      ThinsTurns(new_, e, next[..w], Texts(old_), Texts(new_));
      ListFits(next[..w], old_, new_);
      CleanedStep(old_, new_, cur[..m], SWEEPS - iter, SweptTo(old_, new_, cur[..m], m), next[..w]);
      cur, next := next, cur;
      m := w;
      if !changed {
        break;
      }
      CleanedNone(old_, new_, cur[..m]);
    }
    n' := if m < edl.Length then m else edl.Length;
    CopyBack(edl, cur, n');
  }

  lemma ThinsRefl(t: Toks, e: seq<Edit>)
    ensures Thins(t, e, e)
  {
  }

  /** A non-empty list has no more entries than the two sides have tokens. */
  lemma ListFits(e: seq<Edit>, old_: Toks, new_: Toks)
    requires NonEmpty(e) && Turns(e, Texts(old_), Texts(new_))
    ensures |e| <= |old_.ends| + |new_.ends|
  {
    NonEmptyBound(e);
  }

  /** What the cleanup leaves of a list. */
  ghost function CleanupOf(old_: Toks, new_: Toks, e: seq<Edit>): seq<Edit>
    requires |old_.ends| == |old_.tags| && |new_.ends| == |new_.tags| && NonEmpty(e)
  {
    Canon(if |e| < 3 then e else Cleaned(old_, new_, e, SWEEPS))
  }

  /** Cleaned up: still a script from old to new, in normal form, no pair gained, no protected pair lost. */
  method Cleanup(edl: array<Edit>, n: nat, old_: Toks, new_: Toks) returns (n': nat)
    requires ToksOk(old_) && ToksOk(new_) && n <= edl.Length && |old_.ends| + |new_.ends| <= edl.Length
    requires NonEmpty(edl[..n]) && Turns(edl[..n], Texts(old_), Texts(new_))
    modifies edl
    ensures n' <= edl.Length && Turns(edl[..n'], Texts(old_), Texts(new_)) && Normal(edl[..n'])
    ensures Thins(new_, old(edl[..n]), edl[..n'])
    ensures edl[..n'] == CleanupOf(old_, new_, old(edl[..n]))
  {
    hide Thins, Turns, ToksOk, SameFrom, Texts, Normal, Canon, Cleaned;
    ghost var e := edl[..n];
    ToksTags(old_);
    ToksTags(new_);
    ThinsRefl(new_, e);
    var m := n;
    if n >= 3 {
      m := SweepAll(edl, n, old_, new_);
    }
    ghost var f := edl[..m];
    n' := Canonicalize(edl, m);
    CanonNormal(f);
    ThinsSame(new_, f, edl[..n']);
    ThinsTrans(new_, e, f, edl[..n']);
    ThinsTurns(new_, e, edl[..n'], Texts(old_), Texts(new_));
  }

  lemma {:induction false} SweptSame(old_: Toks, new_: Toks, e: seq<Edit>, k: nat)
    requires |old_.ends| == |old_.tags| && |new_.ends| == |new_.tags| && NonEmpty(e) && k <= |e|
    requires forall j | 0 <= j < k :: !FalseRun(old_, new_, e, j)
    ensures SweptTo(old_, new_, e, k) == e[..k]
  {
    hide FalseRun, NonEmpty;
    if k > 0 {
      SweptSame(old_, new_, e, k - 1);
      TakeNext(e, k - 1);
    }
  }

  lemma NormalTight(e: seq<Edit>)
    requires Normal(e)
    ensures Tight(e)
  {
    forall k | 0 <= k < |e| - 1
      ensures Unlike(e[k], e[k + 1])
    {
      assert Follows(e[k].op, e[k + 1].op);
    }
  }

  /** A normal list without a run to give up stays as it is. */
  lemma CleanupStays(old_: Toks, new_: Toks, e: seq<Edit>)
    requires |old_.ends| == |old_.tags| && |new_.ends| == |new_.tags| && NonEmpty(e) && Normal(e)
    requires forall k | 0 <= k < |e| :: !FalseRun(old_, new_, e, k)
    ensures CleanupOf(old_, new_, e) == e
  {
    hide SweptTo, Joined, FalseRun, Tight, Normal, Canon, NonEmpty;
    CanonFixed(e);
    SweptSame(old_, new_, e, |e|);
    assert e[..|e|] == e;
    NormalTight(e);
    JoinedTight(e);
    TightUnique(Joined(e), e);
    CleanedStep(old_, new_, e, SWEEPS, e, Joined(e));
  }
}
