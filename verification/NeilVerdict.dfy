/** What the cleanup gives up, in byte counts: which kept runs of a script are false equalities, and that none is
  * left. */
module NeilVerdict {
  import opened Common
  import opened Script
  import opened EditLists
  import opened EditCanon
  import opened NeilTokens
  import opened NeilCanon
  import opened NeilCleanup

  // ---------- bytes by position ----------

  /** A byte of a token that is no whitespace. */
  ghost predicate InkAt(t: Toks, k: nat, p: nat)
    requires k < |t.ends| == |t.tags|
  {
    Lo(t, k) <= p < Hi(t, k) && !IsSpace(t, k)
  }

  /** The bytes of the tokens [i, j) that are no whitespace. */
  ghost function Inked(t: Toks, i: nat, j: nat): set<nat>
    requires j <= |t.ends| == |t.tags|
  {
    set k: nat, p: nat | i <= k < j && p < |t.src| && InkAt(t, k, p) :: p
  }

  ghost function Interval(lo: nat, hi: nat): (s: set<nat>)
    requires lo <= hi
    ensures |s| == hi - lo && forall p: nat :: p in s <==> lo <= p < hi
    decreases hi - lo
  {
    if lo == hi then {} else Interval(lo, hi - 1) + {hi - 1}
  }

  lemma TokBounds(t: Toks, i: nat)
    requires ToksOk(t) && i < |t.ends|
    ensures Lo(t, i) < Hi(t, i) <= |t.src| && |TextAt(t, i)| == Hi(t, i) - Lo(t, i)
    ensures forall k: nat | i < k < |t.ends| :: Hi(t, i) <= Lo(t, k)
  {
    forall k: nat | i < k < |t.ends|
      ensures Hi(t, i) <= Lo(t, k)
    {
      assert k - 1 > i ==> t.ends[i] < t.ends[k - 1];
    }
  }

  ghost function InkOf(t: Toks, i: nat): set<nat>
    requires ToksOk(t) && i < |t.ends|
  {
    TokBounds(t, i);
    if IsSpace(t, i) then {} else Interval(Lo(t, i), Hi(t, i))
  }

  lemma InkedFirst(t: Toks, i: nat, j: nat)
    requires ToksOk(t) && i < j <= |t.ends|
    ensures Inked(t, i, j) == InkOf(t, i) + Inked(t, i + 1, j)
    ensures InkOf(t, i) !! Inked(t, i + 1, j)
  {
    hide IsSpace, Interval;
    TokBounds(t, i);
    forall p: nat
      ensures p in Inked(t, i, j) <==> p in InkOf(t, i) + Inked(t, i + 1, j)
    {
      if p in Inked(t, i, j) {
        var k: nat :| i <= k < j && p < |t.src| && InkAt(t, k, p);
        assert k == i || i + 1 <= k;
      }
      if p in InkOf(t, i) {
        assert InkAt(t, i, p);
      }
    }
    forall p: nat | p in Inked(t, i + 1, j)
      ensures p !in InkOf(t, i)
    {
      var k: nat :| i + 1 <= k < j && p < |t.src| && InkAt(t, k, p);
      assert Hi(t, i) <= Lo(t, k);
    }
  }

  /** Counted by position or token by token. */
  lemma {:induction false} InkedCount(t: Toks, i: nat, j: nat)
    requires ToksOk(t) && i <= j <= |t.ends|
    ensures SpanFrom(t, i, j, true) == |Inked(t, i, j)|
    ensures SpanFrom(t, i, j, false) == if i == j then 0 else Hi(t, j - 1) - Lo(t, i)
    decreases j - i
  {
    hide IsSpace, Interval;
    if i < j {
      InkedCount(t, i + 1, j);
      InkedFirst(t, i, j);
      TokBounds(t, i);
    } else {
      assert Inked(t, i, j) == {};
    }
  }

  lemma {:induction false} SpanSplit(t: Toks, i: nat, j: nat, k: nat, skipWs: bool)
    requires i <= j <= k <= |t.ends| == |t.tags|
    ensures SpanFrom(t, i, k, skipWs) == SpanFrom(t, i, j, skipWs) + SpanFrom(t, j, k, skipWs)
    decreases j - i
  {
    if i < j {
      SpanSplit(t, i + 1, j, k, skipWs);
    }
  }

  /** A byte between two tokens' ends is a byte of one of those between. */
  lemma {:induction false} TokenAt(t: Toks, i: nat, j: nat, p: nat) returns (k: nat)
    requires ToksOk(t) && i < j <= |t.ends| && Lo(t, i) <= p < Hi(t, j - 1)
    ensures i <= k < j && Lo(t, k) <= p < Hi(t, k)
    decreases j - i
  {
    TokBounds(t, i);
    if p < Hi(t, i) {
      k := i;
    } else {
      assert Lo(t, i + 1) == Hi(t, i);
      k := TokenAt(t, i + 1, j, p);
    }
  }

  lemma TokensRise(t: Toks, i: nat, k: nat, j: nat)
    requires ToksOk(t) && i <= k < j <= |t.ends|
    ensures Lo(t, i) <= Lo(t, k) < Hi(t, k) <= Hi(t, j - 1) <= |t.src|
  {
    TokBounds(t, i);
    TokBounds(t, k);
    TokBounds(t, j - 1);
  }

  lemma NewlineTok(t: Toks, i: nat, j: nat, p: nat) returns (k: nat)
    requires ToksOk(t) && i < j <= |t.ends| && Lo(t, i) <= p < Hi(t, j - 1) && p < |t.src| && t.src[p] == NEWLINE
    ensures i <= k < j && HasNewline(t, k)
  {
    k := TokenAt(t, i, j, p);
    TokBounds(t, k);
    assert TextAt(t, k)[p - Lo(t, k)] == NEWLINE;
  }

  lemma NewlineByte(t: Toks, i: nat, j: nat, k: nat) returns (p: nat)
    requires ToksOk(t) && i <= k < j <= |t.ends| && HasNewline(t, k)
    ensures Lo(t, i) <= p < Hi(t, j - 1) && p < |t.src| && t.src[p] == NEWLINE
  {
    TokensRise(t, i, k, j);
    var q :| 0 <= q < |TextAt(t, k)| && TextAt(t, k)[q] == NEWLINE;
    p := Lo(t, k) + q;
  }

  ghost predicate NoBreak(src: seq<Byte>, lo: nat, hi: nat) {
    forall p: nat | lo <= p < hi && p < |src| :: src[p] != NEWLINE
  }

  /** A stretch has a line break if and only if one of its tokens has. */
  lemma NewlineAt(t: Toks, i: nat, j: nat)
    requires ToksOk(t) && i < j <= |t.ends|
    ensures NoBreak(t.src, Lo(t, i), Hi(t, j - 1)) <==> forall k: nat | i <= k < j :: !HasNewline(t, k)
  {
    hide HasNewline;
    if p: nat :| Lo(t, i) <= p < Hi(t, j - 1) && p < |t.src| && t.src[p] == NEWLINE {
      var k := NewlineTok(t, i, j, p);
    } else if k: nat :| i <= k < j && HasNewline(t, k) {
      var p := NewlineByte(t, i, j, k);
    }
  }

  // ---------- the line around a stretch ----------

  /** Bytes [b, e) are the line or lines that bytes [lo, hi) sit in, the line break itself left out. */
  ghost predicate LineAround(src: seq<Byte>, lo: nat, hi: nat, b: nat, e: nat) {
    && b <= lo <= hi <= e <= |src|
    && (forall p | b <= p < lo :: src[p] != NEWLINE) && (forall p | hi <= p < e :: src[p] != NEWLINE)
    && (b == 0 || src[b - 1] == NEWLINE) && (e == |src| || src[e] == NEWLINE)
  }

  lemma {:induction false} LineStartIs(src: seq<Byte>, p: nat)
    requires p <= |src|
    ensures var b := LineStart(src, p);
      b <= p && (forall q | b <= q < p :: src[q] != NEWLINE) && (b == 0 || src[b - 1] == NEWLINE)
  {
    if p > 0 && src[p - 1] != NEWLINE {
      LineStartIs(src, p - 1);
    }
  }

  lemma {:induction false} LineEndIs(src: seq<Byte>, p: nat)
    requires p <= |src|
    ensures var e := LineEnd(src, p);
      p <= e <= |src| && (forall q | p <= q < e :: src[q] != NEWLINE) && (e == |src| || src[e] == NEWLINE)
    decreases |src| - p
  {
    if p < |src| && src[p] != NEWLINE {
      LineEndIs(src, p + 1);
    }
  }

  lemma LineHolds(src: seq<Byte>, lo: nat, hi: nat, b: nat, e: nat, p: nat)
    requires LineAround(src, lo, hi, b, e) && p < |src| && src[p] == NEWLINE
    ensures p < lo ==> p < b
    ensures p >= hi ==> p >= e
  {
  }

  lemma LineUnique(src: seq<Byte>, lo: nat, hi: nat, b: nat, e: nat, b': nat, e': nat)
    requires LineAround(src, lo, hi, b, e) && LineAround(src, lo, hi, b', e')
    ensures b == b' && e == e'
  {
    if b > 0 {
      LineHolds(src, lo, hi, b', e', b - 1);
    }
    if b' > 0 {
      LineHolds(src, lo, hi, b, e, b' - 1);
    }
    if e < |src| {
      LineHolds(src, lo, hi, b', e', e);
    }
    if e' < |src| {
      LineHolds(src, lo, hi, b, e, e');
    }
  }

  /** A fragment: less than a quarter of a line of four bytes or more. */
  ghost predicate Fragment(src: seq<Byte>, lo: nat, hi: nat) {
    exists b: nat, e: nat :: LineAround(src, lo, hi, b, e) && e - b >= 4 && 4 * (hi - lo) < e - b
  }

  lemma FragmentIs(t: Toks, from: nat, count: nat)
    requires ToksOk(t) && 0 < count && from + count <= |t.ends|
    ensures var lo, hi, span := Lo(t, from), Hi(t, from + count - 1), LineSpan(t, from, count);
      lo <= hi && (Fragment(t.src, lo, hi) <==> span >= 4 && (hi - lo) * 4 < span)
  {
    hide LineStart, LineEnd;
    var lo, hi := Lo(t, from), Hi(t, from + count - 1);
    TokensRise(t, from, from, from + count);
    LineStartIs(t.src, lo);
    LineEndIs(t.src, hi);
    var b, e := LineStart(t.src, lo), LineEnd(t.src, hi);
    assert LineAround(t.src, lo, hi, b, e);
    forall b': nat, e': nat | LineAround(t.src, lo, hi, b', e')
      ensures b' == b && e' == e
    {
      LineUnique(t.src, lo, hi, b, e, b', e');
    }
  }

  // ---------- the verdict ----------

  /** A kept run of `n` tokens, from old token `i` and new token `j` on; the change before it starts at old `o0` and
    * new `n0`, the one behind it ends at old `o1` and new `n1`. */
  datatype Run = Run(o0: nat, n0: nat, i: nat, j: nat, n: nat, o1: nat, n1: nat)

  ghost predicate RunIn(old_: Toks, new_: Toks, r: Run) {
    && ToksOk(old_) && ToksOk(new_) && r.n > 0
    && r.o0 <= r.i && r.n0 <= r.j && r.i + r.n <= r.o1 <= |old_.ends| && r.j + r.n <= r.n1 <= |new_.ends|
  }

  /** Bytes changed, whitespace left out: of both sides together. */
  ghost function Changed(old_: Toks, new_: Toks, o: nat, n: nat, o': nat, n': nat): nat
    requires ToksOk(old_) && ToksOk(new_) && o' <= |old_.ends| && n' <= |new_.ends|
  {
    |Inked(old_, o, o')| + |Inked(new_, n, n')|
  }

  /** A false equality: changes on both sides, no identifier and no line break in it, and it is a fragment of its
    * line, or whitespace of fewer bytes than change, or under 16 bytes and fewer than change around it, or under 64
    * and fewer than change on either side. */
  ghost predicate GivenUp(old_: Toks, new_: Toks, r: Run)
    requires RunIn(old_, new_, r)
  {
    var lo, hi := Lo(new_, r.j), Hi(new_, r.j + r.n - 1);
    var kept := |Inked(new_, r.j, r.j + r.n)|;
    var before := Changed(old_, new_, r.o0, r.n0, r.i, r.j);
    var after := Changed(old_, new_, r.i + r.n, r.j + r.n, r.o1, r.n1);
    && before > 0 && after > 0
    && (forall t: nat | r.j <= t < r.j + r.n :: !IsIdent(new_, t))
    && NoBreak(new_.src, lo, hi)
    && (if Fragment(new_.src, lo, hi) then true
        else if kept == 0 then hi - lo < before + after
        else if kept < 16 then kept < before + after
        else kept < 64 && kept < before && kept < after)
  }

  // ---------- the runs of a list ----------

  /** Where the change before entry `k` starts. */
  ghost function GapFrom(e: seq<Edit>, k: nat): (j: nat)
    requires k <= |e|
    ensures j <= k && (forall x | j <= x < k :: e[x].op != EQ) && (j == 0 || e[j - 1].op == EQ)
  {
    if k == 0 || e[k - 1].op == EQ then k else GapFrom(e, k - 1)
  }

  /** Where the change from entry `k` on ends. */
  ghost function GapTo(e: seq<Edit>, k: nat): (j: nat)
    requires k <= |e|
    ensures k <= j <= |e| && (forall x | k <= x < j :: e[x].op != EQ) && (j == |e| || e[j].op == EQ)
    decreases |e| - k
  {
    if k == |e| || e[k].op == EQ then k else GapTo(e, k + 1)
  }

  ghost function RunAt(e: seq<Edit>, k: nat): Run
    requires k < |e|
  {
    var x, y := e[..GapFrom(e, k)], e[..GapTo(e, k + 1)];
    Run(Olds(x), News(x), Olds(e[..k]), News(e[..k]), e[k].len, Olds(y), News(y))
  }

  /** The list starts at nothing and ends at the end of both sides. */
  ghost predicate Covers(e: seq<Edit>, old_: Toks, new_: Toks) {
    ToksOk(old_) && ToksOk(new_) && NonEmpty(e) && Olds(e) == |old_.ends| && News(e) == |new_.ends|
  }

  lemma TotalsStep(e: seq<Edit>, k: nat)
    requires k < |e|
    ensures Olds(e[..k + 1]) == Olds(e[..k]) + (if e[k].op == INS then 0 else e[k].len)
    ensures News(e[..k + 1]) == News(e[..k]) + (if e[k].op == DEL then 0 else e[k].len)
  {
    TakeNext(e, k);
    TotalsConcat(e[..k], [e[k]]);
    PairsOne(e[k], 0, 0);
  }

  lemma {:induction false} TotalsRise(e: seq<Edit>, j: nat, k: nat)
    requires j <= k <= |e|
    ensures Olds(e[..j]) <= Olds(e[..k]) && News(e[..j]) <= News(e[..k])
    decreases k - j
  {
    if j < k {
      TotalsRise(e, j, k - 1);
      TotalsStep(e, k - 1);
    }
  }

  lemma TotalsEnd(e: seq<Edit>, k: nat)
    requires k <= |e|
    ensures Olds(e[..k]) <= Olds(e) && News(e[..k]) <= News(e)
  {
    TotalsRise(e, k, |e|);
    assert e[..|e|] == e;
  }

  /** The changed bytes the cleanup adds up entry by entry are those of two stretches. */
  lemma {:induction false} BeforeIs(old_: Toks, new_: Toks, e: seq<Edit>, k: nat)
    requires Covers(e, old_, new_) && k <= |e|
    ensures var x := e[..GapFrom(e, k)];
      && Olds(x) <= Olds(e[..k]) <= |old_.ends| && News(x) <= News(e[..k]) <= |new_.ends|
      && Before(old_, new_, e, OldStarts(e), NewStarts(e), k)
         == SpanFrom(old_, Olds(x), Olds(e[..k]), true) + SpanFrom(new_, News(x), News(e[..k]), true)
    decreases k
  {
    hide SpanFrom, Olds, News, ToksOk;
    ToksTags(old_);
    ToksTags(new_);
    TotalsRise(e, GapFrom(e, k), k);
    TotalsEnd(e, k);
    if k == 0 || e[k - 1].op == EQ {
      SpanNone(old_, Olds(e[..k]));
      SpanNone(new_, News(e[..k]));
    } else {
      BeforeIs(old_, new_, e, k - 1);
      TotalsStep(e, k - 1);
      var x := e[..GapFrom(e, k)];
      SpanSplit(old_, Olds(x), Olds(e[..k - 1]), Olds(e[..k]), true);
      SpanSplit(new_, News(x), News(e[..k - 1]), News(e[..k]), true);
      SpanNone(old_, Olds(e[..k]));
      SpanNone(new_, News(e[..k]));
    }
  }

  lemma SpanNone(t: Toks, i: nat)
    requires i <= |t.ends| == |t.tags|
    ensures SpanFrom(t, i, i, true) == 0
  {
  }

  lemma {:induction false} AfterIs(old_: Toks, new_: Toks, e: seq<Edit>, k: nat)
    requires Covers(e, old_, new_) && k <= |e|
    ensures var y := e[..GapTo(e, k)];
      && Olds(e[..k]) <= Olds(y) <= |old_.ends| && News(e[..k]) <= News(y) <= |new_.ends|
      && After(old_, new_, e, OldStarts(e), NewStarts(e), k)
         == SpanFrom(old_, Olds(e[..k]), Olds(y), true) + SpanFrom(new_, News(e[..k]), News(y), true)
    decreases |e| - k
  {
    hide SpanFrom, Olds, News, ToksOk;
    ToksTags(old_);
    ToksTags(new_);
    TotalsRise(e, k, GapTo(e, k));
    TotalsEnd(e, GapTo(e, k));
    if k == |e| || e[k].op == EQ {
      SpanNone(old_, Olds(e[..k]));
      SpanNone(new_, News(e[..k]));
    } else {
      AfterIs(old_, new_, e, k + 1);
      TotalsStep(e, k);
      var y := e[..GapTo(e, k)];
      SpanSplit(old_, Olds(e[..k]), Olds(e[..k + 1]), Olds(y), true);
      SpanSplit(new_, News(e[..k]), News(e[..k + 1]), News(y), true);
      SpanNone(old_, Olds(e[..k]));
      SpanNone(new_, News(e[..k]));
    }
  }

  lemma RunFits(old_: Toks, new_: Toks, e: seq<Edit>, k: nat)
    requires Covers(e, old_, new_) && k < |e| && e[k].op == EQ
    ensures RunIn(old_, new_, RunAt(e, k))
    ensures RunAt(e, k).i + e[k].len == Olds(e[..k + 1]) && RunAt(e, k).j + e[k].len == News(e[..k + 1])
  {
    hide Olds, News;
    TotalsStep(e, k);
    TotalsRise(e, GapFrom(e, k), k);
    TotalsRise(e, k + 1, GapTo(e, k + 1));
    TotalsEnd(e, GapTo(e, k + 1));
  }

  /** A stretch without a line break has no line of code between two of them. */
  lemma NoCodeLine(t: Toks, from: nat, count: nat)
    requires ToksOk(t) && 0 < count && from + count <= |t.ends|
    requires NoBreak(t.src, Lo(t, from), Hi(t, from + count - 1))
    ensures !HasCodeLine(t, from, count)
  {
    hide CodeLine;
  }

  lemma KeptIs(t: Toks, from: nat, count: nat)
    requires ToksOk(t) && 0 < count && from + count <= |t.ends|
    ensures SpanBytes(t, from, count, true) == |Inked(t, from, from + count)|
    ensures Lo(t, from) <= Hi(t, from + count - 1)
    ensures SpanBytes(t, from, count, false) == Hi(t, from + count - 1) - Lo(t, from)
  {
    hide Inked, SpanFrom, IsSpace;
    InkedCount(t, from, from + count);
    TokensRise(t, from, from, from + count);
  }

  lemma BeforeRun(old_: Toks, new_: Toks, e: seq<Edit>, k: nat)
    requires Covers(e, old_, new_) && k < |e| && e[k].op == EQ
    ensures var r := RunAt(e, k);
      && r.o0 <= r.i <= |old_.ends| && r.n0 <= r.j <= |new_.ends|
      && Before(old_, new_, e, OldStarts(e), NewStarts(e), k)
         == SpanFrom(old_, r.o0, r.i, true) + SpanFrom(new_, r.n0, r.j, true)
  {
    hide Olds, News, SpanFrom, Before, OldStarts, NewStarts, GapFrom, GapTo, Covers, ToksOk, NonEmpty;
    BeforeIs(old_, new_, e, k);
  }

  lemma AfterRun(old_: Toks, new_: Toks, e: seq<Edit>, k: nat)
    requires Covers(e, old_, new_) && k < |e| && e[k].op == EQ
    ensures var r := RunAt(e, k);
      && r.i + r.n <= r.o1 <= |old_.ends| && r.j + r.n <= r.n1 <= |new_.ends|
      && After(old_, new_, e, OldStarts(e), NewStarts(e), k + 1)
         == SpanFrom(old_, r.i + r.n, r.o1, true) + SpanFrom(new_, r.j + r.n, r.n1, true)
  {
    hide Olds, News, SpanFrom, After, OldStarts, NewStarts, GapFrom, GapTo, Covers, ToksOk, NonEmpty;
    RunFits(old_, new_, e, k);
    AfterIs(old_, new_, e, k + 1);
  }

  lemma ChangedIs(old_: Toks, new_: Toks, e: seq<Edit>, k: nat)
    requires Covers(e, old_, new_) && k < |e| && e[k].op == EQ
    ensures RunIn(old_, new_, RunAt(e, k))
    ensures var r := RunAt(e, k);
      && Before(old_, new_, e, OldStarts(e), NewStarts(e), k) == Changed(old_, new_, r.o0, r.n0, r.i, r.j)
      && After(old_, new_, e, OldStarts(e), NewStarts(e), k + 1)
         == Changed(old_, new_, r.i + r.n, r.j + r.n, r.o1, r.n1)
  {
    hide SpanFrom, Before, After, Inked, OldStarts, NewStarts, RunAt, ToksOk, NonEmpty, Changed, Olds, News;
    RunFits(old_, new_, e, k);
    BeforeRun(old_, new_, e, k);
    AfterRun(old_, new_, e, k);
    var r := RunAt(e, k);
    ChangedCount(old_, new_, r.o0, r.n0, r.i, r.j);
    ChangedCount(old_, new_, r.i + r.n, r.j + r.n, r.o1, r.n1);
  }

  lemma ChangedCount(old_: Toks, new_: Toks, o: nat, n: nat, o': nat, n': nat)
    requires ToksOk(old_) && ToksOk(new_) && o <= o' <= |old_.ends| && n <= n' <= |new_.ends|
    ensures SpanFrom(old_, o, o', true) + SpanFrom(new_, n, n', true) == Changed(old_, new_, o, n, o', n')
  {
    hide Inked, SpanFrom;
    InkedCount(old_, o, o');
    InkedCount(new_, n, n');
  }

  /** The verdict of a sweep on a kept run is the one in byte counts. */
  lemma KillsMeans(old_: Toks, new_: Toks, e: seq<Edit>, k: nat)
    requires Covers(e, old_, new_) && k < |e| && e[k].op == EQ
    ensures RunIn(old_, new_, RunAt(e, k))
    ensures FalseRun(old_, new_, e, k) <==> GivenUp(old_, new_, RunAt(e, k))
  {
    hide SpanBytes, Before, After, LineSpan, HasCodeLine, IsIdent, HasNewline, Fragment, Changed, Inked, NoBreak, Olds,
      News, ToksOk, RunAt;
    ChangedIs(old_, new_, e, k);
    RunStarts(e, k);
    var r := RunAt(e, k);
    RunTags(old_, new_, r);
    KeptIs(new_, r.j, r.n);
    FragmentIs(new_, r.j, r.n);
    NewlineAt(new_, r.j, r.j + r.n);
    if NoBreak(new_.src, Lo(new_, r.j), Hi(new_, r.j + r.n - 1)) {
      NoCodeLine(new_, r.j, r.n);
    }
  }

  lemma RunStarts(e: seq<Edit>, k: nat)
    requires k < |e|
    ensures RunAt(e, k).n == e[k].len && OldStarts(e)[k] == RunAt(e, k).i && NewStarts(e)[k] == RunAt(e, k).j
  {
  }

  lemma RunTags(old_: Toks, new_: Toks, r: Run)
    requires RunIn(old_, new_, r)
    ensures |old_.ends| == |old_.tags| && |new_.ends| == |new_.tags| && r.j + r.n <= |new_.ends|
  {
  }

  // ---------- what one sweep leaves ----------

  /** The pairs of a run. */
  ghost predicate InRun(r: Run, p: (nat, nat)) {
    r.i <= p.0 < r.i + r.n && p.1 == r.j + (p.0 - r.i)
  }

  /** Entry `k` is a kept run that is no false equality. */
  ghost predicate Stays(old_: Toks, new_: Toks, e: seq<Edit>, k: nat) {
    k < |e| && e[k].op == EQ && RunIn(old_, new_, RunAt(e, k)) && !GivenUp(old_, new_, RunAt(e, k))
  }

  /** Entry `k` stays, and the pair is one of its pairs. */
  ghost predicate StaysWith(old_: Toks, new_: Toks, e: seq<Edit>, k: nat, p: (nat, nat)) {
    Stays(old_, new_, e, k) && InRun(RunAt(e, k), p)
  }

  ghost predicate StaysIn(old_: Toks, new_: Toks, e: seq<Edit>, n: nat, p: (nat, nat)) {
    exists k: nat :: k < n && StaysWith(old_, new_, e, k, p)
  }

  lemma DiagonalIs(i: nat, j: nat, n: nat, p: (nat, nat))
    ensures p in Diagonal(i, j, n) <==> i <= p.0 < i + n && p.1 == j + (p.0 - i)
  {
    DiagonalElements(i, j, n);
    if i <= p.0 < i + n && p.1 == j + (p.0 - i) {
      assert Diagonal(i, j, n)[p.0 - i] == p;
    }
  }

  lemma StaysMore(old_: Toks, new_: Toks, e: seq<Edit>, k: nat, p: (nat, nat))
    ensures StaysIn(old_, new_, e, k + 1, p) <==> StaysIn(old_, new_, e, k, p) || StaysWith(old_, new_, e, k, p)
  {
    hide StaysWith;
    if x: nat :| x < k && StaysWith(old_, new_, e, x, p) {
      assert x < k + 1;
    }
  }

  /** Of a list's pairs a sweep leaves those of the runs that are no false equalities, and no others. */
  lemma {:induction false} SweptPairs(old_: Toks, new_: Toks, e: seq<Edit>, k: nat)
    requires Covers(e, old_, new_) && k <= |e|
    ensures var f := SweptTo(old_, new_, e, k);
      && Olds(f) == Olds(e[..k]) && News(f) == News(e[..k])
      && forall p :: p in Pairs(f, 0, 0) <==> StaysIn(old_, new_, e, k, p)
  {
    hide FalseRun, Pairs, Olds, News, Diagonal, StaysWith, StaysIn, ToksOk;
    ToksTags(old_);
    ToksTags(new_);
    if k == 0 {
      NothingStays(old_, new_, e);
    } else {
      var f, d := SweptTo(old_, new_, e, k - 1), e[k - 1];
      SweptPairs(old_, new_, e, k - 1);
      var more := if FalseRun(old_, new_, e, k - 1) then [Edit(DEL, d.len)] + [Edit(INS, d.len)] else [d];
      assert SweptTo(old_, new_, e, k) == f + more;
      TotalsConcat(f, more);
      PairsConcat(f, more, 0, 0);
      SweptEntry(old_, new_, e, k - 1, more);
      forall p
        ensures p in Pairs(f + more, 0, 0) <==> StaysIn(old_, new_, e, k, p)
      {
        StaysMore(old_, new_, e, k - 1, p);
      }
    }
  }

  lemma PairsNone(e: seq<Edit>)
    ensures Pairs(e[..0], 0, 0) == []
  {
  }

  lemma NothingStays(old_: Toks, new_: Toks, e: seq<Edit>)
    ensures Olds([]) == 0 && News([]) == 0 && Pairs([], 0, 0) == [] && Olds(e[..0]) == 0 && News(e[..0]) == 0
    ensures forall p :: !StaysIn(old_, new_, e, 0, p)
  {
  }

  lemma SweptEntry(old_: Toks, new_: Toks, e: seq<Edit>, k: nat, more: seq<Edit>)
    requires Covers(e, old_, new_) && k < |e| && |old_.ends| == |old_.tags| && |new_.ends| == |new_.tags|
    requires more == if FalseRun(old_, new_, e, k) then [Edit(DEL, e[k].len)] + [Edit(INS, e[k].len)] else [e[k]]
    ensures Olds(e[..k]) + Olds(more) == Olds(e[..k + 1]) && News(e[..k]) + News(more) == News(e[..k + 1])
    ensures forall p :: p in Pairs(more, Olds(e[..k]), News(e[..k])) <==> StaysWith(old_, new_, e, k, p)
  {
    hide FalseRun, Pairs, Olds, News, Diagonal, GivenUp, RunIn, ToksOk, RunAt;
    var i, j, d := Olds(e[..k]), News(e[..k]), e[k];
    TotalsStep(e, k);
    PairsOne(d, i, j);
    KillPairs(d.len, i, j);
    RunStarts(e, k);
    if FalseRun(old_, new_, e, k) {
      FalseRunPlain(old_, new_, e, k);
    }
    if d.op == EQ {
      KillsMeans(old_, new_, e, k);
      forall p
        ensures p in Diagonal(i, j, d.len) <==> InRun(RunAt(e, k), p)
      {
        DiagonalIs(i, j, d.len, p);
      }
    }
  }

  // ---------- the runs of a script, apart from its list ----------

  ghost predicate OnRun(ps: seq<(nat, nat)>, r: Run, x: nat) {
    (r.i + x, r.j + x) in ps
  }

  /** A kept run as the pairs have it: as long as it goes, the pairs before and behind it where the changes start
    * and end, or the ends of the texts, `a` old and `b` new tokens long. */
  ghost predicate KeptRun(ps: seq<(nat, nat)>, a: nat, b: nat, r: Run) {
    && r.n > 0 && (forall x: nat | x < r.n :: OnRun(ps, r, x)) && !OnRun(ps, r, r.n)
    && (r.i == 0 || r.j == 0 || (r.i - 1, r.j - 1) !in ps)
    && r.o0 <= r.i && r.n0 <= r.j
    && (if r.o0 == 0 || r.n0 == 0 then r.o0 == r.n0 == 0 else (r.o0 - 1, r.n0 - 1) in ps)
    && (forall p | p in ps :: p.0 < r.o0 || p.0 >= r.i)
    && r.i + r.n <= r.o1 <= a && r.j + r.n <= r.n1 <= b && ((r.o1 == a && r.n1 == b) || (r.o1, r.n1) in ps)
    && (forall p | p in ps :: p.0 < r.i + r.n || p.0 >= r.o1)
  }

  /** The pair `p` is in entry `k`. */
  ghost predicate PairIn(e: seq<Edit>, k: nat, p: (nat, nat)) {
    && k < |e| && e[k].op == EQ && Olds(e[..k]) <= p.0 < Olds(e[..k]) + e[k].len
    && p.1 == News(e[..k]) + (p.0 - Olds(e[..k]))
  }

  lemma {:induction false} PairEntry(e: seq<Edit>, n: nat, p: (nat, nat)) returns (k: nat)
    requires n <= |e| && p in Pairs(e[..n], 0, 0)
    ensures k < n && PairIn(e, k, p)
    decreases n
  {
    hide Pairs, Olds, News, Diagonal;
    if n == 0 {
      PairsNone(e);
      assert false;
    }
    TakeNext(e, n - 1);
    PairsConcat(e[..n - 1], [e[n - 1]], 0, 0);
    PairsOne(e[n - 1], Olds(e[..n - 1]), News(e[..n - 1]));
    DiagonalIs(Olds(e[..n - 1]), News(e[..n - 1]), e[n - 1].len, p);
    if p in Pairs(e[..n - 1], 0, 0) {
      k := PairEntry(e, n - 1, p);
    } else {
      k := n - 1;
    }
  }

  lemma {:induction false} EntryPair(e: seq<Edit>, n: nat, k: nat, p: (nat, nat))
    requires k < n <= |e| && PairIn(e, k, p)
    ensures p in Pairs(e[..n], 0, 0)
    decreases n
  {
    hide Pairs, Olds, News, Diagonal;
    TakeNext(e, n - 1);
    PairsConcat(e[..n - 1], [e[n - 1]], 0, 0);
    PairsOne(e[n - 1], Olds(e[..n - 1]), News(e[..n - 1]));
    if k == n - 1 {
      DiagonalIs(Olds(e[..k]), News(e[..k]), e[k].len, p);
    } else {
      EntryPair(e, n - 1, k, p);
    }
  }

  /** The pairs of a list are those of its kept entries. */
  lemma PairsByEntry(e: seq<Edit>, p: (nat, nat))
    ensures p in Pairs(e, 0, 0) <==> exists k: nat :: PairIn(e, k, p)
  {
    hide Pairs, PairIn;
    assert e[..|e|] == e;
    if p in Pairs(e, 0, 0) {
      var k := PairEntry(e, |e|, p);
    }
    if k: nat :| PairIn(e, k, p) {
      InsidePair(e, k, p);
      EntryPair(e, |e|, k, p);
    }
  }

  lemma InsidePair(e: seq<Edit>, k: nat, p: (nat, nat))
    requires PairIn(e, k, p)
    ensures k < |e| && e[k].op == EQ
    ensures Olds(e[..k]) <= p.0 < Olds(e[..k + 1]) <= Olds(e) && News(e[..k]) <= p.1 < News(e[..k + 1]) <= News(e)
  {
    hide Olds, News;
    TotalsStep(e, k);
    TotalsEnd(e, k + 1);
  }

  /** An entry before another has its pairs before that one. */
  lemma PairsApart(e: seq<Edit>, j: nat, k: nat, p: (nat, nat))
    requires PairIn(e, j, p) && k <= |e|
    ensures j < k ==> p.0 < Olds(e[..k]) && p.1 < News(e[..k])
    ensures j >= k ==> p.0 >= Olds(e[..k]) && p.1 >= News(e[..k])
  {
    hide Olds, News, PairIn;
    InsidePair(e, j, p);
    if j < k {
      TotalsRise(e, j + 1, k);
    } else {
      TotalsRise(e, k, j);
    }
  }

  /** Entry `k` ends where the next kept run starts only if they are one. */
  lemma NextApart(e: seq<Edit>, k: nat, j: nat, p: (nat, nat))
    requires Tight(e) && k < |e| && e[k].op == EQ && PairIn(e, j, p) && j > k
    ensures p.0 > Olds(e[..k + 1]) || p.1 > News(e[..k + 1])
  {
    hide Olds, News, PairIn;
    InsidePair(e, j, p);
    assert Unlike(e[k], e[k + 1]);
    assert e[k + 1].len > 0;
    PairsApart(e, j, k + 2, p);
    TotalsStep(e, k + 1);
  }

  /** The run starts where an entry does, and is as long. */
  lemma RunEntry(e: seq<Edit>, a: nat, b: nat, r: Run) returns (k: nat)
    requires Tight(e) && KeptRun(Pairs(e, 0, 0), a, b, r)
    ensures k < |e| && e[k].op == EQ && r.i == Olds(e[..k]) && r.j == News(e[..k]) && r.n == e[k].len
  {
    hide Pairs, Olds, News, Tight;
    var ps := Pairs(e, 0, 0);
    assert OnRun(ps, r, 0);
    var p := (r.i, r.j);
    PairsByEntry(e, p);
    k :| PairIn(e, k, p);
    if r.i > Olds(e[..k]) {
      assert PairIn(e, k, (r.i - 1, r.j - 1));
      PairsByEntry(e, (r.i - 1, r.j - 1));
    }
    TotalsStep(e, k);
    if r.n < e[k].len {
      var q := (r.i + r.n, r.j + r.n);
      assert PairIn(e, k, q);
      PairsByEntry(e, q);
    }
    if r.n > e[k].len {
      assert OnRun(ps, r, e[k].len);
      var q := (r.i + e[k].len, r.j + e[k].len);
      PairsByEntry(e, q);
      var j: nat :| PairIn(e, j, q);
      PairsApart(e, j, k + 1, q);
      NextApart(e, k, j, q);
    }
  }

  lemma RunBefore(e: seq<Edit>, a: nat, b: nat, r: Run, k: nat)
    requires Tight(e) && KeptRun(Pairs(e, 0, 0), a, b, r) && k < |e| && r.i == Olds(e[..k]) && r.j == News(e[..k])
    ensures r.o0 == Olds(e[..GapFrom(e, k)]) && r.n0 == News(e[..GapFrom(e, k)])
  {
    hide Pairs, Olds, News, Tight, PairIn;
    var ps, g := Pairs(e, 0, 0), GapFrom(e, k);
    if g > 0 {
      TightStep(e, g - 1);
      var q := (Olds(e[..g]) - 1, News(e[..g]) - 1);
      LastPair(e, g - 1, q);
      PairsByEntry(e, q);
      TotalsRise(e, g, k);
      assert q in ps && q.0 < r.o0;
    }
    if r.o0 > 0 && r.n0 > 0 {
      var q := (r.o0 - 1, r.n0 - 1);
      PairsByEntry(e, q);
      var j: nat :| PairIn(e, j, q);
      InsidePair(e, j, q);
      PairsApart(e, j, k, q);
      PairsApart(e, j, g, q);
      assert j < g;
      PairsApart(e, j, g - 1, q);
      TightStep(e, g - 1);
      SameEntry(e, j, q);
    } else if g == 0 {
      NothingBefore(e);
    }
  }

  lemma NothingBefore(e: seq<Edit>)
    ensures Olds(e[..0]) == 0 && News(e[..0]) == 0
  {
  }

  lemma TightStep(e: seq<Edit>, k: nat)
    requires Tight(e) && k < |e| && e[k].op == EQ
    ensures Olds(e[..k + 1]) > Olds(e[..k]) && News(e[..k + 1]) > News(e[..k])
    ensures Olds(e[..k + 1]) == Olds(e[..k]) + e[k].len && News(e[..k + 1]) == News(e[..k]) + e[k].len
  {
    hide Olds, News;
    TotalsStep(e, k);
  }

  /** The last pair of a kept entry. */
  lemma LastPair(e: seq<Edit>, k: nat, q: (nat, nat))
    requires Tight(e) && k < |e| && e[k].op == EQ && q.0 + 1 == Olds(e[..k + 1]) && q.1 + 1 == News(e[..k + 1])
    ensures PairIn(e, k, q)
  {
    hide Olds, News;
    TightStep(e, k);
  }

  /** Within an entry the new side follows from the old one. */
  lemma SameEntry(e: seq<Edit>, k: nat, q: (nat, nat))
    requires PairIn(e, k, q)
    ensures q.1 + Olds(e[..k]) == q.0 + News(e[..k])
  {
    hide Olds, News;
  }

  lemma RunBehind(e: seq<Edit>, a: nat, b: nat, r: Run, k: nat)
    requires Tight(e) && Olds(e) == a && News(e) == b && KeptRun(Pairs(e, 0, 0), a, b, r)
    requires k < |e| && r.i + r.n == Olds(e[..k + 1]) && r.j + r.n == News(e[..k + 1])
    ensures r.o1 == Olds(e[..GapTo(e, k + 1)]) && r.n1 == News(e[..GapTo(e, k + 1)])
  {
    hide Pairs, Olds, News, Tight, PairIn;
    var ps, g := Pairs(e, 0, 0), GapTo(e, k + 1);
    assert e[..|e|] == e;
    if g < |e| {
      var q := (Olds(e[..g]), News(e[..g]));
      FirstPair(e, g, q);
      PairsByEntry(e, q);
      TotalsRise(e, k + 1, g);
      InsidePair(e, g, q);
      TightStep(e, g);
      assert q in ps && q.0 >= r.o1;
    }
    if (r.o1, r.n1) in ps {
      var q := (r.o1, r.n1);
      PairsByEntry(e, q);
      var j: nat :| PairIn(e, j, q);
      InsidePair(e, j, q);
      PairsApart(e, j, k + 1, q);
      PairsApart(e, j, g, q);
      SameEntry(e, j, q);
      if g < |e| {
        PairsApart(e, j, g + 1, q);
      }
    }
  }

  lemma FirstPair(e: seq<Edit>, k: nat, q: (nat, nat))
    requires Tight(e) && k < |e| && e[k].op == EQ && q == (Olds(e[..k]), News(e[..k]))
    ensures PairIn(e, k, q)
  {
    hide Olds, News;
  }

  /** A kept run of the pairs is a kept entry of the list, the changes beside it those beside the entry. */
  lemma RunIsEntry(e: seq<Edit>, a: nat, b: nat, r: Run) returns (k: nat)
    requires Tight(e) && Olds(e) == a && News(e) == b && KeptRun(Pairs(e, 0, 0), a, b, r)
    ensures k < |e| && e[k].op == EQ && r == RunAt(e, k)
  {
    hide Pairs, Olds, News, Tight, KeptRun, GapFrom, GapTo;
    k := RunEntry(e, a, b, r);
    TotalsStep(e, k);
    RunBefore(e, a, b, r, k);
    RunBehind(e, a, b, r, k);
  }

  lemma PrevApart(e: seq<Edit>, k: nat, j: nat, p: (nat, nat))
    requires Tight(e) && k < |e| && e[k].op == EQ && PairIn(e, j, p) && j < k
    ensures p.0 + 1 < Olds(e[..k]) || p.1 + 1 < News(e[..k])
  {
    hide Olds, News, PairIn;
    InsidePair(e, j, p);
    assert Unlike(e[k - 1], e[k]);
    assert e[k - 1].len > 0;
    PairsApart(e, j, k - 1, p);
    TotalsStep(e, k - 1);
  }

  lemma PairOf(e: seq<Edit>, k: nat, x: nat)
    requires k < |e| && e[k].op == EQ && x < e[k].len
    ensures (Olds(e[..k]) + x, News(e[..k]) + x) in Pairs(e, 0, 0)
  {
    hide Pairs, Olds, News;
    var p := (Olds(e[..k]) + x, News(e[..k]) + x);
    assert PairIn(e, k, p);
    PairsByEntry(e, p);
  }

  lemma BehindApart(e: seq<Edit>, k: nat, j: nat, p: (nat, nat))
    requires Tight(e) && k < |e| && e[k].op == EQ && PairIn(e, j, p)
    ensures p.0 != Olds(e[..k + 1]) || p.1 != News(e[..k + 1])
  {
    hide Olds, News, PairIn, Tight;
    InsidePair(e, j, p);
    PairsApart(e, j, k + 1, p);
    if j > k {
      NextApart(e, k, j, p);
    }
  }

  lemma AheadApart(e: seq<Edit>, k: nat, j: nat, p: (nat, nat))
    requires Tight(e) && k < |e| && e[k].op == EQ && PairIn(e, j, p)
    ensures p.0 + 1 != Olds(e[..k]) || p.1 + 1 != News(e[..k])
  {
    hide Olds, News, PairIn, Tight;
    InsidePair(e, j, p);
    PairsApart(e, j, k, p);
    if j < k {
      PrevApart(e, k, j, p);
    }
  }

  lemma NoPairBehind(e: seq<Edit>, k: nat, p: (nat, nat))
    requires Tight(e) && k < |e| && e[k].op == EQ && p in Pairs(e, 0, 0)
    ensures p.0 != Olds(e[..k + 1]) || p.1 != News(e[..k + 1])
    ensures p.0 + 1 != Olds(e[..k]) || p.1 + 1 != News(e[..k])
  {
    hide Pairs, Olds, News, Tight, PairIn;
    PairsByEntry(e, p);
    var j: nat :| PairIn(e, j, p);
    BehindApart(e, k, j, p);
    AheadApart(e, k, j, p);
  }

  /** The run of entry `k` goes no further either way. */
  lemma EntryEnds(e: seq<Edit>, k: nat, r: Run)
    requires Tight(e) && k < |e| && e[k].op == EQ && r == RunAt(e, k)
    ensures var ps := Pairs(e, 0, 0);
      && r.n > 0 && (forall x: nat | x < r.n :: OnRun(ps, r, x)) && !OnRun(ps, r, r.n)
      && (r.i == 0 || r.j == 0 || (r.i - 1, r.j - 1) !in ps)
  {
    hide Pairs, Olds, News, GapFrom, GapTo, Tight;
    TightStep(e, k);
    forall x: nat | x < r.n
      ensures OnRun(Pairs(e, 0, 0), r, x)
    {
      PairOf(e, k, x);
    }
    forall p | p in Pairs(e, 0, 0)
      ensures p != (r.i + r.n, r.j + r.n) && p != (r.i - 1, r.j - 1)
    {
      NoPairBehind(e, k, p);
    }
  }

  lemma EntryBefore(e: seq<Edit>, k: nat, r: Run)
    requires Tight(e) && k < |e| && e[k].op == EQ && r == RunAt(e, k)
    ensures var ps := Pairs(e, 0, 0);
      && r.o0 <= r.i && r.n0 <= r.j
      && (if r.o0 == 0 || r.n0 == 0 then r.o0 == r.n0 == 0 else (r.o0 - 1, r.n0 - 1) in ps)
      && (forall p | p in ps :: p.0 < r.o0 || p.0 >= r.i)
  {
    hide Pairs, Olds, News, Tight, PairIn;
    var ps, g := Pairs(e, 0, 0), GapFrom(e, k);
    TotalsRise(e, g, k);
    if g == 0 {
      NothingBefore(e);
    } else {
      TightStep(e, g - 1);
      var q := (Olds(e[..g]) - 1, News(e[..g]) - 1);
      LastPair(e, g - 1, q);
      PairsByEntry(e, q);
    }
    forall p | p in ps
      ensures p.0 < r.o0 || p.0 >= r.i
    {
      PairsByEntry(e, p);
      var j: nat :| PairIn(e, j, p);
      InsidePair(e, j, p);
      PairsApart(e, j, g, p);
      PairsApart(e, j, k, p);
    }
  }

  lemma EntryBehind(e: seq<Edit>, a: nat, b: nat, k: nat, r: Run)
    requires Tight(e) && Olds(e) == a && News(e) == b && k < |e| && e[k].op == EQ && r == RunAt(e, k)
    ensures var ps := Pairs(e, 0, 0);
      && r.i + r.n <= r.o1 <= a && r.j + r.n <= r.n1 <= b && ((r.o1 == a && r.n1 == b) || (r.o1, r.n1) in ps)
      && (forall p | p in ps :: p.0 < r.i + r.n || p.0 >= r.o1)
  {
    hide Pairs, Olds, News, Tight, PairIn;
    var ps, g := Pairs(e, 0, 0), GapTo(e, k + 1);
    TightStep(e, k);
    TotalsRise(e, k + 1, g);
    TotalsEnd(e, g);
    assert e[..|e|] == e;
    if g < |e| {
      var q := (Olds(e[..g]), News(e[..g]));
      FirstPair(e, g, q);
      PairsByEntry(e, q);
    }
    forall p | p in ps
      ensures p.0 < r.i + r.n || p.0 >= r.o1
    {
      PairsByEntry(e, p);
      var j: nat :| PairIn(e, j, p);
      InsidePair(e, j, p);
      PairsApart(e, j, g, p);
      PairsApart(e, j, k + 1, p);
    }
  }

  /** And a kept entry of the list is a kept run of the pairs. */
  lemma EntryIsRun(e: seq<Edit>, a: nat, b: nat, k: nat)
    requires Tight(e) && Olds(e) == a && News(e) == b && k < |e| && e[k].op == EQ
    ensures KeptRun(Pairs(e, 0, 0), a, b, RunAt(e, k))
  {
    hide Pairs, Olds, News, Tight, RunAt, OnRun;
    var r := RunAt(e, k);
    EntryEnds(e, k, r);
    EntryBefore(e, k, r);
    EntryBehind(e, a, b, k, r);
  }

  // ---------- nothing false is left ----------

  /** Sweeps and joins turn a list of both sides into another. */
  lemma {:induction false} CleanedCovers(old_: Toks, new_: Toks, e: seq<Edit>, left: nat)
    requires Covers(e, old_, new_) && Tight(e) && |old_.ends| == |old_.tags| && |new_.ends| == |new_.tags|
    ensures var g := Cleaned(old_, new_, e, left);
      Covers(g, old_, new_) && Tight(g)
    decreases left
  {
    hide SweptTo, Joined, Tight, ToksOk, StaysIn, Pairs, Olds, News;
    if left > 0 {
      var f := SweptTo(old_, new_, e, |e|);
      SweptPairs(old_, new_, e, |e|);
      assert e[..|e|] == e;
      JoinedTight(f);
      JoinedSame(f);
      TightSolid(Joined(f));
      if f != e {
        CleanedCovers(old_, new_, Joined(f), left - 1);
      }
    }
  }

  /** Two entries have no run with changes on both sides. */
  lemma ShortStays(old_: Toks, new_: Toks, e: seq<Edit>, k: nat)
    requires Covers(e, old_, new_) && |old_.ends| == |old_.tags| && |new_.ends| == |new_.tags| && k < |e| < 3
    ensures !FalseRun(old_, new_, e, k)
  {
  }

  /** Where no run is left to give up, every kept run stays for one of the stated reasons. */
  lemma SettledRuns(old_: Toks, new_: Toks, e: seq<Edit>, r: Run)
    requires Covers(e, old_, new_) && Tight(e) && |old_.ends| == |old_.tags| && |new_.ends| == |new_.tags|
    requires SweptTo(old_, new_, e, |e|) == e
    requires KeptRun(Pairs(e, 0, 0), |old_.ends|, |new_.ends|, r)
    ensures RunIn(old_, new_, r) && !GivenUp(old_, new_, r)
  {
    hide SweptTo, Pairs, FalseRun, GivenUp, RunIn, KeptRun, Tight, RunAt;
    var k := RunIsEntry(e, |old_.ends|, |new_.ends|, r);
    SweepLoses(old_, new_, e, |e|);
    KillsMeans(old_, new_, e, k);
  }

  /** In what the cleanup leaves every kept run stays for one of the stated reasons, unless more runs than there are
    * sweeps had neither identifier nor line break to begin with. */
  lemma CleanupLeaves(old_: Toks, new_: Toks, e: seq<Edit>, r: Run)
    requires Covers(e, old_, new_) && Tight(e) && |old_.ends| == |old_.tags| && |new_.ends| == |new_.tags|
    requires KeptRun(Pairs(CleanupOf(old_, new_, e), 0, 0), |old_.ends|, |new_.ends|, r)
    ensures (RunIn(old_, new_, r) && !GivenUp(old_, new_, r)) || Loose(new_, e, 0) > SWEEPS
  {
    hide SweptTo, Pairs, FalseRun, GivenUp, RunIn, KeptRun, Tight, Cleaned, Canon, Loose, News, Olds, SameFrom;
    var g := if |e| < 3 then e else Cleaned(old_, new_, e, SWEEPS);
    if |e| < 3 {
      forall k | 0 <= k < |e|
        ensures !FalseRun(old_, new_, e, k)
      {
        ShortStays(old_, new_, e, k);
      }
      SweptSame(old_, new_, e, |e|);
      assert e[..|e|] == e;
    } else {
      CleanedSettles(old_, new_, e, SWEEPS);
      CleanedCovers(old_, new_, e, SWEEPS);
    }
    CanonNormal(g);
    SameFromIsSame(Canon(g), g);
    if SweptTo(old_, new_, g, |g|) == g {
      SettledRuns(old_, new_, g, r);
    }
  }
}
