/** Eight sweeps may be too few: a script whose false equalities only show one after the other. */
module NeilSweeps {
  import opened Common
  import opened Script
  import opened EditLists
  import opened EditCanon
  import opened NeilTokens
  import opened NeilCanon
  import opened NeilCleanup
  import opened NeilVerdict

  // ---------- the texts ----------

  /** One more token at the end. */
  function Put(t: Toks, s: seq<Byte>): Toks {
    Toks(t.src + s, t.ends + [|t.src| + |s|], t.tags + [0])
  }

  /** Four brackets; three the first time. */
  function Piece(x: nat): (s: seq<Byte>)
    ensures 3 <= |s| <= 4
  {
    if x == 0 then [40, 40, 40] else [40, 40, 40, 40]
  }

  /** A semicolon and a line break. */
  const BREAK: seq<Byte> := [59, 10]

  function OldText(m: nat): Toks {
    if m == 0 then Toks([], [], []) else Put(OldText(m - 1), Piece(m - 1))
  }

  /** The same pieces, a break before each and behind the last. */
  function NewText(m: nat): Toks {
    if m == 0 then Put(Toks([], [], []), BREAK) else Put(Put(NewText(m - 1), Piece(m - 1)), BREAK)
  }

  ghost predicate Texty(t: Toks) {
    ToksOk(t) && (if t.ends == [] then t.src == [] else t.ends[|t.ends| - 1] == |t.src|)
  }

  lemma PrefixSlice(a: seq<Byte>, b: seq<Byte>, i: nat, j: nat)
    requires i <= j <= |a|
    ensures (a + b)[i..j] == a[i..j]
  {
  }

  lemma PutOk(t: Toks, s: seq<Byte>)
    requires Texty(t) && s != []
    ensures var u := Put(t, s);
      && Texty(u) && |u.ends| == |t.ends| + 1 && TextAt(u, |t.ends|) == s && u.tags == t.tags + [0]
      && Lo(u, |t.ends|) == |t.src|
      && forall i: nat | i < |t.ends| :: TextAt(u, i) == TextAt(t, i) && Lo(u, i) == Lo(t, i) && Hi(u, i) == Hi(t, i)
  {
    var u := Put(t, s);
    forall i: nat | i < |t.ends|
      ensures TextAt(u, i) == TextAt(t, i) && Lo(u, i) == Lo(t, i) && Hi(u, i) == Hi(t, i)
    {
      assert i > 0 ==> t.ends[i - 1] < t.ends[i];
      PrefixSlice(t.src, s, Lo(t, i), Hi(t, i));
    }
    assert u.src[|t.src|..|u.src|] == s;
  }

  /** Token `i` reads so, and is of no kind. */
  ghost predicate Reads(t: Toks, i: nat, s: seq<Byte>) {
    i < |t.ends| == |t.tags| && TextAt(t, i) == s && t.tags[i] == 0
  }

  lemma PutReads(t: Toks, s: seq<Byte>)
    requires Texty(t) && s != []
    ensures Texty(Put(t, s)) && |Put(t, s).ends| == |t.ends| + 1 && Reads(Put(t, s), |t.ends|, s)
    ensures forall i: nat, x: seq<Byte> | Reads(t, i, x) :: Reads(Put(t, s), i, x)
  {
    hide TextAt;
    PutOk(t, s);
  }

  ghost predicate OldIs(t: Toks, m: nat) {
    Texty(t) && |t.ends| == m && forall x: nat | x < m :: Reads(t, x, Piece(x))
  }

  lemma {:induction false} OldTexts(m: nat)
    ensures OldIs(OldText(m), m)
  {
    hide Reads, Put, Piece;
    if m > 0 {
      OldTexts(m - 1);
      PutReads(OldText(m - 1), Piece(m - 1));
    }
  }

  /** Token `2x` is a break, token `2x + 1` the `x`th piece. */
  function NewPiece(i: nat): seq<Byte> {
    if i % 2 == 0 then BREAK else Piece(i / 2)
  }

  ghost predicate NewIs(t: Toks, n: nat) {
    Texty(t) && |t.ends| == n && forall i: nat | i < n :: Reads(t, i, NewPiece(i))
  }

  lemma PutNew(t: Toks, n: nat)
    requires NewIs(t, n) && NewPiece(n) != []
    ensures NewIs(Put(t, NewPiece(n)), n + 1)
  {
    hide Reads, Put, NewPiece, Texty;
    PutReads(t, NewPiece(n));
  }

  lemma PiecesOf(m: nat)
    ensures NewPiece(2 * m) == BREAK && NewPiece(2 * m + 1) == Piece(m)
  {
  }

  lemma {:induction false} NewTexts(m: nat)
    ensures NewIs(NewText(m), 2 * m + 1)
  {
    hide NewIs, Put, Piece, NewPiece;
    PiecesOf(m);
    if m > 0 {
      NewTexts(m - 1);
      PiecesOf(m - 1);
      PutNew(NewText(m - 1), 2 * m - 1);
      PutNew(Put(NewText(m - 1), Piece(m - 1)), 2 * m);
    } else {
      NoneNew();
      PutNew(Toks([], [], []), 0);
    }
  }

  lemma NoneNew()
    ensures NewIs(Toks([], [], []), 0)
  {
  }

  // ---------- the script ----------

  /** The first `s` pieces given up. */
  ghost function Gone(s: nat): seq<Edit> {
    if s == 0 then [Edit(INS, 1)] else Gone(s - 1) + [Edit(DEL, 1), Edit(INS, 2)]
  }

  /** `n` pieces kept. */
  ghost function Left(n: nat): seq<Edit> {
    if n == 0 then [] else Left(n - 1) + [Edit(EQ, 1), Edit(INS, 1)]
  }

  /** Of `m` pieces the first `s` given up. */
  ghost function Sofar(m: nat, s: nat): seq<Edit>
    requires s <= m
  {
    Gone(s) + Left(m - s)
  }

  lemma {:induction false} GoneIs(s: nat)
    ensures |Gone(s)| == 2 * s + 1 && Gone(s)[0] == Edit(INS, 1)
    ensures forall x: nat | x < s :: Gone(s)[2 * x + 1] == Edit(DEL, 1) && Gone(s)[2 * x + 2] == Edit(INS, 2)
    ensures Olds(Gone(s)) == s && News(Gone(s)) == 2 * s + 1
  {
    if s > 0 {
      GoneIs(s - 1);
      var two := [Edit(DEL, 1), Edit(INS, 2)];
      TotalsConcat(Gone(s - 1), two);
      assert two[1..] == [Edit(INS, 2)] && [Edit(INS, 2)][1..] == [];
      assert Olds(two) == 1 && News(two) == 2;
    } else {
      assert [Edit(INS, 1)][1..] == [];
    }
  }

  lemma {:induction false} LeftIs(n: nat)
    ensures |Left(n)| == 2 * n
    ensures forall x: nat | x < n :: Left(n)[2 * x] == Edit(EQ, 1) && Left(n)[2 * x + 1] == Edit(INS, 1)
    ensures Olds(Left(n)) == n && News(Left(n)) == 2 * n
  {
    if n > 0 {
      LeftIs(n - 1);
      var two := [Edit(EQ, 1), Edit(INS, 1)];
      TotalsConcat(Left(n - 1), two);
      assert two[1..] == [Edit(INS, 1)] && [Edit(INS, 1)][1..] == [];
      assert Olds(two) == 1 && News(two) == 2;
    }
  }

  /** The entries of the script, and how far each goes. */
  lemma SofarIs(m: nat, s: nat)
    requires s <= m
    ensures var e := Sofar(m, s);
      && |e| == 2 * m + 1 && Olds(e) == m && News(e) == 2 * m + 1 && e[0] == Edit(INS, 1)
      && (forall x: nat | x < s :: e[2 * x + 1] == Edit(DEL, 1) && e[2 * x + 2] == Edit(INS, 2))
      && (forall x: nat | s <= x < m :: e[2 * x + 1] == Edit(EQ, 1) && e[2 * x + 2] == Edit(INS, 1))
  {
    hide Olds, News;
    GoneIs(s);
    LeftIs(m - s);
    TotalsConcat(Gone(s), Left(m - s));
    var e := Sofar(m, s);
    forall x: nat | s <= x < m
      ensures e[2 * x + 1] == Edit(EQ, 1) && e[2 * x + 2] == Edit(INS, 1)
    {
      var y: nat := x - s;
      assert Left(m - s)[2 * y] == Edit(EQ, 1) && Left(m - s)[2 * y + 1] == Edit(INS, 1);
    }
  }

  /** Piece `x` is old token `x` and new token `2x + 1`. */
  lemma {:induction false} SofarStarts(m: nat, s: nat, x: nat)
    requires s <= m && x <= m
    ensures |Sofar(m, s)| == 2 * m + 1
    ensures var e := Sofar(m, s);
      Olds(e[..2 * x + 1]) == x && News(e[..2 * x + 1]) == 2 * x + 1
    decreases x
  {
    hide Olds, News, Sofar;
    var e := Sofar(m, s);
    SofarIs(m, s);
    if x == 0 {
      NothingBefore(e);
      TotalsStep(e, 0);
    } else {
      var y: nat := x - 1;
      SofarStarts(m, s, y);
      var k: nat := 2 * y + 1;
      TotalsStep(e, k);
      TotalsStep(e, k + 1);
      assert y < s || s <= y < m;
    }
  }

  lemma SofarCovers(m: nat, s: nat)
    requires s <= m
    ensures Covers(Sofar(m, s), OldText(m), NewText(m)) && Normal(Sofar(m, 0)) && Tight(Sofar(m, s))
    ensures OldIs(OldText(m), m) && NewIs(NewText(m), 2 * m + 1)
  {
    hide Olds, News, Reads, OldText, NewText, Sofar, OpAt, Tight, Normal, NonEmpty;
    SofarOps(m, s);
    SofarOps(m, 0);
    SofarIs(m, s);
    OldTexts(m);
    NewTexts(m);
    OpsTight(Sofar(m, s), s);
    OpsTight(Sofar(m, 0), 0);
  }

  lemma OpsTight(e: seq<Edit>, s: nat)
    requires forall k: nat | k < |e| :: OpAt(e, s, k)
    ensures NonEmpty(e) && Tight(e) && (s == 0 ==> Normal(e))
  {
    forall k: nat | k < |e|
      ensures e[k].len > 0
    {
      assert OpAt(e, s, k);
    }
    forall k: nat | k < |e| - 1
      ensures Unlike(e[k], e[k + 1]) && (s == 0 ==> Follows(e[k].op, e[k + 1].op))
    {
      assert OpAt(e, s, k) && OpAt(e, s, k + 1);
    }
  }

  ghost predicate OpAt(e: seq<Edit>, s: nat, k: nat) {
    k < |e| && e[k].len > 0 && e[k].op == if k % 2 == 0 then INS else if k / 2 < s then DEL else EQ
  }

  /** Even entries are insertions, odd ones deletions up to the `s`th and kept from there on. */
  lemma SofarOps(m: nat, s: nat)
    requires s <= m
    ensures var e := Sofar(m, s);
      |e| == 2 * m + 1 && forall k: nat | k < |e| :: OpAt(e, s, k)
  {
    hide Olds, News;
    SofarIs(m, s);
    var e := Sofar(m, s);
    forall k: nat | k < |e|
      ensures OpAt(e, s, k)
    {
      if k > 0 {
        var x: nat := (k - 1) / 2;
        assert x < s || s <= x < m;
        assert k == 2 * x + 1 || k == 2 * x + 2;
      }
    }
  }

  // ---------- which piece is given up ----------

  lemma OneToken(t: Toks, i: nat, s: seq<Byte>, skipWs: bool)
    requires Texty(t) && Reads(t, i, s) && s != [] && !IsBlank(s[0])
    ensures SpanBytes(t, i, 1, skipWs) == |s|
  {
    assert SpanFrom(t, i + 1, i + 1, skipWs) == 0;
  }

  lemma TwoTokens(t: Toks, i: nat, s: seq<Byte>, r: seq<Byte>)
    requires Texty(t) && Reads(t, i, s) && s != [] && !IsBlank(s[0]) && Reads(t, i + 1, r) && r != [] && !IsBlank(r[0])
    ensures SpanBytes(t, i, 2, true) == |s| + |r|
  {
    hide TextAt, IsBlank, ToksOk;
    OneToken(t, i, s, true);
    OneToken(t, i + 1, r, true);
    SpanSplit(t, i, i + 1, i + 2, true);
  }

  lemma NewToken(m: nat, i: nat)
    requires i < 2 * m + 1
    ensures Texty(NewText(m)) && Reads(NewText(m), i, NewPiece(i)) && !IsBlank(NewPiece(i)[0]) && NewPiece(i) != []
    ensures |NewText(m).ends| == 2 * m + 1
  {
    hide Reads, NewText, Texty;
    NewTexts(m);
  }

  ghost function OldsOf(m: nat, s: nat): seq<nat>
    requires s <= m
  {
    OldStarts(Sofar(m, s))
  }

  ghost function NewsOf(m: nat, s: nat): seq<nat>
    requires s <= m
  {
    NewStarts(Sofar(m, s))
  }

  /** Bytes changed before piece `x`: a break, and all of the piece before it where that was given up. */
  lemma BytesBefore(m: nat, s: nat, x: nat)
    requires s <= x < m
    ensures var a, b := OldText(m), NewText(m);
      && |a.ends| == |a.tags| && |b.ends| == |b.tags| && |Sofar(m, s)| == 2 * m + 1
      && var n := Before(a, b, Sofar(m, s), OldsOf(m, s), NewsOf(m, s), 2 * x + 1);
      if x == s && s > 0 then n >= 5 else n == 2
  {
    hide Olds, News, Sofar, OldText, NewText, SpanBytes, Reads, ToksOk, Tight, Covers, NewPiece, Piece, Texty, NewIs,
      OldIs, Normal;
    var a, b, e := OldText(m), NewText(m), Sofar(m, s);
    SofarCovers(m, s);
    CoversTags(e, a, b);
    SofarIs(m, s);
    SofarStarts(m, s, x);
    TotalsStep(e, 2 * x);
    NewToken(m, 2 * x);
    PiecesOf(x);
    if x == s && s > 0 {
      var y: nat := x - 1;
      assert e[2 * y + 2] == Edit(INS, 2);
      PiecesOf(y);
      NewToken(m, 2 * y + 1);
      TwoTokens(b, 2 * y + 1, Piece(y), BREAK);
    } else {
      OneToken(b, 2 * x, BREAK, true);
      if x > 0 {
        var y: nat := x - 1;
        assert e[2 * y + 1] == Edit(EQ, 1) && e[2 * y + 2] == Edit(INS, 1);
      }
    }
  }

  lemma CoversTags(e: seq<Edit>, old_: Toks, new_: Toks)
    requires Covers(e, old_, new_)
    ensures |old_.ends| == |old_.tags| && |new_.ends| == |new_.tags| && NonEmpty(e)
  {
  }

  /** Behind it a break. */
  lemma BytesBehind(m: nat, s: nat, x: nat)
    requires s <= x < m
    ensures var a, b := OldText(m), NewText(m);
      && |a.ends| == |a.tags| && |b.ends| == |b.tags| && |Sofar(m, s)| == 2 * m + 1
      && After(a, b, Sofar(m, s), OldsOf(m, s), NewsOf(m, s), 2 * x + 2) == 2
  {
    hide Olds, News, Sofar, OldText, NewText, SpanBytes, Reads, ToksOk, Tight, Covers;
    var a, b, e := OldText(m), NewText(m), Sofar(m, s);
    SofarCovers(m, s);
    CoversTags(e, a, b);
    SofarIs(m, s);
    SofarStarts(m, s, x);
    TotalsStep(e, 2 * x + 1);
    NewToken(m, 2 * x + 2);
    PiecesOf(x + 1);
    OneToken(b, 2 * x + 2, NewPiece(2 * x + 2), true);
    if x + 1 < m {
      var y: nat := x + 1;
      assert e[2 * y + 1] == Edit(EQ, 1);
    }
  }

  lemma LineOfPiece(src: seq<Byte>, lo: nat, hi: nat)
    requires 0 < lo && lo + 3 <= hi && hi + 1 < |src| && src[lo - 1] == NEWLINE && src[hi + 1] == NEWLINE
    ensures !Fragment(src, lo, hi)
  {
    forall p: nat, q: nat | LineAround(src, lo, hi, p, q)
      ensures p == lo && q <= hi + 1
    {
      LineHolds(src, lo, hi, p, q, lo - 1);
      LineHolds(src, lo, hi, p, q, hi + 1);
    }
  }

  /** A break ends the line at the second of its bytes. */
  lemma BreakAt(t: Toks, i: nat)
    requires Texty(t) && Reads(t, i, BREAK)
    ensures Hi(t, i) == Lo(t, i) + 2 <= |t.src| && t.src[Lo(t, i) + 1] == NEWLINE
  {
    TokBounds(t, i);
    assert TextAt(t, i)[1] == NEWLINE;
  }

  /** A piece is most of its line. */
  lemma PieceLine(t: Toks, i: nat, x: nat)
    requires Texty(t) && i > 0 && Reads(t, i - 1, BREAK) && Reads(t, i, Piece(x)) && Reads(t, i + 1, BREAK)
    ensures var lo, hi := Lo(t, i), Hi(t, i);
      hi == lo + |Piece(x)| && !Fragment(t.src, lo, hi)
  {
    hide Fragment, Piece;
    BreakAt(t, i - 1);
    BreakAt(t, i + 1);
    TokBounds(t, i);
    LineOfPiece(t.src, Lo(t, i), Hi(t, i));
  }

  /** The verdict on one piece. */
  lemma VerdictBy(a: Toks, b: Toks, e: seq<Edit>, k: nat, from: nat, kept: nat, n: nat)
    requires |a.ends| == |a.tags| && |b.ends| == |b.tags| && NonEmpty(e) && k < |e| && e[k] == Edit(EQ, 1)
    requires NewStarts(e)[k] == from < |b.ends| && 3 <= kept <= 4
    requires SpanBytes(b, from, 1, true) == SpanBytes(b, from, 1, false) == kept
    requires Before(a, b, e, OldStarts(e), NewStarts(e), k) == n >= 2
    requires After(a, b, e, OldStarts(e), NewStarts(e), k + 1) == 2
    requires !IsIdent(b, from) && !HasNewline(b, from) && !HasCodeLine(b, from, 1)
    requires !(LineSpan(b, from, 1) >= 4 && kept * 4 < LineSpan(b, from, 1))
    ensures FalseRun(a, b, e, k) <==> kept < n + 2
  {
    hide SpanBytes, Before, After, IsIdent, HasNewline, HasCodeLine, LineSpan, OldStarts, NewStarts;
  }

  /** Of the pieces left the first one is a false equality, and no other. */
  lemma OnlyFirst(m: nat, s: nat, x: nat)
    requires s <= x < m
    ensures Covers(Sofar(m, s), OldText(m), NewText(m)) && 2 * x + 1 < |Sofar(m, s)|
    ensures |OldText(m).ends| == |OldText(m).tags| && |NewText(m).ends| == |NewText(m).tags|
    ensures FalseRun(OldText(m), NewText(m), Sofar(m, s), 2 * x + 1) <==> x == s
  {
    hide Olds, News, Sofar, OldText, NewText, SpanBytes, ToksOk, Tight, Covers, Before, After, Fragment, LineSpan,
      HasCodeLine, FalseRun, Reads, IsIdent, HasNewline, NewPiece, Texty, NewIs, OldIs, Normal;
    var a, b, e, k: nat := OldText(m), NewText(m), Sofar(m, s), 2 * x + 1;
    SofarCovers(m, s);
    CoversTags(e, a, b);
    SofarIs(m, s);
    SofarStarts(m, s, x);
    BytesBefore(m, s, x);
    BytesBehind(m, s, x);
    PiecesOf(x);
    PiecesOf(x + 1);
    NewToken(m, k - 1);
    NewToken(m, k);
    NewToken(m, k + 1);
    OneToken(b, k, Piece(x), true);
    OneToken(b, k, Piece(x), false);
    PieceLine(b, k, x);
    TextyOk(b);
    FragmentIs(b, k, 1);
    PiecePlain(b, k, x);
    VerdictBy(a, b, e, k, k, |Piece(x)|, Before(a, b, e, OldStarts(e), NewStarts(e), k));
  }

  lemma TextyOk(t: Toks)
    requires Texty(t)
    ensures ToksOk(t)
  {
  }

  lemma PiecePlain(t: Toks, i: nat, x: nat)
    requires Texty(t) && Reads(t, i, Piece(x))
    ensures !IsIdent(t, i) && !HasNewline(t, i) && !HasCodeLine(t, i, 1)
  {
    hide CodeLine;
    TokBounds(t, i);
    var p := Piece(x);
    assert p[0] == 40 && !IsWord(p[0]);
    assert forall q | 0 <= q < |p| :: p[q] == 40;
    assert NEWLINE !in p;
    assert t.src[Lo(t, i)..Hi(t, i)] == p;
  }

  // ---------- one sweep, one piece ----------

  /** A sweep that gives up one run alone. */
  lemma {:induction false} SweptOne(a: Toks, b: Toks, e: seq<Edit>, k: nat, n: nat)
    requires |a.ends| == |a.tags| && |b.ends| == |b.tags| && NonEmpty(e) && k < n <= |e| && FalseRun(a, b, e, k)
    requires forall j | 0 <= j < |e| && j != k :: !FalseRun(a, b, e, j)
    ensures SweptTo(a, b, e, n) == e[..k] + ([Edit(DEL, e[k].len)] + [Edit(INS, e[k].len)]) + e[k + 1..n]
    decreases n
  {
    hide FalseRun;
    if n == k + 1 {
      SweptSame(a, b, e, k);
      assert e[k + 1..n] == [];
    } else {
      SweptOne(a, b, e, k, n - 1);
      assert e[k + 1..n] == e[k + 1..n - 1] + [e[n - 1]];
    }
  }

  lemma {:induction false} LeftFront(n: nat)
    requires n > 0
    ensures Left(n) == [Edit(EQ, 1), Edit(INS, 1)] + Left(n - 1)
  {
    if n > 1 {
      LeftFront(n - 1);
    }
  }

  lemma SofarSplit(m: nat, s: nat)
    requires s < m
    ensures var k: nat := 2 * s + 1;
      && |Sofar(m, s)| == 2 * m + 1 && Sofar(m, s)[..k] == Gone(s) && Sofar(m, s)[k] == Edit(EQ, 1)
      && Sofar(m, s)[k + 1..] == [Edit(INS, 1)] + Left(m - s - 1)
    ensures Sofar(m, s + 1) == Gone(s) + [Edit(DEL, 1), Edit(INS, 2)] + Left(m - s - 1)
  {
    hide Gone, Left;
    GoneIs(s);
    LeftIs(m - s);
    LeftFront(m - s);
    GoneNext(s);
    assert [Edit(EQ, 1), Edit(INS, 1)] + Left(m - s - 1) == [Edit(EQ, 1)] + ([Edit(INS, 1)] + Left(m - s - 1));
  }

  lemma GoneNext(s: nat)
    ensures Gone(s + 1) == Gone(s) + [Edit(DEL, 1), Edit(INS, 2)]
  {
  }

  /** Given up and joined, the piece and the break behind it are one insertion. */
  lemma GivenUpUnits(g: seq<Edit>, l: seq<Edit>)
    ensures Units(g + ([Edit(DEL, 1)] + [Edit(INS, 1)]) + ([Edit(INS, 1)] + l))
         == Units(g + [Edit(DEL, 1), Edit(INS, 2)] + l)
  {
    hide Units, Repeat;
    var d, i, ii := [Edit(DEL, 1)], [Edit(INS, 1)], [Edit(INS, 2)];
    assert [Edit(DEL, 1), Edit(INS, 2)] == d + ii;
    UnitsConcat(g + (d + i), i + l);
    UnitsConcat(g, d + i);
    UnitsConcat(d, i);
    UnitsConcat(i, l);
    UnitsConcat(g + (d + ii), l);
    UnitsConcat(g, d + ii);
    UnitsConcat(d, ii);
    UnitsOne(Edit(INS, 1));
    UnitsOne(Edit(INS, 2));
    RepeatAdd(INS, 1, 1);
    var u, v, w, x := Units(g), Units(d), Repeat(INS, 1), Units(l);
    assert u + (v + w) + (w + x) == u + (v + (w + w)) + x;
  }

  /** One sweep gives up one piece. */
  lemma SweptNext(m: nat, s: nat)
    requires s < m
    ensures Covers(Sofar(m, s), OldText(m), NewText(m))
    ensures |OldText(m).ends| == |OldText(m).tags| && |NewText(m).ends| == |NewText(m).tags|
    ensures NonEmpty(Sofar(m, s)) && NonEmpty(Sofar(m, s + 1))
    ensures var e := Sofar(m, s);
      var f := SweptTo(OldText(m), NewText(m), e, |e|);
      f != e && Joined(f) == Sofar(m, s + 1)
  {
    hide OldText, NewText, Sofar, FalseRun, Covers, Gone, Left, Joined, Tight, Olds, News, Units;
    var a, b, e, k: nat := OldText(m), NewText(m), Sofar(m, s), 2 * s + 1;
    OnlyFirst(m, s, s);
    SofarOps(m, s);
    SofarCovers(m, s);
    SofarCovers(m, s + 1);
    CoversTags(e, a, b);
    TightSolid(Sofar(m, s + 1));
    forall j | 0 <= j < |e| && j != k
      ensures !FalseRun(a, b, e, j)
    {
      NoOther(m, s, j);
    }
    SweptOne(a, b, e, k, |e|);
    SofarSplit(m, s);
    var f := SweptTo(a, b, e, |e|);
    assert e[k + 1..|e|] == e[k + 1..];
    GivenUpUnits(Gone(s), Left(m - s - 1));
    JoinedTight(f);
    TightUnique(Joined(f), Sofar(m, s + 1));
  }

  lemma NoOther(m: nat, s: nat, j: nat)
    requires s < m && j < 2 * m + 1 && j != 2 * s + 1
    ensures |OldText(m).ends| == |OldText(m).tags| && |NewText(m).ends| == |NewText(m).tags|
    ensures NonEmpty(Sofar(m, s)) && j < |Sofar(m, s)| && !FalseRun(OldText(m), NewText(m), Sofar(m, s), j)
  {
    hide OldText, NewText, Sofar, Covers, Kills, Tight, Normal, OldIs, NewIs;
    SofarOps(m, s);
    SofarCovers(m, s);
    CoversTags(Sofar(m, s), OldText(m), NewText(m));
    assert OpAt(Sofar(m, s), s, j);
    if j % 2 == 1 && j / 2 >= s {
      OnlyFirst(m, s, j / 2);
    }
  }

  /** Sweep by sweep. */
  lemma {:induction false} CleanedTo(m: nat, s: nat, left: nat)
    requires s + left <= m
    ensures |OldText(m).ends| == |OldText(m).tags| && |NewText(m).ends| == |NewText(m).tags|
    ensures NonEmpty(Sofar(m, s)) && Cleaned(OldText(m), NewText(m), Sofar(m, s), left) == Sofar(m, s + left)
    decreases left
  {
    hide OldText, NewText, Sofar, SweptTo, Joined, Covers, Tight, Normal, OldIs, NewIs;
    SofarCovers(m, s);
    CoversTags(Sofar(m, s), OldText(m), NewText(m));
    if left > 0 {
      SweptNext(m, s);
      CleanedTo(m, s + 1, left - 1);
    }
  }

  /** A valid script in normal form, of nine pieces or more: eight sweeps leave the ninth in place, and it is a false
    * equality. */
  lemma SweepsRunOut(m: nat) returns (e: seq<Edit>, r: Run)
    requires m > SWEEPS
    ensures e == Sofar(m, 0) && Covers(e, OldText(m), NewText(m)) && Normal(e) && |e| == 2 * m + 1
    ensures |OldText(m).ends| == |OldText(m).tags| == m && |NewText(m).ends| == |NewText(m).tags| == 2 * m + 1
    ensures KeptRun(Pairs(CleanupOf(OldText(m), NewText(m), e), 0, 0), m, 2 * m + 1, r)
    ensures RunIn(OldText(m), NewText(m), r) && GivenUp(OldText(m), NewText(m), r)
  {
    hide OldText, NewText, Sofar, Cleaned, Covers, Tight, Normal, Canon, FalseRun, GivenUp, RunIn, KeptRun, RunAt,
      Pairs, Olds, News, SameFrom;
    e := Sofar(m, 0);
    var g, k: nat := Sofar(m, SWEEPS), 2 * SWEEPS + 1;
    SofarCovers(m, 0);
    SofarCovers(m, SWEEPS);
    SofarIs(m, 0);
    SofarIs(m, SWEEPS);
    CleanedTo(m, 0, SWEEPS);
    OnlyFirst(m, SWEEPS, SWEEPS);
    TextsTags(m);
    r := RunAt(g, k);
    SofarKept(m);
    KillsMeans(OldText(m), NewText(m), g, k);
    EntryIsRun(g, m, 2 * m + 1, k);
    CanonNormal(g);
    SameFromIsSame(Canon(g), g);
  }

  lemma SofarKept(m: nat)
    requires m > SWEEPS
    ensures 2 * SWEEPS + 1 < |Sofar(m, SWEEPS)| && Sofar(m, SWEEPS)[2 * SWEEPS + 1].op == EQ
  {
    hide Sofar;
    SofarSplit(m, SWEEPS);
  }

  lemma TextsTags(m: nat)
    ensures |OldText(m).ends| == |OldText(m).tags| == m && |NewText(m).ends| == |NewText(m).tags| == 2 * m + 1
  {
    hide OldText, NewText;
    OldTexts(m);
    NewTexts(m);
  }
}
