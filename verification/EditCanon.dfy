/** The normal form of edit lists: one insertion then one deletion in every gap, nothing empty, nothing split. */
module EditCanon {
  import opened Common
  import opened Script
  import opened EditLists

  // ---------- the normal form ----------

  /** Two entries that may stand next to each other. */
  predicate Follows(x: Op, y: Op) {
    x != y && !(x == DEL && y == INS)
  }

  ghost predicate Normal(e: seq<Edit>) {
    && (forall k | 0 <= k < |e| :: e[k].len > 0)
    && (forall k | 0 <= k < |e| - 1 :: Follows(e[k].op, e[k + 1].op))
  }

  /** One entry put in front of a normal list. */
  function Cons(d: Edit, r: seq<Edit>): seq<Edit> {
    if d.len == 0 then r
    else if r == [] then [d]
    else if d.op == r[0].op then [Edit(d.op, d.len + r[0].len)] + r[1..]
    else if d.op == DEL && r[0].op == INS then [r[0]] + Cons1(d, r[1..])
    else [d] + r
  }

  function Cons1(d: Edit, r: seq<Edit>): seq<Edit> {
    if r != [] && r[0].op == d.op then [Edit(d.op, d.len + r[0].len)] + r[1..] else [d] + r
  }

  function Canon(e: seq<Edit>): seq<Edit> {
    if e == [] then [] else Cons(e[0], Canon(e[1..]))
  }

  lemma NormalTail(e: seq<Edit>)
    requires Normal(e) && e != []
    ensures Normal(e[1..]) && e[0].len > 0
    ensures e[1..] != [] ==> Follows(e[0].op, e[1].op)
  {
    var t := e[1..];
    forall k | 0 <= k < |t| - 1
      ensures Follows(t[k].op, t[k + 1].op)
    {
      assert Follows(e[k + 1].op, e[k + 2].op);
    }
  }

  lemma NormalCons(d: Edit, r: seq<Edit>)
    requires Normal(r) && d.len > 0 && (r != [] ==> Follows(d.op, r[0].op))
    ensures Normal([d] + r)
  {
    var e := [d] + r;
    forall k | 0 <= k < |e| - 1
      ensures Follows(e[k].op, e[k + 1].op)
    {
      if k > 0 {
        assert Follows(r[k - 1].op, r[k].op);
      }
    }
  }

  lemma SplitHead(r: seq<Edit>)
    requires r != []
    ensures r == [r[0]] + r[1..]
  {
  }

  lemma Cons1Normal(d: Edit, r: seq<Edit>)
    requires Normal(r) && d.len > 0 && d.op == DEL && (r != [] ==> r[0].op != INS)
    ensures Normal(Cons1(d, r)) && SameFrom(Cons1(d, r), [d] + r) && |Cons1(d, r)| <= |r| + 1
    ensures Cons1(d, r)[0].op == DEL
  {
    hide SameFrom, Normal;
    SameRefl([d] + r);
    if r != [] && r[0].op == d.op {
      NormalTail(r);
      NormalCons(Edit(d.op, d.len + r[0].len), r[1..]);
      SplitHead(r);
      MergeFront(d.op, d.len, r[0].len, r[1..]);
    } else {
      NormalCons(d, r);
    }
  }

  lemma MergeFront(op: Op, m: nat, n: nat, t: seq<Edit>)
    ensures SameFrom([Edit(op, m + n)] + t, [Edit(op, m)] + ([Edit(op, n)] + t))
  {
    hide SameFrom;
    SameMerge(op, m, n);
    SameRefl(t);
    SameSym([Edit(op, m)] + [Edit(op, n)], [Edit(op, m + n)]);
    SameConcat([Edit(op, m + n)], t, [Edit(op, m)] + [Edit(op, n)], t);
    Assoc([Edit(op, m)], [Edit(op, n)], t);
  }

  lemma SwapFront(m: nat, n: nat, t: seq<Edit>)
    ensures SameFrom([Edit(INS, n)] + ([Edit(DEL, m)] + t), [Edit(DEL, m)] + ([Edit(INS, n)] + t))
  {
    hide SameFrom;
    SameSwap(m, n);
    SameRefl(t);
    SameSym([Edit(DEL, m)] + [Edit(INS, n)], [Edit(INS, n)] + [Edit(DEL, m)]);
    SameConcat([Edit(INS, n)] + [Edit(DEL, m)], t, [Edit(DEL, m)] + [Edit(INS, n)], t);
    Assoc([Edit(DEL, m)], [Edit(INS, n)], t);
    Assoc([Edit(INS, n)], [Edit(DEL, m)], t);
  }

  lemma SameSym(e: seq<Edit>, f: seq<Edit>)
    requires SameFrom(e, f)
    ensures SameFrom(f, e)
  {
    forall i: nat, j: nat
      ensures SamePairs(f, e, i, j)
    {
      assert SamePairs(e, f, i, j);
    }
  }

  lemma ConsNormal(d: Edit, r: seq<Edit>)
    requires Normal(r)
    ensures Normal(Cons(d, r)) && SameFrom(Cons(d, r), [d] + r) && |Cons(d, r)| <= |r| + 1
  {
    hide SameFrom, Normal, Cons1;
    SameRefl([d] + r);
    if d.len == 0 {
      DropFront(d, r);
    } else if r == [] {
      NormalCons(d, r);
      assert [d] + r == [d];
    } else {
      NormalTail(r);
      SplitHead(r);
      if d.op == r[0].op {
        NormalCons(Edit(d.op, d.len + r[0].len), r[1..]);
        MergeFront(d.op, d.len, r[0].len, r[1..]);
      } else if d.op == DEL && r[0].op == INS {
        Cons1Normal(d, r[1..]);
        var c := Cons1(d, r[1..]);
        NormalCons(r[0], c);
        SameRefl([r[0]]);
        SameConcat([r[0]], c, [r[0]], [d] + r[1..]);
        SwapFront(d.len, r[0].len, r[1..]);
        SameTrans([r[0]] + c, [r[0]] + ([d] + r[1..]), [d] + r);
      } else {
        NormalCons(d, r);
      }
    }
  }

  lemma DropFront(d: Edit, r: seq<Edit>)
    requires d.len == 0
    ensures SameFrom(r, [d] + r)
  {
    hide SameFrom;
    SameZero(d);
    SameRefl(r);
    SameConcat([d], r, [], r);
    assert [] + r == r;
    SameSym([d] + r, r);
  }

  /** The normal form is normal, edits the same, and is no longer than the list. */
  lemma {:induction false} CanonNormal(e: seq<Edit>)
    ensures Normal(Canon(e)) && SameFrom(Canon(e), e) && |Canon(e)| <= |e|
  {
    hide SameFrom, Normal, Cons;
    if e == [] {
      NormalNone();
      SameRefl(e);
    } else {
      var t := e[1..];
      CanonNormal(t);
      ConsNormal(e[0], Canon(t));
      SplitHead(e);
      SameRefl([e[0]]);
      SameConcat([e[0]], Canon(t), [e[0]], t);
      SameTrans(Canon(e), [e[0]] + Canon(t), e);
    }
  }

  lemma NormalNone()
    ensures Normal([])
  {
  }

  lemma ConsFollows(d: Edit, r: seq<Edit>)
    requires d.len > 0 && (r != [] ==> Follows(d.op, r[0].op))
    ensures Cons(d, r) == [d] + r
  {
  }

  /** A normal list is its own normal form. */
  lemma {:induction false} CanonFixed(e: seq<Edit>)
    requires Normal(e)
    ensures Canon(e) == e
  {
    hide Normal, Cons;
    if e != [] {
      NormalTail(e);
      CanonFixed(e[1..]);
      ConsFollows(e[0], e[1..]);
      SplitHead(e);
    }
  }

  lemma CanonIdempotent(e: seq<Edit>)
    ensures Canon(Canon(e)) == Canon(e)
  {
    CanonNormal(e);
    CanonFixed(Canon(e));
  }

  // ---------- a normal list is determined by its kept pairs and totals ----------

  /** The gap before old position `i` and new position `j`, and what follows. */
  function Gap(ins: int, del: int, r: seq<Edit>): seq<Edit> {
    (if ins > 0 then [Edit(INS, ins)] else []) + ((if del > 0 then [Edit(DEL, del)] else []) + r)
  }

  /** The list rebuilt from its kept pairs, starting at (i, j), up to totals (m, n). */
  ghost function Rebuild(ps: seq<(nat, nat)>, i: nat, j: nat, m: nat, n: nat): seq<Edit> {
    if ps == [] then Gap(n - j, m - i, [])
    else
      var p := ps[0];
      Gap(p.1 - j, p.0 - i, Cons(Edit(EQ, 1), Rebuild(ps[1..], p.0 + 1, p.1 + 1, m, n)))
  }

  ghost function SizeOf(e: seq<Edit>): nat {
    if e == [] then 0 else e[0].len + 1 + SizeOf(e[1..])
  }

  lemma PairsOfGap(d: Edit, t: seq<Edit>, i: nat, j: nat)
    requires d.op != EQ
    ensures Pairs([d] + t, i, j)
         == Pairs(t, i + (if d.op == DEL then d.len else 0), j + (if d.op == INS then d.len else 0))
  {
    assert ([d] + t)[1..] == t;
  }

  /** The first kept pair of a list that starts with a kept run is right here. */
  lemma PairsOfKept(n: nat, t: seq<Edit>, i: nat, j: nat)
    requires n > 0
    ensures Pairs([Edit(EQ, n)] + t, i, j)
         == [(i, j)] + Pairs(if n == 1 then t else [Edit(EQ, n - 1)] + t, i + 1, j + 1)
  {
    PairsCons(Edit(EQ, n), t, i, j);
    if n > 1 {
      PairsCons(Edit(EQ, n - 1), t, i + 1, j + 1);
      Assoc([(i, j)], Diagonal(i + 1, j + 1, n - 1), Pairs(t, i + n, j + n));
    } else {
      assert Diagonal(i, j, 1) == [(i, j)] + Diagonal(i + 1, j + 1, 0);
      assert [(i, j)] + [] == [(i, j)];
    }
  }

  /** A list that starts with a kept run, rebuilt. */
  lemma {:induction false} RebuildKept(n: nat, t: seq<Edit>, i: nat, j: nat, m: nat, k: nat)
    requires n > 0 && Normal([Edit(EQ, n)] + t)
    requires n == 1 ==> Rebuild(Pairs(t, i + 1, j + 1), i + 1, j + 1, m, k) == t
    requires n > 1 ==> Rebuild(Pairs([Edit(EQ, n - 1)] + t, i + 1, j + 1), i + 1, j + 1, m, k) == [Edit(EQ, n - 1)] + t
    ensures Rebuild(Pairs([Edit(EQ, n)] + t, i, j), i, j, m, k) == [Edit(EQ, n)] + t
  {
    hide Pairs, Normal;
    PairsOfKept(n, t, i, j);
    var e := [Edit(EQ, n)] + t;
    NormalTail(e);
    assert e[1..] == t;
    var rest := if n == 1 then t else [Edit(EQ, n - 1)] + t;
    RebuildFirst(Pairs(e, i, j), Pairs(rest, i + 1, j + 1), i, j, m, k);
    GlueKept(n, t);
  }

  lemma RebuildFirst(ps: seq<(nat, nat)>, qs: seq<(nat, nat)>, i: nat, j: nat, m: nat, k: nat)
    requires ps == [(i, j)] + qs
    ensures Rebuild(ps, i, j, m, k) == Cons(Edit(EQ, 1), Rebuild(qs, i + 1, j + 1, m, k))
  {
    assert ps[1..] == qs;
    var r := Cons(Edit(EQ, 1), Rebuild(qs, i + 1, j + 1, m, k));
    assert [] + ([] + r) == r;
  }

  lemma GlueKept(n: nat, t: seq<Edit>)
    requires n > 0 && (t != [] ==> t[0].op != EQ)
    ensures Cons(Edit(EQ, 1), if n == 1 then t else [Edit(EQ, n - 1)] + t) == [Edit(EQ, n)] + t
  {
    if n > 1 {
      assert ([Edit(EQ, n - 1)] + t)[1..] == t;
    }
  }

  lemma NormalShorter(n: nat, t: seq<Edit>)
    requires n > 1 && Normal([Edit(EQ, n)] + t)
    ensures Normal([Edit(EQ, n - 1)] + t)
  {
    NormalTail([Edit(EQ, n)] + t);
    assert ([Edit(EQ, n)] + t)[1..] == t;
    NormalCons(Edit(EQ, n - 1), t);
  }

  /** A normal list is rebuilt from its pairs and its totals. */
  lemma {:induction false} RebuildIs(e: seq<Edit>, i: nat, j: nat)
    requires Normal(e)
    ensures Rebuild(Pairs(e, i, j), i, j, i + Olds(e), j + News(e)) == e
    decreases SizeOf(e)
  {
    hide Normal, Pairs, Rebuild;
    if e == [] {
      RebuildNone(i, j);
    } else {
      var d, t := e[0], e[1..];
      SplitHead(e);
      NormalTail(e);
      if d.op == EQ {
        if d.len == 1 {
          RebuildIs(t, i + 1, j + 1);
        } else {
          NormalShorter(d.len, t);
          assert ([Edit(EQ, d.len - 1)] + t)[1..] == t;
          RebuildIs([Edit(EQ, d.len - 1)] + t, i + 1, j + 1);
        }
        RebuildKept(d.len, t, i, j, i + Olds(e), j + News(e));
      } else if d.op == DEL {
        RebuildIs(t, i + d.len, j);
        PairsOfGap(d, t, i, j);
        RebuildDel(d.len, t, i, j, i + Olds(e), j + News(e));
      } else {
        RebuildIs(t, i, j + d.len);
        PairsOfGap(d, t, i, j);
        RebuildIns(d.len, t, i, j, i + Olds(e), j + News(e));
      }
    }
  }

  lemma RebuildNone(i: nat, j: nat)
    ensures Rebuild(Pairs([], i, j), i, j, i, j) == []
  {
  }

  /** What a rebuilt list starts with says where its first pair is. */
  lemma RebuildDel(n: nat, t: seq<Edit>, i: nat, j: nat, m: nat, k: nat)
    requires n > 0 && (t != [] ==> t[0].op == EQ) && Rebuild(Pairs(t, i + n, j), i + n, j, m, k) == t
    requires t == [] ==> m == i + n && k == j
    requires t != [] ==> t[0].len > 0
    ensures Rebuild(Pairs(t, i + n, j), i, j, m, k) == [Edit(DEL, n)] + t
  {
    FirstPair(t, i + n, j);
    MoveDel(Pairs(t, i + n, j), i, j, n, m, k);
  }

  lemma MoveDel(ps: seq<(nat, nat)>, i: nat, j: nat, n: nat, m: nat, k: nat)
    requires n > 0
    requires ps == [] ==> m == i + n && k == j
    requires ps != [] ==> ps[0] == (i + n, j)
    ensures Rebuild(ps, i, j, m, k) == [Edit(DEL, n)] + Rebuild(ps, i + n, j, m, k)
  {
    if ps == [] {
      assert Rebuild(ps, i + n, j, m, k) == [];
      assert [] + ([Edit(DEL, n)] + []) == [Edit(DEL, n)] + [];
    } else {
      var r := Cons(Edit(EQ, 1), Rebuild(ps[1..], i + n + 1, j + 1, m, k));
      assert [] + ([] + r) == r;
      assert [] + ([Edit(DEL, n)] + r) == [Edit(DEL, n)] + r;
    }
  }

  lemma FirstPair(t: seq<Edit>, i: nat, j: nat)
    requires t != [] ==> t[0].op == EQ && t[0].len > 0
    ensures t == [] ==> Pairs(t, i, j) == []
    ensures t != [] ==> Pairs(t, i, j) != [] && Pairs(t, i, j)[0] == (i, j)
  {
  }

  lemma FirstPairAfterDel(t: seq<Edit>, i: nat, j: nat)
    requires t != [] && t[0].op == DEL && t[0].len > 0 && (|t| > 1 ==> t[1].op == EQ && t[1].len > 0)
    ensures |t| == 1 ==> Pairs(t, i, j) == []
    ensures |t| > 1 ==> Pairs(t, i, j) != [] && Pairs(t, i, j)[0] == (i + t[0].len, j)
  {
    FirstPair(t[1..], i + t[0].len, j);
  }

  lemma RebuildIns(n: nat, t: seq<Edit>, i: nat, j: nat, m: nat, k: nat)
    requires n > 0 && Normal([Edit(INS, n)] + t) && Rebuild(Pairs(t, i, j + n), i, j + n, m, k) == t
    requires t == [] ==> m == i && k == j + n
    requires |t| == 1 && t[0].op == DEL ==> m == i + t[0].len && k == j + n
    ensures Rebuild(Pairs(t, i, j + n), i, j, m, k) == [Edit(INS, n)] + t
  {
    var e := [Edit(INS, n)] + t;
    NormalTail(e);
    assert e[1..] == t;
    var ps := Pairs(t, i, j + n);
    if t == [] || t[0].op == EQ {
      FirstPair(t, i, j + n);
    } else {
      NormalTail(t);
      FirstPairAfterDel(t, i, j + n);
    }
    MoveGap(ps, i, j, n, m, k);
  }

  lemma MoveGap(ps: seq<(nat, nat)>, i: nat, j: nat, n: nat, m: nat, k: nat)
    requires n > 0
    requires ps == [] ==> k == j + n
    requires ps != [] ==> ps[0].1 == j + n
    ensures Rebuild(ps, i, j, m, k) == [Edit(INS, n)] + Rebuild(ps, i, j + n, m, k)
  {
    if ps == [] {
      var r := (if m - i > 0 then [Edit(DEL, m - i)] else []) + [];
      assert [] + r == r;
    } else {
      var p := ps[0];
      var r := (if p.0 - i > 0 then [Edit(DEL, p.0 - i)] else [])
        + Cons(Edit(EQ, 1), Rebuild(ps[1..], p.0 + 1, p.1 + 1, m, k));
      assert [] + r == r;
    }
  }

  /** Two lists have one normal form exactly when they edit the same. */
  lemma CanonUnique(e: seq<Edit>, f: seq<Edit>)
    ensures Canon(e) == Canon(f) <==> Same(e, f)
  {
    hide SameFrom, Normal, Canon, Rebuild;
    CanonNormal(e);
    CanonNormal(f);
    SameFromIsSame(Canon(e), e);
    SameFromIsSame(Canon(f), f);
    RebuildIs(Canon(e), 0, 0);
    RebuildIs(Canon(f), 0, 0);
  }
}
