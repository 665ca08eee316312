/** Edit lists by what they match: the pairs of kept tokens, and the totals of both sides. */
module EditLists {
  import opened Common
  import opened Script

  /** Tokens consumed on each side. */
  ghost function Olds(e: seq<Edit>): nat {
    if e == [] then 0 else (if e[0].op == INS then 0 else e[0].len) + Olds(e[1..])
  }

  ghost function News(e: seq<Edit>): nat {
    if e == [] then 0 else (if e[0].op == DEL then 0 else e[0].len) + News(e[1..])
  }

  /** Old and new positions of `n` tokens kept in a row. */
  ghost function Diagonal(i: nat, j: nat, n: nat): seq<(nat, nat)>
    decreases n
  {
    if n == 0 then [] else [(i, j)] + Diagonal(i + 1, j + 1, n - 1)
  }

  /** The kept pairs of a list that starts at old position `i` and new position `j`. */
  ghost function Pairs(e: seq<Edit>, i: nat, j: nat): seq<(nat, nat)> {
    if e == [] then []
    else match e[0].op
      case EQ => Diagonal(i, j, e[0].len) + Pairs(e[1..], i + e[0].len, j + e[0].len)
      case DEL => Pairs(e[1..], i + e[0].len, j)
      case INS => Pairs(e[1..], i, j + e[0].len)
  }

  /** The same edit: the same pairs kept, the same tokens consumed. */
  ghost predicate Same(e: seq<Edit>, f: seq<Edit>) {
    Olds(e) == Olds(f) && News(e) == News(f) && Pairs(e, 0, 0) == Pairs(f, 0, 0)
  }

  /** The list turns `a` into `b`: it consumes both exactly, and every kept pair is equal. */
  ghost predicate Turns<T>(e: seq<Edit>, a: seq<T>, b: seq<T>) {
    Olds(e) == |a| && News(e) == |b| && forall p | p in Pairs(e, 0, 0) :: PairEq(a, b, p)
  }

  ghost predicate PairEq<T>(a: seq<T>, b: seq<T>, p: (nat, nat)) {
    p.0 < |a| && p.1 < |b| && a[p.0] == b[p.1]
  }

  lemma {:induction false} DiagonalElements(i: nat, j: nat, n: nat)
    ensures |Diagonal(i, j, n)| == n
    ensures forall k: nat | k < n :: Diagonal(i, j, n)[k] == (i + k, j + k)
    decreases n
  {
    if n > 0 {
      DiagonalElements(i + 1, j + 1, n - 1);
      var d := Diagonal(i + 1, j + 1, n - 1);
      forall k: nat | k < n
        ensures Diagonal(i, j, n)[k] == (i + k, j + k)
      {
        if k > 0 {
          assert Diagonal(i, j, n)[k] == d[k - 1];
        }
      }
    }
  }

  lemma DiagonalSplit(i: nat, j: nat, m: nat, n: nat)
    ensures Diagonal(i, j, m + n) == Diagonal(i, j, m) + Diagonal(i + m, j + m, n)
  {
    hide Diagonal;
    DiagonalElements(i, j, m + n);
    DiagonalElements(i, j, m);
    DiagonalElements(i + m, j + m, n);
    var d, e, f := Diagonal(i, j, m + n), Diagonal(i, j, m), Diagonal(i + m, j + m, n);
    forall k | 0 <= k < m + n
      ensures d[k] == (e + f)[k]
    {
      if k >= m {
        assert f[k - m] == (i + m + (k - m), j + m + (k - m));
      }
    }
  }

  // ---------- concatenation ----------

  lemma {:induction false} TotalsConcat(e: seq<Edit>, f: seq<Edit>)
    ensures Olds(e + f) == Olds(e) + Olds(f) && News(e + f) == News(e) + News(f)
  {
    if e == [] {
      assert e + f == f;
    } else {
      assert (e + f)[1..] == e[1..] + f;
      TotalsConcat(e[1..], f);
    }
  }

  lemma {:induction false} PairsConcat(e: seq<Edit>, f: seq<Edit>, i: nat, j: nat)
    ensures Pairs(e + f, i, j) == Pairs(e, i, j) + Pairs(f, i + Olds(e), j + News(e))
    decreases |e|
  {
    if e == [] {
      assert e + f == f;
      assert [] + Pairs(f, i, j) == Pairs(f, i, j);
    } else {
      assert (e + f)[1..] == e[1..] + f;
      var i', j' := i + (if e[0].op == INS then 0 else e[0].len), j + (if e[0].op == DEL then 0 else e[0].len);
      PairsConcat(e[1..], f, i', j');
      if e[0].op == EQ {
        Assoc(Diagonal(i, j, e[0].len), Pairs(e[1..], i', j'), Pairs(f, i + Olds(e), j + News(e)));
      }
    }
  }

  lemma Assoc<T>(a: seq<T>, b: seq<T>, c: seq<T>)
    ensures a + (b + c) == a + b + c
  {
  }

  lemma PairsOne(d: Edit, i: nat, j: nat)
    ensures Pairs([d], i, j) == if d.op == EQ then Diagonal(i, j, d.len) else []
    ensures Olds([d]) == (if d.op == INS then 0 else d.len) && News([d]) == (if d.op == DEL then 0 else d.len)
  {
    assert [d][1..] == [];
    assert Diagonal(i, j, d.len) + [] == Diagonal(i, j, d.len);
  }

  lemma PairsCons(d: Edit, f: seq<Edit>, i: nat, j: nat)
    ensures var i', j' := i + (if d.op == INS then 0 else d.len), j + (if d.op == DEL then 0 else d.len);
      Pairs([d] + f, i, j) == (if d.op == EQ then Diagonal(i, j, d.len) else []) + Pairs(f, i', j')
    ensures Olds([d] + f) == (if d.op == INS then 0 else d.len) + Olds(f)
    ensures News([d] + f) == (if d.op == DEL then 0 else d.len) + News(f)
  {
    assert ([d] + f)[1..] == f;
    assert [] + Pairs(f, i, j) == Pairs(f, i, j);
  }

  /** Same edits of the parts, same edit of the whole. */
  ghost predicate SameFrom(e: seq<Edit>, f: seq<Edit>) {
    Olds(e) == Olds(f) && News(e) == News(f) && forall i: nat, j: nat :: SamePairs(e, f, i, j)
  }

  ghost predicate SamePairs(e: seq<Edit>, f: seq<Edit>, i: nat, j: nat) {
    Pairs(e, i, j) == Pairs(f, i, j)
  }

  lemma SameFromIsSame(e: seq<Edit>, f: seq<Edit>)
    requires SameFrom(e, f)
    ensures Same(e, f)
  {
    assert SamePairs(e, f, 0, 0);
  }

  lemma SameConcat(e: seq<Edit>, f: seq<Edit>, e': seq<Edit>, f': seq<Edit>)
    requires SameFrom(e, e') && SameFrom(f, f')
    ensures SameFrom(e + f, e' + f')
  {
    hide Olds, News, Pairs;
    TotalsConcat(e, f);
    TotalsConcat(e', f');
    forall i: nat, j: nat
      ensures SamePairs(e + f, e' + f', i, j)
    {
      PairsConcat(e, f, i, j);
      PairsConcat(e', f', i, j);
      assert SamePairs(e, e', i, j) && SamePairs(f, f', i + Olds(e), j + News(e));
    }
  }

  lemma SameRefl(e: seq<Edit>)
    ensures SameFrom(e, e)
  {
  }

  lemma SameTrans(e: seq<Edit>, f: seq<Edit>, g: seq<Edit>)
    requires SameFrom(e, f) && SameFrom(f, g)
    ensures SameFrom(e, g)
  {
    forall i: nat, j: nat
      ensures SamePairs(e, g, i, j)
    {
      assert SamePairs(e, f, i, j) && SamePairs(f, g, i, j);
    }
  }

  /** A zero-length entry edits nothing. */
  lemma SameZero(d: Edit)
    requires d.len == 0
    ensures SameFrom([d], [])
  {
    forall i: nat, j: nat
      ensures SamePairs([d], [], i, j)
    {
      PairsOne(d, i, j);
    }
    PairsOne(d, 0, 0);
  }

  lemma MergePairs(op: Op, m: nat, n: nat, i: nat, j: nat)
    ensures Pairs([Edit(op, m)] + [Edit(op, n)], i, j) == Pairs([Edit(op, m + n)], i, j)
    ensures Olds([Edit(op, m)] + [Edit(op, n)]) == Olds([Edit(op, m + n)])
    ensures News([Edit(op, m)] + [Edit(op, n)]) == News([Edit(op, m + n)])
  {
    hide Olds, News, Pairs, Diagonal;
    PairsCons(Edit(op, m), [Edit(op, n)], i, j);
    PairsOne(Edit(op, n), i + if op == INS then 0 else m, j + if op == DEL then 0 else m);
    PairsOne(Edit(op, m + n), i, j);
    DiagonalSplit(i, j, m, n);
  }

  /** Two entries of one kind are one. */
  lemma SameMerge(op: Op, m: nat, n: nat)
    ensures SameFrom([Edit(op, m)] + [Edit(op, n)], [Edit(op, m + n)])
  {
    hide Olds, News, Pairs, Diagonal;
    var two, one := [Edit(op, m)] + [Edit(op, n)], [Edit(op, m + n)];
    forall i: nat, j: nat
      ensures SamePairs(two, one, i, j)
    {
      MergePairs(op, m, n, i, j);
    }
    MergePairs(op, m, n, 0, 0);
  }

  /** The order of a deletion and an insertion does not matter. */
  lemma SameSwap(m: nat, n: nat)
    ensures SameFrom([Edit(DEL, m)] + [Edit(INS, n)], [Edit(INS, n)] + [Edit(DEL, m)])
  {
    hide Olds, News, Pairs;
    forall i: nat, j: nat
      ensures SamePairs([Edit(DEL, m)] + [Edit(INS, n)], [Edit(INS, n)] + [Edit(DEL, m)], i, j)
    {
      PairsCons(Edit(DEL, m), [Edit(INS, n)], i, j);
      PairsOne(Edit(INS, n), i + m, j);
      PairsCons(Edit(INS, n), [Edit(DEL, m)], i, j);
      PairsOne(Edit(DEL, m), i, j + n);
    }
    PairsCons(Edit(DEL, m), [Edit(INS, n)], 0, 0);
    PairsOne(Edit(INS, n), 0, 0);
    PairsCons(Edit(INS, n), [Edit(DEL, m)], 0, 0);
    PairsOne(Edit(DEL, m), 0, 0);
  }

  // ---------- the list form and the one-token-at-a-time form agree ----------

  lemma {:induction false} AlignsRepeat<T>(op: Op, n: nat, u: seq<Op>, a: seq<T>, b: seq<T>)
    ensures Aligns(Repeat(op, n) + u, a, b) <==>
      (op == INS || n <= |a|) && (op == DEL || n <= |b|)
      && (op == EQ ==> a[..n] == b[..n])
      && Aligns(u, a[if op == INS then 0 else n..], b[if op == DEL then 0 else n..])
    decreases n
  {
    if n == 0 {
      assert Repeat(op, 0) + u == u;
    } else {
      assert Repeat(op, n) + u == [op] + (Repeat(op, n - 1) + u);
      assert ([op] + (Repeat(op, n - 1) + u))[1..] == Repeat(op, n - 1) + u;
      if (op != INS ==> a != []) && (op != DEL ==> b != []) {
        var a' := if op == INS then a else a[1..];
        var b' := if op == DEL then b else b[1..];
        AlignsRepeat(op, n - 1, u, a', b');
        if op != INS && n <= |a| {
          assert a[1..][n - 1..] == a[n..] && a[..n] == [a[0]] + a[1..][..n - 1];
        }
        if op != DEL && n <= |b| {
          assert b[1..][n - 1..] == b[n..] && b[..n] == [b[0]] + b[1..][..n - 1];
        }
      }
    }
  }

  /** The list, run at positions `i` and `j` of `a` and `b`. */
  ghost predicate TurnsFrom<T>(e: seq<Edit>, a: seq<T>, b: seq<T>, i: nat, j: nat) {
    i + Olds(e) == |a| && j + News(e) == |b| && forall p | p in Pairs(e, i, j) :: PairEq(a, b, p)
  }

  lemma {:induction false} TurnsFromValid<T>(e: seq<Edit>, a: seq<T>, b: seq<T>, i: nat, j: nat)
    requires i <= |a| && j <= |b|
    ensures TurnsFrom(e, a, b, i, j) <==> Aligns(Units(e), a[i..], b[j..])
    decreases |e|
  {
    if e != [] {
      var d, n := e[0], e[0].len;
      var x, y := a[i..], b[j..];
      AlignsRepeat(d.op, n, Units(e[1..]), x, y);
      var di, dj := if d.op == INS then 0 else n, if d.op == DEL then 0 else n;
      if i + di <= |a| && j + dj <= |b| {
        assert x[di..] == a[i + di..] && y[dj..] == b[j + dj..];
        TurnsFromValid(e[1..], a, b, i + di, j + dj);
        if d.op == EQ {
          DiagonalEq(a, b, i, j, n);
        }
      }
    }
  }

  lemma DiagonalEq<T>(a: seq<T>, b: seq<T>, i: nat, j: nat, n: nat)
    requires i + n <= |a| && j + n <= |b|
    ensures (forall p | p in Diagonal(i, j, n) :: PairEq(a, b, p)) <==> a[i..][..n] == b[j..][..n]
  {
    DiagonalElements(i, j, n);
    var d := Diagonal(i, j, n);
    if forall p | p in d :: PairEq(a, b, p) {
      forall k: nat | k < n
        ensures a[i..][..n][k] == b[j..][..n][k]
      {
        assert d[k] in d;
      }
    }
    if a[i..][..n] == b[j..][..n] {
      forall p | p in d
        ensures PairEq(a, b, p)
      {
        var k :| 0 <= k < n && d[k] == p;
        assert a[i..][..n][k] == b[j..][..n][k];
      }
    }
  }

  /** Turning `a` into `b` is being a valid script from `a` to `b`. */
  lemma TurnsIsValid<T>(e: seq<Edit>, a: seq<T>, b: seq<T>)
    ensures Turns(e, a, b) <==> Valid(e, a, b)
  {
    TurnsFromValid(e, a, b, 0, 0);
    assert a[0..] == a && b[0..] == b;
  }
}
