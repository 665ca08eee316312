/** Edit scripts: run-length lists of kept, dropped and added tokens. */
module Script {

  datatype Op = EQ | DEL | INS

  datatype Edit = Edit(op: Op, len: nat)

  ghost function Repeat(op: Op, n: nat): seq<Op> {
    if n == 0 then [] else [op] + Repeat(op, n - 1)
  }

  /** The script one token at a time. */
  ghost function Units(e: seq<Edit>): seq<Op> {
    if e == [] then [] else Repeat(e[0].op, e[0].len) + Units(e[1..])
  }

  lemma {:induction false} UnitsConcat(a: seq<Edit>, b: seq<Edit>)
    ensures Units(a + b) == Units(a) + Units(b)
  {
    if a == [] {
      assert a + b == b;
    } else {
      assert (a + b)[1..] == a[1..] + b;
      UnitsConcat(a[1..], b);
    }
  }

  lemma UnitsOne(d: Edit)
    ensures Units([d]) == Repeat(d.op, d.len)
  {
    assert [d][1..] == [];
    assert Repeat(d.op, d.len) + [] == Repeat(d.op, d.len);
  }

  ghost predicate NonEmpty(e: seq<Edit>) {
    forall k | 0 <= k < |e| :: e[k].len > 0
  }

  /** Nothing empty, no two neighbours of one kind. */
  ghost predicate Tight(e: seq<Edit>) {
    NonEmpty(e) && forall k | 0 <= k < |e| - 1 :: Unlike(e[k], e[k + 1])
  }

  predicate Unlike(x: Edit, y: Edit) {
    x.op != y.op
  }

  /** One more entry, merged into the last one of its kind. */
  function AddTo(es: seq<Edit>, d: Edit): seq<Edit> {
    if es != [] && es[|es| - 1].op == d.op then es[|es| - 1 := Edit(d.op, es[|es| - 1].len + d.len)]
    else es + [d]
  }

  lemma AddToTight(es: seq<Edit>, d: Edit)
    requires Tight(es) && d.len > 0
    ensures Tight(AddTo(es, d))
  {
    var f := AddTo(es, d);
    forall k | 0 <= k < |f| - 1
      ensures Unlike(f[k], f[k + 1])
    {
      if k < |es| - 1 {
        assert Unlike(es[k], es[k + 1]);
      }
    }
  }

  lemma {:induction false} RepeatElements(op: Op, n: nat)
    ensures |Repeat(op, n)| == n && forall k | 0 <= k < n :: Repeat(op, n)[k] == op
  {
    if n > 0 {
      RepeatElements(op, n - 1);
    }
  }

  lemma {:induction false} RepeatAdd(op: Op, m: nat, n: nat)
    ensures Repeat(op, m + n) == Repeat(op, m) + Repeat(op, n)
  {
    if m > 0 {
      RepeatAdd(op, m - 1, n);
    } else {
      assert [] + Repeat(op, n) == Repeat(op, n);
    }
  }

  lemma AddToUnits(es: seq<Edit>, d: Edit)
    ensures Units(AddTo(es, d)) == Units(es) + Repeat(d.op, d.len)
  {
    hide Units, Repeat;
    UnitsOne(d);
    if es != [] && es[|es| - 1].op == d.op {
      var m, l := es[..|es| - 1], es[|es| - 1];
      var g := Edit(d.op, l.len + d.len);
      assert es == m + [l] && AddTo(es, d) == m + [g];
      UnitsConcat(m, [l]);
      UnitsConcat(m, [g]);
      UnitsOne(l);
      UnitsOne(g);
      RepeatAdd(d.op, l.len, d.len);
      assert Units(m) + (Repeat(d.op, l.len) + Repeat(d.op, d.len))
          == Units(m) + Repeat(d.op, l.len) + Repeat(d.op, d.len);
    } else {
      UnitsConcat(es, [d]);
    }
  }

  /** Run over `a` and `b`, the steps consume both exactly and every kept pair is equal. */
  ghost predicate Aligns<T>(u: seq<Op>, a: seq<T>, b: seq<T>) {
    if u == [] then a == [] && b == []
    else match u[0]
      case EQ => a != [] && b != [] && a[0] == b[0] && Aligns(u[1..], a[1..], b[1..])
      case DEL => a != [] && Aligns(u[1..], a[1..], b)
      case INS => b != [] && Aligns(u[1..], a, b[1..])
  }

  /** A script that turns `a` into `b`. */
  ghost predicate Valid<T>(e: seq<Edit>, a: seq<T>, b: seq<T>) {
    Aligns(Units(e), a, b)
  }

  lemma {:induction false} AllInserted<T>(n: nat, b: seq<T>)
    requires n == |b|
    ensures Aligns(Repeat(INS, n), [], b)
  {
    if n > 0 {
      assert Repeat(INS, n)[1..] == Repeat(INS, n - 1);
      AllInserted(n - 1, b[1..]);
    }
  }

  lemma {:induction false} AllDeleted<T>(n: nat, a: seq<T>)
    requires n == |a|
    ensures Aligns(Repeat(DEL, n), a, [])
  {
    if n > 0 {
      assert Repeat(DEL, n)[1..] == Repeat(DEL, n - 1);
      AllDeleted(n - 1, a[1..]);
    }
  }
}
