/** Patience diff: anchor on lines unique to both sides, recurse between them, fall back to a plain diff. */
module Patience {
  import opened Common
  import opened Script

  // ---------- the shared edit list ----------

  function AddAll(es: seq<Edit>, more: seq<Edit>): seq<Edit>
    decreases |more|
  {
    if more == [] then es else AddAll(AddTo(es, more[0]), more[1..])
  }

  lemma {:induction false} AddAllUnits(es: seq<Edit>, more: seq<Edit>)
    ensures Units(AddAll(es, more)) == Units(es) + Units(more)
    ensures |AddAll(es, more)| <= |es| + |more|
    decreases |more|
  {
    hide Repeat;
    if more == [] {
      assert Units(es) + [] == Units(es);
    } else {
      AddToUnits(es, more[0]);
      AddAllUnits(AddTo(es, more[0]), more[1..]);
      assert Units(es) + (Repeat(more[0].op, more[0].len) + Units(more[1..]))
        == Units(es) + Repeat(more[0].op, more[0].len) + Units(more[1..]);
    }
  }

  lemma {:induction false} AddAllTight(es: seq<Edit>, more: seq<Edit>)
    requires Tight(es) && NonEmpty(more)
    ensures Tight(AddAll(es, more))
    decreases |more|
  {
    hide Tight;
    if more != [] {
      assert forall k | 0 <= k < |more[1..]| :: more[1..][k] == more[k + 1];
      AddToTight(es, more[0]);
      AddAllTight(AddTo(es, more[0]), more[1..]);
    }
  }

  /** A bounded edit list that every step appends to. */
  class EditList {
    var es: seq<Edit>
    const cap: nat

    /** Within its capacity, no entry empty, no two neighbours of one kind. */
    ghost predicate Ok()
      reads this
    {
      |es| <= cap && Tight(es)
    }

    constructor (cap: nat)
      ensures es == [] && this.cap == cap && Ok()
    {
      es, this.cap := [], cap;
    }

    method AddEntry(op: Op, len: nat) returns (ok: bool)
      requires Ok() && len > 0
      modifies this
      ensures Ok()
      ensures ok ==> es == AddTo(old(es), Edit(op, len)) && |es| <= |old(es)| + 1
      ensures !ok ==> es == old(es) && |es| == cap
      ensures !ok ==> es == [] || es[|es| - 1].op != op
    {
      AddToTight(es, Edit(op, len));
      if es != [] && es[|es| - 1].op == op {
        es := AddTo(es, Edit(op, len));
        return true;
      }
      if |es| >= cap {
        return false;
      }
      es := AddTo(es, Edit(op, len));
      ok := true;
    }
  }

  /** Rewinds the list and deletes and inserts everything. */
  method FallbackEdl(edl: EditList, olen: nat, nlen: nat) returns (ok: bool)
    requires olen > 0 && nlen > 0
    modifies edl
    ensures edl.Ok()
    ensures ok ==> edl.es == [Edit(DEL, olen), Edit(INS, nlen)]
    ensures ok ==> Units(edl.es) == Repeat(DEL, olen) + Repeat(INS, nlen)
    ensures !ok ==> edl.cap < 2
  {
    edl.es := [];
    ok := edl.AddEntry(DEL, olen);
    if !ok {
      return;
    }
    AddToUnits([], Edit(DEL, olen));
    ghost var one := edl.es;
    ok := edl.AddEntry(INS, nlen);
    AddToUnits(one, Edit(INS, nlen));
    assert [] + Repeat(DEL, olen) == Repeat(DEL, olen);
  }

  // ---------- the inner diff ----------

  type Lcs = (seq<nat>, seq<nat>) -> Option<seq<Edit>>

  ghost predicate Shares(a: seq<nat>, b: seq<nat>) {
    exists x :: x in a && x in b
  }

  ghost predicate LcsAt(lcs: Lcs, a: seq<nat>, b: seq<nat>) {
    lcs(a, b).Some? ==>
      && Valid(lcs(a, b).value, a, b)
      && NonEmpty(lcs(a, b).value) && |lcs(a, b).value| <= |a| + |b|
      && (Shares(a, b) ==> EQ in Units(lcs(a, b).value))
  }

  /** A valid script or nothing; some match, when there is one to find. */
  ghost predicate GoodLcs(lcs: Lcs) {
    forall a: seq<nat>, b: seq<nat> :: LcsAt(lcs, a, b)
  }

  /** Room for one entry a token. */
  ghost predicate Room(es: seq<Edit>, cap: nat, a: seq<nat>, b: seq<nat>) {
    |es| + |a| + |b| <= cap
  }

  /** What an appended stretch of the list amounts to. */
  ghost predicate Extends(es: seq<Edit>, es': seq<Edit>, u: seq<Op>, a: seq<nat>, b: seq<nat>) {
    Units(es') == Units(es) + u && Aligns(u, a, b) && |es'| <= |es| + |a| + |b|
  }

  /** Failed: the list is as it was, or full with tokens still to write. */
  ghost predicate GaveUp(es: seq<Edit>, es': seq<Edit>, cap: nat, a: seq<nat>, b: seq<nat>) {
    es' == es || Full(es, es', cap, a, b)
  }

  ghost predicate Full(es: seq<Edit>, es': seq<Edit>, cap: nat, a: seq<nat>, b: seq<nat>) {
    |es'| == cap < |es| + |a| + |b|
  }

  method RunLcs(edl: EditList, lcs: Lcs, a: seq<nat>, b: seq<nat>) returns (ok: bool, ghost u: seq<Op>)
    requires GoodLcs(lcs) && edl.Ok()
    modifies edl
    ensures edl.Ok()
    ensures ok ==> Extends(old(edl.es), edl.es, u, a, b) && lcs(a, b).Some? && u == Units(lcs(a, b).value)
    ensures !ok ==> edl.es == old(edl.es)
    ensures !ok && Room(old(edl.es), edl.cap, a, b) ==> lcs(a, b).None?
  {
    assert LcsAt(lcs, a, b);
    match lcs(a, b)
    case None =>
      ok, u := false, [];
    case Some(more) =>
      AddAllUnits(edl.es, more);
      AddAllTight(edl.es, more);
      u := Units(more);
      var es := AddAll(edl.es, more);
      ok := |es| <= edl.cap;
      if ok {
        edl.es := es;
      }
  }

  lemma {:induction false} AlignsConcat(u: seq<Op>, v: seq<Op>, a: seq<nat>, b: seq<nat>, c: seq<nat>, d: seq<nat>)
    requires Aligns(u, a, b) && Aligns(v, c, d)
    ensures Aligns(u + v, a + c, b + d)
    decreases |u|
  {
    if u == [] {
      assert u + v == v && a + c == c && b + d == d;
    } else {
      assert (u + v)[1..] == u[1..] + v;
      if a != [] {
        assert (a + c)[1..] == a[1..] + c;
      }
      if b != [] {
        assert (b + d)[1..] == b[1..] + d;
      }
      match u[0]
      case EQ => AlignsConcat(u[1..], v, a[1..], b[1..], c, d);
      case DEL => AlignsConcat(u[1..], v, a[1..], b, c, d);
      case INS => AlignsConcat(u[1..], v, a, b[1..], c, d);
    }
  }

  lemma {:induction false} AllKept(a: seq<nat>)
    ensures Aligns(Repeat(EQ, |a|), a, a)
  {
    if a != [] {
      AllKept(a[1..]);
    }
  }

  lemma ReplaceAll(a: seq<nat>, b: seq<nat>)
    ensures Aligns(Repeat(DEL, |a|) + Repeat(INS, |b|), a, b)
  {
    AllDeleted(|a|, a);
    AllInserted(|b|, b);
    AlignsConcat(Repeat(DEL, |a|), Repeat(INS, |b|), a, [], [], b);
    assert a + [] == a && [] + b == b;
  }
}
