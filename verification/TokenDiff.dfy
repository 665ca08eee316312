/** The weave's diff: patience over token hashes, then cleanup and boundary slides; or everything replaced. */
module TokenDiff {
  import opened Common
  import opened Script
  import opened EditLists
  import opened EditCanon
  import opened NeilTokens
  import opened NeilCanon
  import opened NeilCleanup
  import opened NeilShift
  import opened NeilSettle
  import opened Patience
  import opened PatienceDiff
  import opened PatienceLines

  /** Token hashes tell token texts apart. */
  ghost predicate HashesTell(a: Toks, b: Toks, ha: seq<nat>, hb: seq<nat>) {
    && |ha| == |a.ends| && |hb| == |b.ends|
    && forall i, j | 0 <= i < |ha| && 0 <= j < |hb| && ha[i] == hb[j] :: TextAt(a, i) == TextAt(b, j)
  }

  /** A script over the hashes is a script over the texts. */
  lemma HashScript(a: Toks, b: Toks, ha: seq<nat>, hb: seq<nat>, e: seq<Edit>)
    requires HashesTell(a, b, ha, hb) && Turns(e, ha, hb)
    ensures Turns(e, Texts(a), Texts(b))
  {
    forall p | p in Pairs(e, 0, 0)
      ensures PairEq(Texts(a), Texts(b), p)
    {
      assert PairEq(ha, hb, p);
    }
  }

  /** A patience script of the hashes, as a list. */
  ghost predicate Drew(d: Draw, s: Sides, ha: seq<nat>, hb: seq<nat>, got: seq<Edit>) {
    Tight(got) && Looks(d, s, ha, hb) && Patient(d, s, Units(got))
  }

  /** The refined diff: the patience script, cleaned of false equalities and slid into place. */
  ghost predicate Refined(d: Draw, a: Toks, b: Toks, ha: seq<nat>, hb: seq<nat>, es: seq<Edit>)
    requires |a.ends| == |a.tags| && |b.ends| == |b.tags|
  {
    exists got: seq<Edit>, s: Sides :: Drew(d, s, ha, hb, got) && es == Rewritten(a, b, got)
  }

  /** Everything replaced, which is for inputs the inner diff gives up on. */
  ghost predicate Wholesale(d: Draw, ha: seq<nat>, hb: seq<nat>, es: seq<Edit>) {
    GivesUp(d, ha, hb) && es == [Edit(INS, |hb|), Edit(DEL, |ha|)]
  }

  /** Always a valid script from the old texts to the new ones, in normal form: the refined one wherever the inner
    * diff gives one. */
  method DiffTokens(lcs: Lcs, mix: Mix, seed: nat, nl: nat, a: Toks, b: Toks, ha: seq<nat>, hb: seq<nat>,
          cap: nat) returns (es: seq<Edit>)
    requires GoodLcs(lcs) && FoldTells(mix, seed, ha, hb) && ToksOk(a) && ToksOk(b) && HashesTell(a, b, ha, hb)
    requires ha != [] && hb != [] && cap >= |ha| + |hb|
    ensures Valid(es, Texts(a), Texts(b)) && Normal(es)
    ensures |a.ends| == |a.tags| && |b.ends| == |b.tags|
    ensures var d := Draw(lcs, mix, seed, nl, false);
      Refined(d, a, b, ha, hb, es) || Wholesale(d, ha, hb, es)
  {
    hide GoodLcs, FoldTells, Turns, Normal, ToksOk, IdentsKept, Units, Aligns, Texts, Patient, Looks, Tight, Refined,
      GivesUp, Rewritten, Canon;
    ToksTags(a);
    ToksTags(b);
    ghost var d := Draw(lcs, mix, seed, nl, false);
    var edl := new EditList(cap);
    ghost var u: seq<Op>;
    ghost var sides: Sides;
    var refined: bool;
    refined, u, sides := Bram(edl, lcs, mix, seed, nl, ha, hb, false);
    if refined {
      StartEmpty(edl.es, u, ha, hb);
    } else {
      var ok := FallbackEdl(edl, |ha|, |hb|);
      ReplaceAll(ha, hb);
    }
    var got := edl.es;
    TightSolid(got);
    TurnsIsValid(got, ha, hb);
    HashScript(a, b, ha, hb, got);
    var list, n := ListOf(got, cap);
    if refined {
      n := Rewrite(list, n, a, b);
      RefinedBy(d, sides, a, b, ha, hb, got, list[..n]);
    } else {
      n := Canonicalize(list, n);
      CanonTurns(got, Texts(a), Texts(b));
      ReplacedCanon(|ha|, |hb|);
    }
    es := list[..n];
    TurnsIsValid(es, Texts(a), Texts(b));
  }

  /** The edits, put into an array of the given size. */
  method ListOf(got: seq<Edit>, cap: nat) returns (list: array<Edit>, n: nat)
    requires |got| <= cap
    ensures fresh(list) && list.Length == cap && n == |got| && list[..n] == got
  {
    list := new Edit[cap](_ => Edit(EQ, 0));
    n := |got|;
    for k := 0 to n
      invariant list[..k] == got[..k]
    {
      list[k] := got[k];
      assert list[..k + 1] == list[..k] + [list[k]] && got[..k + 1] == got[..k] + [got[k]];
    }
  }

  lemma RefinedBy(d: Draw, s: Sides, a: Toks, b: Toks, ha: seq<nat>, hb: seq<nat>, got: seq<Edit>, es: seq<Edit>)
    requires |a.ends| == |a.tags| && |b.ends| == |b.tags|
    requires Tight(got) && Looks(d, s, ha, hb) && Patient(d, s, Units(got))
    requires NonEmpty(got) && es == Rewritten(a, b, got)
    ensures Refined(d, a, b, ha, hb, es)
  {
    hide Looks, Patient, Units, Rewritten;
    assert Drew(d, s, ha, hb, got);
  }

  lemma ReplacedCanon(m: nat, n: nat)
    requires m > 0 && n > 0
    ensures Canon([Edit(DEL, m), Edit(INS, n)]) == [Edit(INS, n), Edit(DEL, m)]
  {
    assert [Edit(DEL, m), Edit(INS, n)][1..] == [Edit(INS, n)] && [Edit(INS, n)][1..] == [];
    assert Canon([Edit(INS, n)]) == [Edit(INS, n)];
  }

  lemma CanonTurns<T>(e: seq<Edit>, a: seq<T>, b: seq<T>)
    requires Turns(e, a, b)
    ensures Turns(Canon(e), a, b) && Normal(Canon(e))
  {
    CanonNormal(e);
    SameFromIsSame(Canon(e), e);
  }

  lemma StartEmpty(es: seq<Edit>, u: seq<Op>, a: seq<nat>, b: seq<nat>)
    requires Extends([], es, u, a, b)
    ensures Valid(es, a, b) && Units(es) == u
  {
    assert [] + u == u;
  }

  /** There is one refined diff. */
  lemma RefinedUnique(d: Draw, a: Toks, b: Toks, ha: seq<nat>, hb: seq<nat>, es: seq<Edit>, es': seq<Edit>)
    requires |a.ends| == |a.tags| && |b.ends| == |b.tags| && !d.tight
    requires Refined(d, a, b, ha, hb, es) && Refined(d, a, b, ha, hb, es')
    ensures es == es'
  {
    hide Looks, Patient, Units, Rewritten;
    var got: seq<Edit>, s: Sides :| Drew(d, s, ha, hb, got) && es == Rewritten(a, b, got);
    var got': seq<Edit>, s': Sides :| Drew(d, s', ha, hb, got') && es' == Rewritten(a, b, got');
    LooksUnique(d, ha, hb, s, s');
    PatientUnique(d, s, Units(got), Units(got'));
    TightUnique(got, got');
  }
}
