/** One scan of a token's children settles where the token ends and which scopes see it alive. */
module TokenEnds {
  import opened Common
  import opened TopoOrder
  import opened Rga
  import opened CfoldModel
  import opened Weave
  import opened WeaveRep
  import opened WeaveFacts
  import opened WalkOrder

  /** A tomb by the commit with build index `co` counts in this scope. */
  predicate Hides(sc: Scope, co: nat) {
    co <= sc.cidx && co !in sc.ign
  }

  /** The alive bits left after a tomb by commit `co`. */
  method Bury(scs: seq<Scope>, co: nat, am: seq<bool>) returns (r: seq<bool>)
    requires |am| == |scs|
    ensures |r| == |am| && forall k | 0 <= k < |am| :: r[k] == (am[k] && !Hides(scs[k], co))
  {
    r := am;
    for k := 0 to |scs|
      invariant |r| == |am|
      invariant forall j | 0 <= j < k :: r[j] == (am[j] && !Hides(scs[j], co))
      invariant forall j | k <= j < |am| :: r[j] == am[j]
    {
      if Hides(scs[k], co) {
        r := r[k := false];
      }
    }
  }

  ghost predicate TermAt(idx: seq<Entry>, i: nat, end: nat)
    requires i < |idx|
  {
    idx[i].chi.tag == TERM_TAG && idx[i].chi.off == end
  }

  ghost predicate TokenAt(idx: seq<Entry>, i: nat, off: nat)
    requires i < |idx|
  {
    IsToken(idx[i]) && idx[i].chi.off == off
  }

  ghost predicate HiddenAt(idx: seq<Entry>, sc: Scope, i: nat)
    requires i < |idx|
  {
    idx[i].chi.tag == TOMB_TAG && Hides(sc, idx[i].chi.off)
  }

  /** Among the entries [lo, hi): the terminator if any, the least inserted offset if any. */
  ghost predicate Ends(idx: seq<Entry>, lo: nat, hi: nat, hasterm: bool, term: nat, hasmin: bool, mino: nat)
    requires lo <= hi <= |idx|
  {
    && (hasterm ==> exists i :: lo <= i < hi && TermAt(idx, i, term))
    && (!hasterm ==> forall i | lo <= i < hi :: idx[i].chi.tag != TERM_TAG)
    && (hasmin ==> exists i :: lo <= i < hi && TokenAt(idx, i, mino))
    && (forall i | lo <= i < hi && IsToken(idx[i]) :: hasmin && mino <= idx[i].chi.off)
  }

  ghost predicate Lives(idx: seq<Entry>, scs: seq<Scope>, lo: nat, hi: nat, pm: seq<bool>, am: seq<bool>)
    requires lo <= hi <= |idx|
  {
    && |pm| == |am| == |scs|
    && forall k | 0 <= k < |scs| :: LivesIn(idx, scs[k], lo, hi, pm[k], am[k])
  }

  ghost predicate LivesIn(idx: seq<Entry>, sc: Scope, lo: nat, hi: nat, p: bool, a: bool)
    requires lo <= hi <= |idx|
  {
    a <==> p && forall i | lo <= i < hi :: !HiddenAt(idx, sc, i)
  }

  lemma EndsStep(idx: seq<Entry>, lo: nat, hi: nat, hasterm: bool, term: nat, hasmin: bool, mino: nat)
    requires lo <= hi < |idx| && Ends(idx, lo, hi, hasterm, term, hasmin, mino)
    ensures var e := idx[hi].chi;
      if e.tag == TERM_TAG then Ends(idx, lo, hi + 1, true, e.off, hasmin, mino)
      else if e.tag == TOMB_TAG then Ends(idx, lo, hi + 1, hasterm, term, hasmin, mino)
      else if !hasmin || e.off < mino then Ends(idx, lo, hi + 1, hasterm, term, true, e.off)
      else Ends(idx, lo, hi + 1, hasterm, term, hasmin, mino)
  {
    var e := idx[hi].chi;
    if e.tag == TERM_TAG {
      assert TermAt(idx, hi, e.off);
    } else if e.tag != TOMB_TAG {
      assert TokenAt(idx, hi, e.off);
    }
  }

  lemma LivesStep(idx: seq<Entry>, scs: seq<Scope>, lo: nat, hi: nat, pm: seq<bool>, am: seq<bool>, am': seq<bool>)
    requires lo <= hi < |idx| && Lives(idx, scs, lo, hi, pm, am) && |am'| == |am|
    requires forall k | 0 <= k < |am| :: am'[k] == (am[k] && !HiddenAt(idx, scs[k], hi))
    ensures Lives(idx, scs, lo, hi + 1, pm, am')
  {
    forall k | 0 <= k < |scs|
      ensures LivesIn(idx, scs[k], lo, hi + 1, pm[k], am'[k])
    {
      assert LivesIn(idx, scs[k], lo, hi, pm[k], am[k]);
    }
  }

  method Settle(w: Weave, scs: seq<Scope>, lo: nat, hi: nat, pm: seq<bool>)
        returns (st: Status, end: nat, am: seq<bool>)
    requires lo <= hi <= |w.idx| && |pm| == |scs|
    ensures Lives(w.idx, scs, lo, hi, pm, am)
    ensures st == TORN || st == OK
    ensures st == TORN ==> Ends(w.idx, lo, hi, false, 0, false, 0)
    ensures st == OK ==> Settled(w.idx, lo, hi, end)
  {
    am := pm;
    var hasterm, hasmin := false, false;
    var term, mino := 0, 0;
    for i := lo to hi
      invariant Ends(w.idx, lo, i, hasterm, term, hasmin, mino)
      invariant Lives(w.idx, scs, lo, i, pm, am)
      invariant !hasterm ==> term == 0
      invariant !hasmin ==> mino == 0
    {
      var c := w.idx[i].chi;
      EndsStep(w.idx, lo, i, hasterm, term, hasmin, mino);
      ghost var am0 := am;
      if c.tag == TOMB_TAG {
        am := Bury(scs, c.off, am);
      } else if c.tag == TERM_TAG {
        hasterm, term := true, c.off;
      } else if !hasmin || c.off < mino {
        hasmin, mino := true, c.off;
      }
      LivesStep(w.idx, scs, lo, i, pm, am0, am);
    }
    end := if hasterm then term else mino;
    st := if hasterm || hasmin then OK else TORN;
    assert Ends(w.idx, lo, hi, hasterm, term, hasmin, mino);
  }

  /** The terminator's offset, or the least inserted one. */
  ghost predicate Settled(idx: seq<Entry>, lo: nat, hi: nat, end: nat)
    requires lo <= hi <= |idx|
  {
    || (exists mino, hasmin :: Ends(idx, lo, hi, true, end, hasmin, mino))
    || (exists term :: Ends(idx, lo, hi, false, term, true, end))
  }

  // ---------- what it means for a stored token ----------

  ghost predicate ChildRange(w: Weave, s: State, ids: seq<nat>, t: Tid, lo: nat, hi: nat) {
    Stored(s, ids, t) && IsGroup(w.idx, Par(Off(s, ids, t)), lo, hi)
  }

  /** A group entry is an inserted child, the terminator, or a tomb of the token itself. */
  lemma ChildKinds(w: Weave, s: State, ids: seq<nat>, t: Tid, lo: nat, hi: nat, i: nat)
    requires Represents(w, s, ids) && Has(s, t) && ChildRange(w, s, ids, t, lo, hi) && lo <= i < hi
    ensures w.idx[i].chi.tag == TERM_TAG ==> w.idx[i].chi.off == End(s, ids, t)
    ensures IsToken(w.idx[i]) ==> w.idx[i].chi.off >= End(s, ids, t)
    ensures w.idx[i].chi.tag == TOMB_TAG ==>
      w.idx[i].chi.off < |ids| && ids[w.idx[i].chi.off] in s && t in s[ids[w.idx[i].chi.off]].tombs
  {
    var e := w.idx[i];
    assert EntryAt(w.idx, s, ids, i);
    if u :| IsIns(s, ids, e, u) {
      InsFacts(w, s, ids, u);
      assert TokenOk(s, u);
      ParUnique(w, s, ids, NodeOf(s, u).anchor, After(t));
      AnchorEarlier(w, s, ids, u);
    } else if u :| IsTerm(s, ids, e, u) {
      TermFacts(w, s, ids, e, u);
      ParUnique(w, s, ids, After(u), After(t));
    } else {
      var c, u :| IsTomb(s, ids, e, c, u);
      TombFacts(w, s, ids, e, c, u);
      ParUnique(w, s, ids, After(u), After(t));
    }
  }

  /** An entry naming the token as parent is in its group. */
  lemma InGroup(w: Weave, s: State, ids: seq<nat>, t: Tid, lo: nat, hi: nat, e: Entry) returns (i: nat)
    requires Represents(w, s, ids) && ChildRange(w, s, ids, t, lo, hi)
    requires e in w.idx && e.par == Par(Off(s, ids, t))
    ensures lo <= i < hi && w.idx[i] == e
  {
    i :| 0 <= i < |w.idx| && w.idx[i] == e;
  }

  /** The settled end is where the token's bytes end. */
  lemma EndIsEnd(w: Weave, s: State, ids: seq<nat>, t: Tid, lo: nat, hi: nat, end: nat)
    requires Represents(w, s, ids) && Has(s, t) && ChildRange(w, s, ids, t, lo, hi)
    requires Settled(w.idx, lo, hi, end)
    ensures end == End(s, ids, t)
  {
    if mino, hasmin :| Ends(w.idx, lo, hi, true, end, hasmin, mino) {
      var i :| lo <= i < hi && TermAt(w.idx, i, end);
      ChildKinds(w, s, ids, t, lo, hi, i);
    } else {
      var term :| Ends(w.idx, lo, hi, false, term, true, end);
      assert !ChainEnd(s, t) by {
        if ChainEnd(s, t) {
          assert RepToken(w, s, ids, t);
          TermFacts(w, s, ids, TermEntry(s, ids, t), t);
          var i := InGroup(w, s, ids, t, lo, hi, TermEntry(s, ids, t));
        }
      }
      var i := Successor(w, s, ids, t, lo, hi);
      var j :| lo <= j < hi && TokenAt(w.idx, j, end);
      ChildKinds(w, s, ids, t, lo, hi, j);
    }
  }

  /** Inside a chain the next token is a child, and starts where this one ends. */
  lemma Successor(w: Weave, s: State, ids: seq<nat>, t: Tid, lo: nat, hi: nat) returns (i: nat)
    requires Represents(w, s, ids) && Has(s, t) && ChildRange(w, s, ids, t, lo, hi) && !ChainEnd(s, t)
    ensures lo <= i < hi && IsToken(w.idx[i]) && w.idx[i].chi.off == End(s, ids, t)
  {
    var u := Tid(t.cid, t.ord + 1);
    assert Has(s, u);
    InsFacts(w, s, ids, u);
    i := InGroup(w, s, ids, t, lo, hi, InsEntry(s, ids, u));
  }

  /** Some end is always found. */
  lemma NeverTorn(w: Weave, s: State, ids: seq<nat>, t: Tid, lo: nat, hi: nat)
    requires Represents(w, s, ids) && Has(s, t) && ChildRange(w, s, ids, t, lo, hi)
    ensures !Ends(w.idx, lo, hi, false, 0, false, 0)
  {
    if ChainEnd(s, t) {
      assert RepToken(w, s, ids, t);
      TermFacts(w, s, ids, TermEntry(s, ids, t), t);
      var i := InGroup(w, s, ids, t, lo, hi, TermEntry(s, ids, t));
    } else {
      var i := Successor(w, s, ids, t, lo, hi);
    }
  }

  lemma TombInGroup(w: Weave, s: State, ids: seq<nat>, t: Tid, lo: nat, hi: nat, c: nat) returns (i: nat)
    requires Represents(w, s, ids) && Has(s, t) && ChildRange(w, s, ids, t, lo, hi)
    requires c in s && t in s[c].tombs
    ensures lo <= i < hi && c in ids && w.idx[i].chi == Word(TOMB_TAG, Pos(ids, c))
  {
    assert HasTomb(w.idx, s, ids, c, t);
    i := InGroup(w, s, ids, t, lo, hi, TombEntry(s, ids, c, t));
  }

  /** Alive in a scope: present, and no tomb of the scope's commits names it. */
  lemma LivesMeans(w: Weave, s: State, ids: seq<nat>, t: Tid, lo: nat, hi: nat, sc: Scope, a: set<nat>, alive: bool)
    requires Represents(w, s, ids) && Has(s, t) && ChildRange(w, s, ids, t, lo, hi)
    requires Sees(s, ids, sc, a) && LivesIn(w.idx, sc, lo, hi, t.cid in a, alive)
    ensures alive <==> t in Alive(s, a)
  {
    if Tombed(s, a, t) {
      var c :| c in a && c in s && t in s[c].tombs;
      var i := TombInGroup(w, s, ids, t, lo, hi, c);
      assert SeesAt(s, ids, sc, a, Pos(ids, c));
      assert HiddenAt(w.idx, sc, i);
    } else if i :| lo <= i < hi && HiddenAt(w.idx, sc, i) {
      ChildKinds(w, s, ids, t, lo, hi, i);
      assert SeesAt(s, ids, sc, a, w.idx[i].chi.off);
    }
  }
}
