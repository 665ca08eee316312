/** Stepping through a sibling group: the next present child, its end, and what hides it. */
module Siblings {
  import opened Common
  import opened TopoOrder
  import opened Rga
  import opened CfoldModel
  import opened Weave
  import opened WeaveRep
  import opened WeaveFacts
  import opened Ranks
  import opened WalkOrder

  // ---------- the sibling key ----------

  /** The inserting commit's rank, and the token's body offset. */
  datatype RgaKey = RgaKey(rank: nat, off: nat)

  /** Later commits first; within one commit, in order. */
  predicate KeyLt(a: RgaKey, b: RgaKey) {
    if a.rank != b.rank then a.rank > b.rank else a.off < b.off
  }

  ghost function KeyOf(w: Weave, rank: seq<nat>, e: Entry): RgaKey
    requires Tiled(w.cmts, |w.body|) && e.chi.off < |w.body| && |rank| == |w.cmts|
  {
    RgaKey(rank[BlameOf(w.cmts, |w.body|, e.chi.off)], e.chi.off)
  }

  method Key(w: Weave, rank: seq<nat>, e: Entry) returns (st: Status, k: RgaKey)
    requires Tiled(w.cmts, |w.body|) && e.chi.off < |w.body| && |rank| == |w.cmts|
    ensures st == OK && k == KeyOf(w, rank, e)
  {
    var ci: nat;
    k := RgaKey(0, 0);
    st, ci := Blame(w, e.chi.off);
    if st != OK {
      return;
    }
    if ci >= |rank| {
      st := TORN;
      return;
    }
    k := RgaKey(rank[ci], e.chi.off);
  }

  // ---------- the next child ----------

  /** Present in some walked scope. */
  ghost predicate Candidate(w: Weave, scs: seq<Scope>, e: Entry)
    requires Tiled(w.cmts, |w.body|) && ScopesIn(w, scs)
  {
    true in PresentMask(w, scs, e)
  }

  lemma {:induction false} CandidateIn(w: Weave, scs: seq<Scope>, e: Entry)
    requires Tiled(w.cmts, |w.body|) && ScopesIn(w, scs)
    ensures forall k | 0 <= k < |scs| :: PresentMask(w, scs, e)[k] == Present(w, scs[k], e)
    ensures Candidate(w, scs, e) ==> e.chi.off < |w.body|
  {
    if scs != [] {
      CandidateIn(w, scs[..|scs| - 1], e);
    }
  }

  /** A pending group: its range, and the child visited last. */
  datatype Frame = Frame(lo: nat, hi: nat, prev: nat, started: bool)

  ghost predicate FrameIn(w: Weave, scs: seq<Scope>, f: Frame)
    requires Tiled(w.cmts, |w.body|) && ScopesIn(w, scs)
  {
    f.lo <= f.hi <= |w.idx| && (f.started ==> f.lo <= f.prev < f.hi && Candidate(w, scs, w.idx[f.prev]))
  }

  /** Entry `i` of the frame's group is still to be visited. */
  ghost predicate Pending(w: Weave, scs: seq<Scope>, rank: seq<nat>, f: Frame, i: nat)
    requires Tiled(w.cmts, |w.body|) && ScopesIn(w, scs) && FrameIn(w, scs, f) && |rank| == |w.cmts|
  {
    && f.lo <= i < f.hi
    && Candidate(w, scs, w.idx[i])
    && w.idx[i].chi.off < |w.body|
    && (f.started ==> w.idx[f.prev].chi.off < |w.body|)
    && (f.started ==> KeyLt(KeyOf(w, rank, w.idx[f.prev]), KeyOf(w, rank, w.idx[i])))
  }

  /** `out` is the pending entry with the least key among the first `n` of the group. */
  ghost predicate Least(w: Weave, scs: seq<Scope>, rank: seq<nat>, f: Frame, n: nat, got: bool, out: nat)
    requires Tiled(w.cmts, |w.body|) && ScopesIn(w, scs) && FrameIn(w, scs, f) && |rank| == |w.cmts|
  {
    if got then
      && out < n && Pending(w, scs, rank, f, out)
      && forall i: nat | i < n && Pending(w, scs, rank, f, i) ::
           !KeyLt(KeyOf(w, rank, w.idx[i]), KeyOf(w, rank, w.idx[out]))
    else
      forall i: nat | i < n :: !Pending(w, scs, rank, f, i)
  }

  /** The next present child in order: no visited set, only the child visited last. */
  method Pick(w: Weave, scs: seq<Scope>, rank: seq<nat>, f: Frame) returns (st: Status, got: bool, out: nat)
    requires Tiled(w.cmts, |w.body|) && ScopesIn(w, scs) && FrameIn(w, scs, f) && |rank| == |w.cmts|
    ensures st == OK && Least(w, scs, rank, f, f.hi, got, out)
  {
    hide Tiled, ScopesIn, PresentMask, BlameOf;
    got, out := false, 0;
    var m: seq<bool>;
    if f.hi == f.lo + 1 {
      if f.started {
        return OK, false, 0;
      }
      st, m := Mask(w, scs, w.idx[f.lo]);
      CandidateIn(w, scs, w.idx[f.lo]);
      if true in m {
        return OK, true, f.lo;
      }
      return OK, false, 0;
    }
    var best, pk, pv := RgaKey(0, 0), RgaKey(0, 0), RgaKey(0, 0);
    if f.started {
      CandidateIn(w, scs, w.idx[f.prev]);
      st, pv := Key(w, rank, w.idx[f.prev]);
    }
    for i := f.lo to f.hi
      invariant Least(w, scs, rank, f, i, got, out)
      invariant got ==> best == KeyOf(w, rank, w.idx[out])
    {
      var e := w.idx[i];
      st, m := Mask(w, scs, e);
      if true !in m {
        continue;
      }
      CandidateIn(w, scs, e);
      st, pk := Key(w, rank, e);
      if f.started && !KeyLt(pv, pk) {
        continue;
      }
      if got && !KeyLt(pk, best) {
        continue;
      }
      best, out, got := pk, i, true;
    }
    st := OK;
  }

  // ---------- the next child is the latest pending one of the replay ----------

  ghost function IndexOf(n: seq<Tid>, t: Tid): (i: nat)
    requires t in n
    ensures i < |n| && n[i] == t
  {
    var i :| 0 <= i < |n| && n[i] == t;
    i
  }

  /** A candidate entry inserts one of the listed tokens. */
  lemma CandidateToken(v: View, w: Weave, scs: seq<Scope>, n: seq<Tid>, j: nat) returns (i: nat)
    requires Views(v, w, scs) && Lists(v, n) && j < |w.idx|
    requires Tiled(w.cmts, |w.body|) && ScopesIn(w, scs) && Candidate(w, scs, w.idx[j])
    ensures i < |n| && IsIns(v.s, v.ids, w.idx[j], n[i])
  {
    var e := w.idx[j];
    CandidateIn(w, scs, e);
    var k :| 0 <= k < |scs| && PresentMask(w, scs, e)[k];
    assert Sees(v.s, v.ids, scs[k], v.sets[k]);
    PresentEntry(w, v.s, v.ids, scs[k], v.sets[k], j);
    var t :| IsIns(v.s, v.ids, e, t) && t.cid in v.sets[k];
    UnionElements(v.sets);
    i := IndexOf(n, t);
  }

  lemma TokenCandidate(v: View, w: Weave, scs: seq<Scope>, n: seq<Tid>, i: nat)
    requires Views(v, w, scs) && Lists(v, n) && i < |n|
    ensures Tiled(w.cmts, |w.body|) && ScopesIn(w, scs) && Has(v.s, n[i]) && Anchored(v.s, v.ids, n[i])
    ensures Candidate(w, scs, InsEntry(v.s, v.ids, n[i]))
  {
    UnionClosed(v, w, scs);
    var t := n[i];
    assert t in n;
    UnionElements(v.sets);
    assert InSome(v.sets, t.cid);
    var k :| 0 <= k < |v.sets| && t.cid in v.sets[k];
    assert Sees(v.s, v.ids, scs[k], v.sets[k]);
    PresentIff(w, v.s, v.ids, scs[k], v.sets[k], t);
    CandidateIn(w, scs, InsEntry(v.s, v.ids, t));
    assert PresentMask(w, scs, InsEntry(v.s, v.ids, t))[k];
  }

  ghost function AnchorAt(n: seq<Tid>, at: int): Anchor
    requires -1 <= at < |n|
  {
    if at < 0 then Top else After(n[at])
  }

  /** The frame enumerates the children of token `at` (the top if -1); what is left of them is below `bound`. */
  ghost predicate FrameMeans(v: View, w: Weave, n: seq<Tid>, f: Frame, at: int, bound: nat)
    requires Lists(v, n)
  {
    && -1 <= at < bound <= |n|
    && (at >= 0 ==> Stored(v.s, v.ids, n[at]))
    && IsGroup(w.idx, ParOf(v.s, v.ids, AnchorAt(n, at)), f.lo, f.hi)
    && (if f.started then
          && f.lo <= f.prev < f.hi && bound < |n|
          && AnchorOf(v.s, n[bound]) == AnchorAt(n, at)
          && IsIns(v.s, v.ids, w.idx[f.prev], n[bound])
        else bound == |n|)
  }

  lemma FrameMeansIn(v: View, w: Weave, scs: seq<Scope>, n: seq<Tid>, f: Frame, at: int, bound: nat)
    requires Views(v, w, scs) && Lists(v, n) && FrameMeans(v, w, n, f, at, bound)
    ensures Tiled(w.cmts, |w.body|) && ScopesIn(w, scs) && FrameIn(w, scs, f)
  {
    UnionClosed(v, w, scs);
    if f.started {
      TokenCandidate(v, w, scs, n, bound);
    }
  }

  lemma KeyOfIns(v: View, w: Weave, rank: seq<nat>, t: Tid)
    requires Represents(w, v.s, v.ids) && Has(v.s, t) && |rank| == |w.cmts|
    ensures Tiled(w.cmts, |w.body|) && Anchored(v.s, v.ids, t) && InsEntry(v.s, v.ids, t).chi.off < |w.body|
    ensures KeyOf(w, rank, InsEntry(v.s, v.ids, t)) == RgaKey(rank[Pos(v.ids, t.cid)], Off(v.s, v.ids, t))
  {
    RepTiled(w, v.s, v.ids);
    InsFacts(w, v.s, v.ids, t);
    StoredToken(w, v.s, v.ids, t);
    RepBlame(w, v.s, v.ids, t);
  }

  /** Among siblings the key orders by replay, latest first. */
  lemma SiblingKeys(v: View, w: Weave, n: seq<Tid>, rank: seq<nat>, i: nat, j: nat)
    requires Represents(w, v.s, v.ids) && Lists(v, n)
    requires RankedBy(v, n, rank) && |rank| == |w.cmts|
    requires i < j < |n| && AnchorOf(v.s, n[i]) == AnchorOf(v.s, n[j])
    ensures Tiled(w.cmts, |w.body|) && Anchored(v.s, v.ids, n[i]) && Anchored(v.s, v.ids, n[j])
    ensures InsEntry(v.s, v.ids, n[i]).chi.off < |w.body| && InsEntry(v.s, v.ids, n[j]).chi.off < |w.body|
    ensures KeyLt(KeyOf(w, rank, InsEntry(v.s, v.ids, n[j])), KeyOf(w, rank, InsEntry(v.s, v.ids, n[i])))
    ensures !KeyLt(KeyOf(w, rank, InsEntry(v.s, v.ids, n[i])), KeyOf(w, rank, InsEntry(v.s, v.ids, n[j])))
  {
    assert n[i] in n && n[j] in n;
    KeyOfIns(v, w, rank, n[i]);
    KeyOfIns(v, w, rank, n[j]);
    SiblingsApart(v.s, n[i], n[j]);
    assert RankLt(v.ids, rank, n[i].cid, n[j].cid);
  }

  /** Two tokens with one anchor come from different commits. */
  lemma SiblingsApart(s: State, t: Tid, u: Tid)
    requires Sound(s) && Has(s, t) && Has(s, u) && t != u
    requires s[t.cid].nodes[t.ord].anchor == s[u.cid].nodes[u.ord].anchor
    ensures t.cid != u.cid
  {
    assert RecOk(s, t.cid);
  }

  lemma ChildInGroup(v: View, w: Weave, n: seq<Tid>, f: Frame, at: int, bound: nat, i: nat) returns (j: nat)
    requires Represents(w, v.s, v.ids) && Lists(v, n) && FrameMeans(v, w, n, f, at, bound)
    requires i < |n| && AnchorOf(v.s, n[i]) == AnchorAt(n, at)
    ensures f.lo <= j < f.hi && IsIns(v.s, v.ids, w.idx[j], n[i])
  {
    assert n[i] in n;
    StoredToken(w, v.s, v.ids, n[i]);
    var e := InsEntry(v.s, v.ids, n[i]);
    j :| 0 <= j < |w.idx| && w.idx[j] == e;
  }

  lemma GroupIsChild(v: View, w: Weave, n: seq<Tid>, f: Frame, at: int, bound: nat, i: nat, j: nat)
    requires Represents(w, v.s, v.ids) && Lists(v, n) && FrameMeans(v, w, n, f, at, bound)
    requires i < |n| && f.lo <= j < f.hi && IsIns(v.s, v.ids, w.idx[j], n[i])
    ensures AnchorOf(v.s, n[i]) == AnchorAt(n, at) && at < i
  {
    assert n[i] in n;
    if at >= 0 {
      assert n[at] in n;
    }
    assert TokenOk(v.s, n[i]);
    ParUnique(w, v.s, v.ids, NodeOf(v.s, n[i]).anchor, AnchorAt(n, at));
    if at >= 0 {
      assert EarlierAt(n, AnchorMap(v.s), i);
      assert n[at] in n[..i];
    }
  }

  /** A child below the bound is pending, wherever its entry is. */
  lemma ChildPending(v: View, w: Weave, scs: seq<Scope>, n: seq<Tid>, rank: seq<nat>, f: Frame, at: int, bound: nat,
          i: nat, j: nat)
    requires Views(v, w, scs) && Lists(v, n) && FrameMeans(v, w, n, f, at, bound)
    requires RankedBy(v, n, rank) && |rank| == |w.cmts|
    requires i < bound && AnchorOf(v.s, n[i]) == AnchorAt(n, at)
    requires f.lo <= j < f.hi && IsIns(v.s, v.ids, w.idx[j], n[i])
    ensures Tiled(w.cmts, |w.body|) && ScopesIn(w, scs) && FrameIn(w, scs, f)
    ensures Pending(w, scs, rank, f, j)
  {
    FrameMeansIn(v, w, scs, n, f, at, bound);
    UnionClosed(v, w, scs);
    TokenCandidate(v, w, scs, n, i);
    CandidateIn(w, scs, w.idx[j]);
    if f.started {
      SiblingKeys(v, w, n, rank, i, bound);
    }
  }

  /** A pending entry is a child below the bound. */
  lemma PendingChild(v: View, w: Weave, scs: seq<Scope>, n: seq<Tid>, rank: seq<nat>, f: Frame, at: int, bound: nat,
          j: nat) returns (i: nat)
    requires Views(v, w, scs) && Lists(v, n) && FrameMeans(v, w, n, f, at, bound)
    requires RankedBy(v, n, rank) && |rank| == |w.cmts|
    requires Tiled(w.cmts, |w.body|) && ScopesIn(w, scs) && FrameIn(w, scs, f)
    requires Pending(w, scs, rank, f, j)
    ensures at < i < bound && AnchorOf(v.s, n[i]) == AnchorAt(n, at) && IsIns(v.s, v.ids, w.idx[j], n[i])
  {
    i := CandidateToken(v, w, scs, n, j);
    GroupIsChild(v, w, n, f, at, bound, i, j);
    UnionClosed(v, w, scs);
    if f.started {
      if i > bound {
        SiblingKeys(v, w, n, rank, bound, i);
      }
    }
  }

  /** A child of the frame below the bound has a pending entry. */
  lemma ChildWaits(v: View, w: Weave, scs: seq<Scope>, n: seq<Tid>, rank: seq<nat>, f: Frame, at: int, bound: nat,
          k: nat) returns (j: nat)
    requires Views(v, w, scs) && Lists(v, n) && FrameMeans(v, w, n, f, at, bound)
    requires RankedBy(v, n, rank) && |rank| == |w.cmts|
    requires k < bound && AnchorOf(v.s, n[k]) == AnchorAt(n, at)
    ensures Tiled(w.cmts, |w.body|) && ScopesIn(w, scs) && FrameIn(w, scs, f)
    ensures j < f.hi && Pending(w, scs, rank, f, j) && IsIns(v.s, v.ids, w.idx[j], n[k])
  {
    j := ChildInGroup(v, w, n, f, at, bound, k);
    ChildPending(v, w, scs, n, rank, f, at, bound, k, j);
  }

  lemma LatestFound(s: State, n: seq<Tid>, q: Anchor, lo: nat, hi: nat) returns (l: int)
    requires lo <= hi <= |n|
    ensures l == Latest(n, AnchorMap(s), q, lo, hi)
    ensures l >= 0 ==> AnchorOf(s, n[l]) == q
  {
    l := Latest(n, AnchorMap(s), q, lo, hi);
    LatestHolds(n, AnchorMap(s), q, lo, hi);
  }

  lemma LatestChild(s: State, n: seq<Tid>, q: Anchor, lo: nat, hi: nat, i: nat) returns (l: nat)
    requires lo <= i < hi <= |n| && AnchorOf(s, n[i]) == q
    ensures l == Latest(n, AnchorMap(s), q, lo, hi)
    ensures i <= l < hi && AnchorOf(s, n[l]) == q
  {
    LatestIsLargest(n, AnchorMap(s), q, lo, hi, i);
    l := LatestFound(s, n, q, lo, hi);
  }

  /** A later child's pending entry has the smaller key. */
  lemma LaterBeats(v: View, w: Weave, scs: seq<Scope>, n: seq<Tid>, rank: seq<nat>, f: Frame, at: int, bound: nat,
          i: nat, l: nat, out: nat)
      returns (j: nat)
    requires Views(v, w, scs) && Lists(v, n) && FrameMeans(v, w, n, f, at, bound)
    requires RankedBy(v, n, rank) && |rank| == |w.cmts|
    requires Tiled(w.cmts, |w.body|) && ScopesIn(w, scs) && FrameIn(w, scs, f)
    requires i < l < bound && AnchorOf(v.s, n[i]) == AnchorAt(n, at) == AnchorOf(v.s, n[l])
    requires out < |w.idx| && IsIns(v.s, v.ids, w.idx[out], n[i]) && w.idx[out].chi.off < |w.body|
    ensures j < f.hi && Pending(w, scs, rank, f, j)
    ensures KeyLt(KeyOf(w, rank, w.idx[j]), KeyOf(w, rank, w.idx[out]))
  {
    j := ChildWaits(v, w, scs, n, rank, f, at, bound, l);
    UnionClosed(v, w, scs);
    SiblingKeys(v, w, n, rank, i, l);
  }

  /** The picked entry is the latest child below the bound. */
  lemma PickMeans(v: View, w: Weave, scs: seq<Scope>, n: seq<Tid>, rank: seq<nat>, f: Frame, at: int, bound: nat,
          out: nat, i: nat)
    requires Views(v, w, scs) && Lists(v, n) && FrameMeans(v, w, n, f, at, bound)
    requires RankedBy(v, n, rank) && |rank| == |w.cmts|
    requires Tiled(w.cmts, |w.body|) && ScopesIn(w, scs) && FrameIn(w, scs, f)
    requires Least(w, scs, rank, f, f.hi, true, out)
    requires at < i < bound && AnchorOf(v.s, n[i]) == AnchorAt(n, at) && IsIns(v.s, v.ids, w.idx[out], n[i])
    ensures i == Latest(n, AnchorMap(v.s), AnchorAt(n, at), at + 1, bound)
  {
    hide Views, Lists, RankedBy, Tiled, ScopesIn;
    var l := LatestChild(v.s, n, AnchorAt(n, at), at + 1, bound, i);
    if l > i {
      var j := LaterBeats(v, w, scs, n, rank, f, at, bound, i, l, out);
    }
  }

  /** Nothing picked: no child is left below the bound. */
  lemma PickEnds(v: View, w: Weave, scs: seq<Scope>, n: seq<Tid>, rank: seq<nat>, f: Frame, at: int, bound: nat)
    requires Views(v, w, scs) && Lists(v, n) && FrameMeans(v, w, n, f, at, bound)
    requires RankedBy(v, n, rank) && |rank| == |w.cmts|
    requires Tiled(w.cmts, |w.body|) && ScopesIn(w, scs) && FrameIn(w, scs, f)
    requires forall j: nat | j < f.hi :: !Pending(w, scs, rank, f, j)
    ensures Latest(n, AnchorMap(v.s), AnchorAt(n, at), at + 1, bound) == -1
  {
    hide Views, Lists, RankedBy, Tiled, ScopesIn, FrameIn, Pending;
    var l := LatestFound(v.s, n, AnchorAt(n, at), at + 1, bound);
    if l >= 0 {
      var j := ChildWaits(v, w, scs, n, rank, f, at, bound, l);
      assert false;
    }
  }
}
