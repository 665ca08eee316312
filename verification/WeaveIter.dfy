/** The iterator every reader loops over: a preorder walk one token per call, in bounded memory. */
module WeaveIter {
  import opened Common
  import opened TopoOrder
  import opened Rga
  import opened CfoldModel
  import opened Weave
  import opened WeaveRep
  import opened WeaveFacts
  import opened Ranks
  import opened WalkOrder
  import opened Siblings
  import opened TokenEnds

  /** A walked token: body range, tag, and one present and one alive bit per scope. */
  datatype WalkTok = WalkTok(off: nat, end: nat, tag: nat, present: seq<bool>, alive: seq<bool>)

  ghost predicate Describes(v: View, t: Tid, out: WalkTok) {
    && Stored(v.s, v.ids, t)
    && out.off == Off(v.s, v.ids, t) && out.end == End(v.s, v.ids, t)
    && out.tag == NodeOf(v.s, t).tok.tag
    && |out.present| == |out.alive| == |v.sets|
    && (forall k | 0 <= k < |v.sets| :: out.present[k] == (t.cid in v.sets[k]))
    && (forall k | 0 <= k < |v.sets| :: out.alive[k] == (t in Alive(v.s, v.sets[k])))
  }

  const FRESH := 0
  const LIVE := 1
  const DONE := 2

  /** Words the caller provides: phase, depth, one rank per commit, and frames of four words. */
  function IterMem(w: Weave): nat {
    2 + |w.cmts| + 4 * (|w.idx| + 1)
  }

  // ---------- the stack, and what is left to walk ----------

  /** Frames nest along a path of tokens; frame `d` still owes the children below `bound[d]`. */
  ghost predicate StackOk(v: View, w: Weave, n: seq<Tid>, stk: seq<Frame>, path: seq<int>, bound: seq<nat>)
    requires Lists(v, n)
  {
    && |stk| == |path| == |bound|
    && forall d {:trigger LevelOk(v, w, n, stk, path, bound, d)} | 0 <= d < |stk| ::
         LevelOk(v, w, n, stk, path, bound, d)
  }

  ghost predicate LevelOk(v: View, w: Weave, n: seq<Tid>, stk: seq<Frame>, path: seq<int>, bound: seq<nat>, d: nat)
    requires Lists(v, n) && |stk| == |path| == |bound| && d < |stk|
  {
    && FrameMeans(v, w, n, stk[d], path[d], bound[d])
    && (if d == 0 then path[d] == -1 else stk[d - 1].started && path[d] == bound[d - 1])
  }

  /** Last part first. */
  ghost function Join(parts: seq<seq<Tid>>): seq<Tid> {
    if parts == [] then [] else parts[|parts| - 1] + Join(parts[..|parts| - 1])
  }

  ghost function Parts(n: seq<Tid>, am: Anchors, path: seq<int>, bound: seq<nat>): (parts: seq<seq<Tid>>)
    requires |path| == |bound|
  {
    if path == [] then []
    else
      var d := |path| - 1;
      Parts(n, am, path[..d], bound[..d]) + [Owed(n, am, path[d], bound[d])]
  }

  /** The tokens still to be walked: the children each frame owes, deepest frame first. */
  ghost function Rest(n: seq<Tid>, am: Anchors, path: seq<int>, bound: seq<nat>): seq<Tid>
    requires |path| == |bound|
  {
    Join(Parts(n, am, path, bound))
  }

  /** The children of token `at` that are below `bound`, with all below them. */
  ghost function Owed(n: seq<Tid>, am: Anchors, at: int, bound: nat): seq<Tid> {
    if -1 <= at < bound <= |n| then Walk(n, am, AnchorAt(n, at), at + 1, bound) else []
  }

  lemma OwedNone(n: seq<Tid>, am: Anchors, at: int, bound: nat)
    requires -1 <= at < bound <= |n| && Latest(n, am, AnchorAt(n, at), at + 1, bound) == -1
    ensures Owed(n, am, at, bound) == []
  {
  }

  lemma OwedFirst(n: seq<Tid>, am: Anchors, at: int, bound: nat, i: nat)
    requires -1 <= at < bound <= |n| && i == Latest(n, am, AnchorAt(n, at), at + 1, bound)
    ensures at < i < |n| && Owed(n, am, at, bound) == [n[i]] + Owed(n, am, i, |n|) + Owed(n, am, at, i)
  {
    WalkStep(n, am, AnchorAt(n, at), at + 1, bound, i);
  }

  /** The path climbs, so the stack is no deeper than the tokens allow. */
  lemma {:induction false} PathClimbs(v: View, w: Weave, n: seq<Tid>, stk: seq<Frame>, path: seq<int>, bound: seq<nat>,
          d: nat)
    requires Lists(v, n) && StackOk(v, w, n, stk, path, bound) && d < |path|
    ensures d - 1 <= path[d] < |n|
    decreases d
  {
    assert LevelOk(v, w, n, stk, path, bound, d);
    if d > 0 {
      PathClimbs(v, w, n, stk, path, bound, d - 1);
      assert LevelOk(v, w, n, stk, path, bound, d - 1);
    }
  }

  lemma {:induction false} SeqSetSize<T>(a: seq<T>)
    ensures |set x | x in a| <= |a|
    ensures NoDup(a) ==> |set x | x in a| == |a|
  {
    if a != [] {
      var m, y := a[..|a| - 1], a[|a| - 1];
      SeqSetSize(m);
      assert (set x | x in a) == (set x | x in m) + {y};
      if NoDup(a) {
        assert y !in m;
      }
    }
  }

  lemma SmallerSeq<T>(a: seq<T>, b: seq<T>)
    requires NoDup(a) && forall x | x in a :: x in b
    ensures |a| <= |b|
  {
    SeqSetSize(a);
    SeqSetSize(b);
    var sa, sb := set x | x in a, set x | x in b;
    assert sa <= sb;
    SubsetSize(sa, sb);
  }

  lemma SubsetSize<T>(a: set<T>, b: set<T>)
    requires a <= b
    ensures |a| <= |b|
  {
    assert b == a + (b - a);
  }

  ghost function Entries(v: View, n: seq<Tid>): seq<Entry>
    requires forall i | 0 <= i < |n| :: Anchored(v.s, v.ids, n[i])
  {
    if n == [] then [] else Entries(v, n[..|n| - 1]) + [InsEntry(v.s, v.ids, n[|n| - 1])]
  }

  lemma {:induction false} EntriesAre(v: View, n: seq<Tid>)
    requires forall i | 0 <= i < |n| :: Anchored(v.s, v.ids, n[i])
    ensures |Entries(v, n)| == |n| && forall i | 0 <= i < |n| :: Entries(v, n)[i] == InsEntry(v.s, v.ids, n[i])
  {
    if n != [] {
      EntriesAre(v, n[..|n| - 1]);
    }
  }

  /** Every listed token has an index entry of its own. */
  lemma NodesFit(v: View, w: Weave, n: seq<Tid>)
    requires Represents(w, v.s, v.ids) && Lists(v, n)
    ensures |n| <= |w.idx|
  {
    forall i | 0 <= i < |n|
      ensures Has(v.s, n[i]) && Anchored(v.s, v.ids, n[i])
    {
      assert n[i] in n;
      StoredToken(w, v.s, v.ids, n[i]);
    }
    EntriesAre(v, n);
    var es := Entries(v, n);
    forall i, j | 0 <= i < j < |es|
      ensures es[i] != es[j]
    {
      EntryUnique(w, v, n[i], n[j]);
    }
    forall e | e in es
      ensures e in w.idx
    {
      var i :| 0 <= i < |es| && es[i] == e;
      StoredToken(w, v.s, v.ids, n[i]);
    }
    SmallerSeq(es, w.idx);
  }

  lemma EntryUnique(w: Weave, v: View, t: Tid, u: Tid)
    requires Represents(w, v.s, v.ids) && Has(v.s, t) && Has(v.s, u) && t != u
    ensures Anchored(v.s, v.ids, t) && Anchored(v.s, v.ids, u)
    ensures InsEntry(v.s, v.ids, t) != InsEntry(v.s, v.ids, u)
  {
    InsFacts(w, v.s, v.ids, t);
    InsFacts(w, v.s, v.ids, u);
    assert TokenOk(v.s, t) && TokenOk(v.s, u);
    if Off(v.s, v.ids, t) == Off(v.s, v.ids, u) {
      OffUnique(v.s, v.ids, t, u);
    }
  }

  // ---------- one step of the stack ----------

  lemma PopOk(v: View, w: Weave, n: seq<Tid>, stk: seq<Frame>, path: seq<int>, bound: seq<nat>)
    requires Lists(v, n) && StackOk(v, w, n, stk, path, bound) && stk != []
    ensures var d := |stk| - 1; StackOk(v, w, n, stk[..d], path[..d], bound[..d])
  {
    var d := |stk| - 1;
    forall e | 0 <= e < d
      ensures LevelOk(v, w, n, stk[..d], path[..d], bound[..d], e)
    {
      assert LevelOk(v, w, n, stk, path, bound, e);
    }
  }

  /** Visiting child `i` of the top frame: the frame now owes what is below `i`, and the child's own
    * children come first. */
  lemma DescendOk(v: View, w: Weave, n: seq<Tid>, stk: seq<Frame>, path: seq<int>, bound: seq<nat>, f: Frame, i: nat,
          g: Frame)
    requires Lists(v, n) && StackOk(v, w, n, stk, path, bound) && stk != []
    requires f.started && FrameMeans(v, w, n, f, path[|stk| - 1], i)
    requires FrameMeans(v, w, n, g, i, |n|)
    ensures var d := |stk| - 1; StackOk(v, w, n, stk[d := f] + [g], path + [i], bound[d := i] + [|n|])
  {
    var d := |stk| - 1;
    var stk', path', bound' := stk[d := f] + [g], path + [i], bound[d := i] + [|n|];
    forall e | 0 <= e < |stk'|
      ensures LevelOk(v, w, n, stk', path', bound', e)
    {
      if e <= d {
        assert LevelOk(v, w, n, stk, path, bound, e);
      }
    }
  }

  lemma JoinSnoc(parts: seq<seq<Tid>>, p: seq<Tid>)
    ensures Join(parts + [p]) == p + Join(parts)
  {
    assert (parts + [p])[..|parts|] == parts;
  }

  lemma Regroup(x: Tid, kids: seq<Tid>, others: seq<Tid>, rest: seq<Tid>)
    ensures [x] + kids + others + rest == [x] + (kids + (others + rest))
  {
  }

  lemma JoinDescend(pre: seq<seq<Tid>>, x: Tid, kids: seq<Tid>, others: seq<Tid>)
    ensures Join(pre + [[x] + kids + others]) == [x] + Join(pre + [others] + [kids])
  {
    JoinSnoc(pre, [x] + kids + others);
    JoinSnoc(pre, others);
    JoinSnoc(pre + [others], kids);
    Regroup(x, kids, others, Join(pre));
  }

  lemma PartsSnoc(n: seq<Tid>, am: Anchors, path: seq<int>, bound: seq<nat>, p: int, b: nat)
    requires |path| == |bound|
    ensures Parts(n, am, path + [p], bound + [b]) == Parts(n, am, path, bound) + [Owed(n, am, p, b)]
  {
    assert (path + [p])[..|path|] == path && (bound + [b])[..|bound|] == bound;
  }

  lemma RestDescendFrom(n: seq<Tid>, am: Anchors, pre: seq<int>, bpre: seq<nat>, p: int, b: nat, i: nat)
    requires |pre| == |bpre| && i < |n|
    requires Owed(n, am, p, b) == [n[i]] + Owed(n, am, i, |n|) + Owed(n, am, p, i)
    ensures Rest(n, am, pre + [p], bpre + [b]) == [n[i]] + Rest(n, am, pre + [p] + [i], bpre + [i] + [|n|])
  {
    PartsSnoc(n, am, pre, bpre, p, b);
    PartsSnoc(n, am, pre, bpre, p, i);
    PartsSnoc(n, am, pre + [p], bpre + [i], i, |n|);
    JoinDescend(Parts(n, am, pre, bpre), n[i], Owed(n, am, i, |n|), Owed(n, am, p, i));
  }

  lemma SplitLast(s: seq<nat>, x: nat)
    requires s != []
    ensures s == s[..|s| - 1] + [s[|s| - 1]] && s[|s| - 1 := x] == s[..|s| - 1] + [x]
  {
  }

  lemma RestDescend(n: seq<Tid>, am: Anchors, path: seq<int>, bound: seq<nat>, i: nat)
    requires |path| == |bound| && path != [] && i < |n|
    requires var d := |path| - 1;
      Owed(n, am, path[d], bound[d]) == [n[i]] + Owed(n, am, i, |n|) + Owed(n, am, path[d], i)
    ensures Rest(n, am, path, bound) == [n[i]] + Rest(n, am, path + [i], bound[|path| - 1 := i] + [|n|])
  {
    var d := |path| - 1;
    SplitLast(bound, i);
    assert path == path[..d] + [path[d]];
    RestDescendFrom(n, am, path[..d], bound[..d], path[d], bound[d], i);
  }

  lemma RestSingle(n: seq<Tid>, am: Anchors, p: int, b: nat)
    ensures Rest(n, am, [p], [b]) == Owed(n, am, p, b)
  {
    PartsSnoc(n, am, [], [], p, b);
    assert [] + [p] == [p] && [] + [b] == [b];
    JoinSnoc([], Owed(n, am, p, b));
    assert [] + [Owed(n, am, p, b)] == [Owed(n, am, p, b)];
  }

  lemma RestPop(n: seq<Tid>, am: Anchors, path: seq<int>, bound: seq<nat>)
    requires |path| == |bound| && path != []
    requires var d := |path| - 1; Owed(n, am, path[d], bound[d]) == []
    ensures var d := |path| - 1; Rest(n, am, path, bound) == Rest(n, am, path[..d], bound[..d])
  {
    var d := |path| - 1;
    var parts := Parts(n, am, path, bound);
    assert parts[..|parts| - 1] == Parts(n, am, path[..d], bound[..d]);
  }

  // ---------- one visited token ----------

  /** The bits and bounds read off the index describe the token. */
  lemma VisitDescribes(v: View, w: Weave, scs: seq<Scope>, t: Tid, e: Entry, lo: nat, hi: nat, end: nat, pm: seq<bool>,
          am: seq<bool>)
    requires Views(v, w, scs) && Has(v.s, t) && IsIns(v.s, v.ids, e, t)
    requires Tiled(w.cmts, |w.body|) && ScopesIn(w, scs)
    requires ChildRange(w, v.s, v.ids, t, lo, hi) && Settled(w.idx, lo, hi, end)
    requires pm == PresentMask(w, scs, e) && Lives(w.idx, scs, lo, hi, pm, am)
    ensures Describes(v, t, WalkTok(e.chi.off, end, e.chi.tag, pm, am))
    ensures e.chi.off < end <= |w.body|
  {
    InsFacts(w, v.s, v.ids, t);
    StoredToken(w, v.s, v.ids, t);
    EndIsEnd(w, v.s, v.ids, t, lo, hi, end);
    CandidateIn(w, scs, e);
    forall k | 0 <= k < |v.sets|
      ensures pm[k] == (t.cid in v.sets[k]) && am[k] == (t in Alive(v.s, v.sets[k]))
    {
      assert Sees(v.s, v.ids, scs[k], v.sets[k]);
      PresentIff(w, v.s, v.ids, scs[k], v.sets[k], t);
      assert LivesIn(w.idx, scs[k], lo, hi, pm[k], am[k]);
      LivesMeans(w, v.s, v.ids, t, lo, hi, scs[k], v.sets[k], am[k]);
    }
  }

  /** The frames after visiting child `i` of the top frame. */
  lemma VisitFrames(v: View, w: Weave, scs: seq<Scope>, n: seq<Tid>, f: Frame, at: int, bound: nat, pk: nat, i: nat,
          lo: nat, hi: nat)
    requires Views(v, w, scs) && Lists(v, n) && FrameMeans(v, w, n, f, at, bound)
    requires at < i < bound && AnchorOf(v.s, n[i]) == AnchorAt(n, at)
    requires f.lo <= pk < f.hi && IsIns(v.s, v.ids, w.idx[pk], n[i])
    requires ChildRange(w, v.s, v.ids, n[i], lo, hi)
    ensures FrameMeans(v, w, n, Frame(f.lo, f.hi, pk, true), at, i)
    ensures FrameMeans(v, w, n, Frame(lo, hi, 0, false), i, |n|)
  {
  }

  /** Reads a token off the index: its children's range, its end, and its bits. */
  method Measure(w: Weave, scs: seq<Scope>, pk: nat, ghost v: View, ghost t: Tid)
      returns (st: Status, out: WalkTok, lo: nat, hi: nat)
    requires Views(v, w, scs) && Has(v.s, t) && pk < |w.idx| && IsIns(v.s, v.ids, w.idx[pk], t)
    ensures st == OK && Describes(v, t, out) && ChildRange(w, v.s, v.ids, t, lo, hi)
  {
    var e := w.idx[pk];
    var off, par := e.chi.off, Par(e.chi.off);
    InsFacts(w, v.s, v.ids, t);
    ParBelow(w, v.s, v.ids, t);
    UnionClosed(v, w, scs);
    lo := Group(w, par, pk + 1);
    hi := GroupEnd(w, par, lo);
    var pm, am: seq<bool>;
    st, pm := Mask(w, scs, e);
    var end: nat;
    st, end, am := Settle(w, scs, lo, hi, pm);
    out := WalkTok(off, end, e.chi.tag, pm, am);
    NeverTorn(w, v.s, v.ids, t, lo, hi);
    if st != OK {
      return;
    }
    VisitDescribes(v, w, scs, t, e, lo, hi, end, pm, am);
    if end < off || end > |w.body| {
      st := TORN;
      return;
    }
  }

  /** The stack after a visit: well formed, and owing exactly what it owed less the visited token. */
  lemma VisitStack(v: View, w: Weave, scs: seq<Scope>, n: seq<Tid>, stk: seq<Frame>, path: seq<int>, bound: seq<nat>,
          pk: nat, i: nat, lo: nat, hi: nat)
    requires Views(v, w, scs) && Lists(v, n) && StackOk(v, w, n, stk, path, bound) && stk != []
    requires var d := |stk| - 1;
      && -1 <= path[d] < i < bound[d] <= |n| && AnchorOf(v.s, n[i]) == AnchorAt(n, path[d])
      && stk[d].lo <= pk < stk[d].hi <= |w.idx| && IsIns(v.s, v.ids, w.idx[pk], n[i])
      && i == Latest(n, AnchorMap(v.s), AnchorAt(n, path[d]), path[d] + 1, bound[d])
    requires ChildRange(w, v.s, v.ids, n[i], lo, hi)
    ensures var d := |stk| - 1;
      var stk' := stk[d := Frame(stk[d].lo, stk[d].hi, pk, true)] + [Frame(lo, hi, 0, false)];
      var path', bound' := path + [i], bound[d := i] + [|n|];
      && StackOk(v, w, n, stk', path', bound')
      && Rest(n, AnchorMap(v.s), path, bound) == [n[i]] + Rest(n, AnchorMap(v.s), path', bound')
  {
    hide Views, Lists, Owed, Rest, IsIns, ChildRange;
    var d := |stk| - 1;
    var f := stk[d];
    assert LevelOk(v, w, n, stk, path, bound, d);
    VisitFrames(v, w, scs, n, f, path[d], bound[d], pk, i, lo, hi);
    DescendOk(v, w, n, stk, path, bound, Frame(f.lo, f.hi, pk, true), i, Frame(lo, hi, 0, false));
    OwedFirst(n, AnchorMap(v.s), path[d], bound[d], i);
    RestDescend(n, AnchorMap(v.s), path, bound, i);
  }

  lemma ListsAt(v: View, w: Weave, scs: seq<Scope>, n: seq<Tid>, i: nat)
    requires Views(v, w, scs) && Lists(v, n) && i < |n|
    ensures Represents(w, v.s, v.ids) && Has(v.s, n[i]) && n[i] in n
  {
  }

  /** There is room for one more frame. */
  lemma StackFits(v: View, w: Weave, n: seq<Tid>, stk: seq<Frame>, path: seq<int>, bound: seq<nat>)
    requires Represents(w, v.s, v.ids) && Lists(v, n) && StackOk(v, w, n, stk, path, bound) && stk != []
    requires path[|stk| - 1] + 1 < |n|
    ensures |stk| <= |w.idx|
  {
    PathClimbs(v, w, n, stk, path, bound, |stk| - 1);
    NodesFit(v, w, n);
  }

  /** The top frame is a frame of the index. */
  lemma TopFrame(v: View, w: Weave, scs: seq<Scope>, n: seq<Tid>, stk: seq<Frame>, path: seq<int>, bound: seq<nat>)
    requires Views(v, w, scs) && Lists(v, n) && StackOk(v, w, n, stk, path, bound) && stk != []
    ensures Tiled(w.cmts, |w.body|) && ScopesIn(w, scs) && FrameIn(w, scs, stk[|stk| - 1])
    ensures var d := |stk| - 1;
      |path| == |bound| == |stk| && -1 <= path[d] < bound[d] <= |n| && FrameMeans(v, w, n, stk[d], path[d], bound[d])
  {
    var d := |stk| - 1;
    assert LevelOk(v, w, n, stk, path, bound, d);
    FrameMeansIn(v, w, scs, n, stk[d], path[d], bound[d]);
  }

  /** An exhausted frame owes nothing. */
  lemma PopStack(v: View, w: Weave, scs: seq<Scope>, n: seq<Tid>, rank: seq<nat>, stk: seq<Frame>, path: seq<int>,
          bound: seq<nat>, pk: nat)
    requires Views(v, w, scs) && Lists(v, n) && StackOk(v, w, n, stk, path, bound) && stk != []
    requires RankedBy(v, n, rank) && |rank| == |w.cmts|
    requires Tiled(w.cmts, |w.body|) && ScopesIn(w, scs) && FrameIn(w, scs, stk[|stk| - 1])
    requires Least(w, scs, rank, stk[|stk| - 1], stk[|stk| - 1].hi, false, pk)
    ensures |path| == |bound| == |stk|
    ensures var d := |stk| - 1;
      && StackOk(v, w, n, stk[..d], path[..d], bound[..d])
      && Rest(n, AnchorMap(v.s), path, bound) == Rest(n, AnchorMap(v.s), path[..d], bound[..d])
  {
    hide Views, Lists, RankedBy, Tiled, ScopesIn, FrameIn, Pending, Rest, FrameMeans;
    var d := |stk| - 1;
    TopFrame(v, w, scs, n, stk, path, bound);
    PickEnds(v, w, scs, n, rank, stk[d], path[d], bound[d]);
    OwedNone(n, AnchorMap(v.s), path[d], bound[d]);
    RestPop(n, AnchorMap(v.s), path, bound);
    PopOk(v, w, n, stk, path, bound);
  }

  /** The picked entry inserts the next token of the walk. */
  lemma PickedNext(v: View, w: Weave, scs: seq<Scope>, n: seq<Tid>, rank: seq<nat>, stk: seq<Frame>, path: seq<int>,
          bound: seq<nat>, pk: nat)
      returns (i: nat)
    requires Views(v, w, scs) && Lists(v, n) && StackOk(v, w, n, stk, path, bound) && stk != []
    requires RankedBy(v, n, rank) && |rank| == |w.cmts|
    requires Tiled(w.cmts, |w.body|) && ScopesIn(w, scs) && FrameIn(w, scs, stk[|stk| - 1])
    requires Least(w, scs, rank, stk[|stk| - 1], stk[|stk| - 1].hi, true, pk)
    ensures |path| == |bound| == |stk|
    ensures var d := |stk| - 1;
      && -1 <= path[d] < i < bound[d] <= |n| && AnchorOf(v.s, n[i]) == AnchorAt(n, path[d])
      && stk[d].lo <= pk < stk[d].hi <= |w.idx| && IsIns(v.s, v.ids, w.idx[pk], n[i])
      && i == Latest(n, AnchorMap(v.s), AnchorAt(n, path[d]), path[d] + 1, bound[d])
  {
    hide Views, Lists, RankedBy, Tiled, ScopesIn, FrameMeans, Candidate, Latest;
    var d := |stk| - 1;
    TopFrame(v, w, scs, n, stk, path, bound);
    i := PendingChild(v, w, scs, n, rank, stk[d], path[d], bound[d], pk);
    PickMeans(v, w, scs, n, rank, stk[d], path[d], bound[d], pk, i);
  }

  lemma NothingOwed(v: View, w: Weave, scs: seq<Scope>)
    requires Views(v, w, scs) && w.idx == []
    ensures Owed(Nodes(v, w, scs), AnchorMap(v.s), -1, |Nodes(v, w, scs)|) == []
  {
    NodesList(v, w, scs);
    NodesFit(v, w, Nodes(v, w, scs));
  }

  // ---------- the iterator ----------

  class Iter {
    var phase: nat
    var depth: nat
    var rank: array<nat>
    var stk: array<Frame>
    ghost var path: seq<int>
    ghost var bound: seq<nat>

    /** A zeroed area of `IterMem(w)` words. */
    constructor (w: Weave)
      ensures phase == FRESH && depth == 0 && path == [] && bound == []
      ensures rank.Length == |w.cmts| && stk.Length == |w.idx| + 1
      ensures 2 + rank.Length + 4 * stk.Length == IterMem(w)
      ensures fresh(rank) && fresh(stk)
    {
      phase, depth, path, bound := FRESH, 0, [], [];
      rank := new nat[|w.cmts|];
      stk := new Frame[|w.idx| + 1](_ => Frame(0, 0, 0, false));
    }

    ghost predicate Valid(v: View, w: Weave, scs: seq<Scope>)
      reads this, rank, stk
    {
      && Views(v, w, scs) && Lists(v, Nodes(v, w, scs))
      && rank.Length == |w.cmts| && stk.Length == |w.idx| + 1
      && phase <= DONE && depth <= stk.Length
      && (phase == LIVE ==>
            && RankedBy(v, Nodes(v, w, scs), rank[..])
            && StackOk(v, w, Nodes(v, w, scs), stk[..depth], path, bound))
    }

    /** The tokens the remaining calls will return. */
    ghost function Remaining(v: View, w: Weave, scs: seq<Scope>): seq<Tid>
      requires Valid(v, w, scs)
      reads this, rank, stk
    {
      var n, am := Nodes(v, w, scs), AnchorMap(v.s);
      if phase == FRESH then Owed(n, am, -1, |n|)
      else if phase == LIVE then Rest(n, am, path, bound)
      else []
    }

    /** Ranks the commits and pushes the top group. */
    method Begin(w: Weave, scs: seq<Scope>, ghost v: View) returns (st: Status)
      requires Valid(v, w, scs) && phase == FRESH && w.idx != []
      modifies this, rank, stk
      ensures st == OK && Valid(v, w, scs) && phase == LIVE
      ensures rank == old(rank) && stk == old(stk)
      ensures Remaining(v, w, scs) == old(Remaining(v, w, scs))
    {
      RepEncodes(w, v.s, v.ids);
      st := RankCommits(w, rank, Graph(v.s), v.ids);
      if st != OK {
        return;
      }
      NodesRanked(v, w, scs, rank[..]);
      var lo := Group(w, ROOT_PAR, 0);
      var hi := GroupEnd(w, ROOT_PAR, lo);
      stk[0] := Frame(lo, hi, 0, false);
      depth, phase := 1, LIVE;
      path, bound := [-1], [|Nodes(v, w, scs)|];
      assert stk[..depth] == [Frame(lo, hi, 0, false)];
      assert LevelOk(v, w, Nodes(v, w, scs), stk[..depth], path, bound, 0);
      RestSingle(Nodes(v, w, scs), AnchorMap(v.s), -1, |Nodes(v, w, scs)|);
    }

    /** Visits the picked child: settles its end and its bits, and pushes its own children. */
    method Visit(w: Weave, scs: seq<Scope>, pk: nat, ghost v: View, ghost i: nat) returns (st: Status, out: WalkTok)
      requires Valid(v, w, scs) && phase == LIVE && 0 < depth
      requires var n, d := Nodes(v, w, scs), depth - 1;
        && |path| == |bound| == depth
        && -1 <= path[d] < i < bound[d] <= |n| && AnchorOf(v.s, n[i]) == AnchorAt(n, path[d])
        && stk[d].lo <= pk < stk[d].hi <= |w.idx| && IsIns(v.s, v.ids, w.idx[pk], n[i])
        && i == Latest(n, AnchorMap(v.s), AnchorAt(n, path[d]), path[d] + 1, bound[d])
      modifies this, stk
      ensures st == OK && Valid(v, w, scs) && phase == LIVE
      ensures rank == old(rank) && stk == old(stk)
      ensures i < |Nodes(v, w, scs)| && Describes(v, Nodes(v, w, scs)[i], out)
      ensures old(Remaining(v, w, scs)) == [Nodes(v, w, scs)[i]] + Remaining(v, w, scs)
    {
      hide Views, Lists, Owed, Rest, IsIns, ChildRange, Nodes, Describes, RankedBy, LevelOk, FrameMeans, StackOk,
        Latest, AnchorAt, Stored;
      ghost var n, d := Nodes(v, w, scs), depth - 1;
      ghost var frames := stk[..depth];
      var f := stk[depth - 1];
      ListsAt(v, w, scs, n, i);
      var lo, hi: nat;
      st, out, lo, hi := Measure(w, scs, pk, v, n[i]);
      StackFits(v, w, n, frames, path, bound);
      if depth > |w.idx| {
        st := TORN;
        return;
      }
      VisitStack(v, w, scs, n, frames, path, bound, pk, i, lo, hi);
      stk[depth - 1] := Frame(f.lo, f.hi, pk, true);
      stk[depth] := Frame(lo, hi, 0, false);
      depth := depth + 1;
      path, bound := path + [i], bound[d := i] + [|n|];
      assert stk[..depth] == frames[d := Frame(f.lo, f.hi, pk, true)] + [Frame(lo, hi, 0, false)];
    }

    /** One step of the walk: the next token in document order, until none is left. */
    method Next(w: Weave, scs: seq<Scope>, ghost v: View) returns (st: Status, got: bool, out: WalkTok, ghost t: Tid)
      requires Valid(v, w, scs)
      modifies this, rank, stk
      ensures st == OK && Valid(v, w, scs)
      ensures rank == old(rank) && stk == old(stk)
      ensures got ==> Describes(v, t, out) && old(Remaining(v, w, scs)) == [t] + Remaining(v, w, scs)
      ensures !got ==> old(Remaining(v, w, scs)) == [] == Remaining(v, w, scs)
    {
      hide Views, Lists, Owed, Rest, IsIns, Nodes, Describes, RankedBy, LevelOk, FrameMeans, StackOk, Latest, Tiled,
        ScopesIn, FrameIn, Least;
      got, out, t := false, WalkTok(0, 0, 0, [], []), Tid(0, 0);
      if phase == DONE {
        return OK, got, out, t;
      }
      if phase == FRESH {
        if |w.idx| == 0 {
          NothingOwed(v, w, scs);
          phase := DONE;
          return OK, got, out, t;
        }
        st := Begin(w, scs, v);
        if st != OK {
          return;
        }
      }
      ghost var n, r0 := Nodes(v, w, scs), Remaining(v, w, scs);
      while depth > 0
        invariant phase == LIVE && Valid(v, w, scs) && Remaining(v, w, scs) == r0
        invariant rank == old(rank) && stk == old(stk) && !got
        decreases depth
      {
        var f := stk[depth - 1];
        assert f == stk[..depth][depth - 1];
        TopFrame(v, w, scs, n, stk[..depth], path, bound);
        var pk: nat;
        st, got, pk := Pick(w, scs, rank[..], f);
        if !got {
          PopStack(v, w, scs, n, rank[..], stk[..depth], path, bound, pk);
          assert stk[..depth][..depth - 1] == stk[..depth - 1];
          depth := depth - 1;
          path, bound := path[..depth], bound[..depth];
        } else {
          ghost var i := PickedNext(v, w, scs, n, rank[..], stk[..depth], path, bound, pk);
          t := n[i];
          st, out := Visit(w, scs, pk, v, i);
          return;
        }
      }
      AllPopped(v, w, n, stk[..depth], path, bound);
      phase := DONE;
      st := OK;
    }
  }

  lemma AllPopped(v: View, w: Weave, n: seq<Tid>, stk: seq<Frame>, path: seq<int>, bound: seq<nat>)
    requires Lists(v, n) && StackOk(v, w, n, stk, path, bound) && stk == []
    ensures path == [] == bound && Rest(n, AnchorMap(v.s), path, bound) == []
  {
  }
}
