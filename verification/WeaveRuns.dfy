/** Whole runs over stored weaves: recovery, convergence, and what one more fold leaves alone. */
module WeaveRuns {
  import opened Common
  import opened TopoOrder
  import opened Rga
  import opened CfoldModel
  import opened CfoldFold
  import opened CfoldHistory
  import opened Weave
  import opened WeaveRep
  import opened WeaveFacts
  import opened WalkOrder
  import opened WeaveRead
  import opened WeaveGrow
  import opened WeavePen
  import opened WeaveFold

  // ---------- building a weave from a history ----------

  /** The ancestor list handed to each fold names the commit's whole causal past. */
  ghost predicate NamesPast(h: History, lists: map<nat, seq<nat>>) {
    forall c | c in h :: NamesAt(h, lists, c)
  }

  ghost predicate NamesAt(h: History, lists: map<nat, seq<nat>>, c: nat)
    requires c in h
  {
    c in lists && forall a: nat :: a in lists[c] <==> a in h[c].anc
  }

  ghost predicate SyntaxHistory(h: History) {
    forall c | c in h :: Syntax(h[c].content)
  }

  ghost predicate GoodRun(h: History, diff: Diff, order: seq<nat>) {
    GoodHistory(h) && GoodDiff(diff) && SyntaxHistory(h) && Folding(h, order) && |order| < OFF_CAP
  }

  /** The body the whole run needs. */
  ghost function BodySize(h: History, diff: Diff, order: seq<nat>): nat
    requires GoodHistory(h) && Folding(h, order)
  {
    Start(Run(h, diff, order), order, |order|)
  }

  lemma EmptyWeave(s: State)
    requires s == map[]
    ensures Recorded(Weave([], [], [], []), s, [])
  {
    assert Represents(Weave([], [], [], []), s, []);
  }

  lemma FoldingTake(h: History, order: seq<nat>, k: nat)
    requires Folding(h, order) && k <= |order|
    ensures Folding(h, order[..k])
  {
    forall i | 0 <= i < k
      ensures CausalAt(Past(h), order[..k], i)
    {
      assert CausalAt(Past(h), order, i);
      assert order[..k][..i] == order[..i];
    }
  }

  lemma TakeSnoc(order: seq<nat>, k: nat)
    requires k < |order|
    ensures order[..k + 1] == order[..k] + [order[k]]
    ensures order[..k + 1][..k] == order[..k]
  {
  }

  /** The next fold of a run is a fold the writer can do, and does to the state what the run does. */
  lemma NextFold(h: History, lists: map<nat, seq<nat>>, diff: Diff, order: seq<nat>, k: nat, w: Weave)
    requires GoodRun(h, diff, order) && NamesPast(h, lists) && k < |order|
    requires Folding(h, order[..k]) && Folding(h, order[..k + 1])
    requires Represents(w, Run(h, diff, order[..k]), order[..k])
    ensures order[k] in h && order[k] in lists
    ensures var s, c := Run(h, diff, order[..k]), order[k];
      && PastOf(s, lists[c]) == h[c].anc
      && CanWrite(w, s, order[..k], c, h[c].anc, h[c].content, diff)
      && Run(h, diff, order[..k + 1]) == CfoldHistory.Fold(s, c, h[c].anc, h[c].content, diff)
  {
    hide Represents, Represents, GoodDiff, Causal;
    var s, c := Run(h, diff, order[..k]), order[k];
    TakeSnoc(order, k);
    RunSound(h, diff, order[..k]);
    FoldingPrefix(h, order[..k + 1]);
    PastClosed(h, c, s);
    assert NamesAt(h, lists, c);
    assert Syntax(h[c].content);
  }

  lemma SizeStep(h: History, diff: Diff, order: seq<nat>, k: nat, w: Weave)
    requires GoodRun(h, diff, order) && k < |order|
    requires Folding(h, order[..k]) && Folding(h, order[..k + 1])
    requires Represents(w, Run(h, diff, order[..k]), order[..k])
    requires var s, c := Run(h, diff, order[..k]), order[k];
      && c in h && CanWrite(w, s, order[..k], c, h[c].anc, h[c].content, diff)
      && Run(h, diff, order[..k + 1]) == CfoldHistory.Fold(s, c, h[c].anc, h[c].content, diff)
    ensures var s, c := Run(h, diff, order[..k]), order[k];
      IsDag(Graph(s)) && h[c].anc <= s.Keys
      && (Overflows(w, Contribute(s, c, h[c].anc, h[c].content, diff))
          <==> BodySize(h, diff, order[..k + 1]) > OFF_MASK)
  {
    hide GoodDiff, Causal, CanFold, Run;
    var s, c := Run(h, diff, order[..k]), order[k];
    WriteArrives(w, s, order[..k], c, h[c].anc, h[c].content, diff);
    TakeSnoc(order, k);
    GrowTotal(s, order[..k], c, Contribute(s, c, h[c].anc, h[c].content, diff));
  }

  /** A longer run needs no less. */
  lemma {:induction false} SizeMono(h: History, diff: Diff, order: seq<nat>, k: nat)
    requires GoodRun(h, diff, order) && k <= |order|
    ensures Folding(h, order[..k]) && BodySize(h, diff, order[..k]) <= BodySize(h, diff, order)
    decreases |order|
  {
    FoldingTake(h, order, k);
    if k == |order| {
      assert order[..k] == order;
    } else {
      var rest := order[..|order| - 1];
      FoldingTake(h, order, |order| - 1);
      SizeMono(h, diff, rest, k);
      assert rest[..k] == order[..k];
      SizeLast(h, diff, order);
    }
  }

  lemma RunLast(h: History, diff: Diff, order: seq<nat>)
    requires GoodHistory(h) && Folding(h, order) && order != []
    ensures var c, rest := order[|order| - 1], order[..|order| - 1];
      && Folding(h, rest) && c in h
      && IsDag(Graph(Run(h, diff, rest))) && h[c].anc <= Run(h, diff, rest).Keys && c !in Run(h, diff, rest)
      && Run(h, diff, order) == Run(h, diff, rest)[c := Contribute(Run(h, diff, rest), c, h[c].anc, h[c].content, diff)]
  {
    FoldingPrefix(h, order);
    PastClosed(h, order[|order| - 1], Run(h, diff, order[..|order| - 1]));
  }

  lemma SizeLast(h: History, diff: Diff, order: seq<nat>)
    requires GoodRun(h, diff, order) && order != []
    ensures Folding(h, order[..|order| - 1])
    ensures BodySize(h, diff, order[..|order| - 1]) <= BodySize(h, diff, order)
  {
    hide GoodDiff, Causal, Run, Contribute, Folding, IsDag;
    var c, rest := order[|order| - 1], order[..|order| - 1];
    FoldingTake(h, order, |order| - 1);
    RunLast(h, diff, order);
    RunArrived(h, diff, rest);
    assert order == rest + [c];
    var s := Run(h, diff, rest);
    GrowTotal(s, rest, c, Contribute(s, c, h[c].anc, h[c].content, diff));
  }

  lemma RunArrived(h: History, diff: Diff, order: seq<nat>)
    requires GoodHistory(h) && Folding(h, order)
    ensures Arrived(Run(h, diff, order), order)
  {
    hide Run;
    var s := Run(h, diff, order);
    forall i | 0 <= i < |order|
      ensures CausalAt(Graph(s), order, i)
    {
      assert CausalAt(Past(h), order, i);
    }
  }

  /** Folds a whole history, commit by commit, in the given order. */
  method FoldRun(h: History, lists: map<nat, seq<nat>>, diff: Diff, order: seq<nat>) returns (st: Status, w: Weave)
    requires GoodRun(h, diff, order) && NamesPast(h, lists)
    ensures st == if BodySize(h, diff, order) > OFF_MASK then BIG else OK
    ensures st == OK ==> Recorded(w, Run(h, diff, order), order)
  {
    hide GoodRun, NamesPast, Recorded, Run, BodySize, CanWrite, Overflows, Represents, Folding;
    w := Weave([], [], [], []);
    RunBegins(h, diff, order);
    for k := 0 to |order|
      invariant Folding(h, order[..k]) && GoodHistory(h)
      invariant Recorded(w, Run(h, diff, order[..k]), order[..k])
      invariant BodySize(h, diff, order[..k]) <= OFF_MASK
    {
      var c := order[k];
      FoldingTakes(h, diff, order, k);
      RecordedRepresents(w, Run(h, diff, order[..k]), order[..k]);
      NextFold(h, lists, diff, order, k, w);
      SizeStep(h, diff, order, k, w);
      TakeSnoc(order, k);
      SizeMono(h, diff, order, k + 1);
      var stat: FoldStat;
      st, w, stat := WeaveFold.Fold(w, h[c].content, c, lists[c], diff, Run(h, diff, order[..k]), order[..k]);
      if st != OK {
        return;
      }
    }
    assert order[..|order|] == order;
    st := OK;
  }

  lemma RecordedRepresents(w: Weave, s: State, ids: seq<nat>)
    requires Recorded(w, s, ids)
    ensures Represents(w, s, ids)
  {
  }

  lemma RunBegins(h: History, diff: Diff, order: seq<nat>)
    requires GoodRun(h, diff, order)
    ensures Folding(h, order[..0]) && GoodHistory(h) && Folding(h, order)
    ensures Recorded(Weave([], [], [], []), Run(h, diff, order[..0]), order[..0])
    ensures BodySize(h, diff, order[..0]) == 0
  {
    FoldingTake(h, order, 0);
    EmptyWeave(Run(h, diff, order[..0]));
  }

  lemma FoldingTakes(h: History, diff: Diff, order: seq<nat>, k: nat)
    requires GoodRun(h, diff, order) && k < |order|
    ensures Folding(h, order[..k]) && Folding(h, order[..k + 1]) && order[k] in h
  {
    FoldingTake(h, order, k);
    FoldingTake(h, order, k + 1);
  }

  // ---------- recovery ----------

  lemma ScopeSeenBy(h: History, diff: Diff, order: seq<nat>, c: nat)
    requires GoodHistory(h) && Folding(h, order) && c in order
    ensures c in Run(h, diff, order) && c in h && SeenBy(Run(h, diff, order), c) == CfoldHistory.Scope(h, c)
  {
  }

  /** Recovery: by id, from any weave a run built, byte for byte; never torn, never a length mismatch. */
  method Recover(w: Weave, id: nat, ghost h: History, ghost diff: Diff, ghost order: seq<nat>) returns (st: Status,
          out: seq<Byte>)
    requires GoodRun(h, diff, order) && Recorded(w, Run(h, diff, order), order)
    ensures st == if id in order then OK else NOCM
    ensures id in order && h[id].content.Some? ==> out == Flatten(h[id].content.value)
  {
    hide Recorded, Run, Represents, Causal, GoodDiff;
    out := [];
    ghost var s := Run(h, diff, order);
    RecordedRepresents(w, s, order);
    var i: nat;
    st, i := FindCommit(w, id, s, order);
    if st != OK {
      return;
    }
    st, out := Produce(w, i, s, order);
    ScopeSeenBy(h, diff, order, id);
    if h[id].content.Some? {
      RunRecovers(h, diff, order, id);
    }
  }

  // ---------- convergence ----------

  /** Two weaves of the same commits, folded in different orders, show the same bytes at every commit,
    * merges included, and record the same length for it. */
  lemma WeavesConverge(w: Weave, w': Weave, h: History, diff: Diff, p: seq<nat>, q: seq<nat>, id: nat)
    requires GoodRun(h, diff, p) && GoodRun(h, diff, q) && id in p
    requires forall c :: c in p <==> c in q
    requires Recorded(w, Run(h, diff, p), p) && Recorded(w', Run(h, diff, q), q)
    ensures id in q && id in Run(h, diff, p) && id in Run(h, diff, q)
    ensures IsDag(Graph(Run(h, diff, p))) && IsDag(Graph(Run(h, diff, q)))
    ensures SeenBy(Run(h, diff, p), id) <= Run(h, diff, p).Keys && SeenBy(Run(h, diff, q), id) <= Run(h, diff, q).Keys
    ensures Render(Run(h, diff, p), SeenBy(Run(h, diff, p), id)) == Render(Run(h, diff, q), SeenBy(Run(h, diff, q), id))
    ensures Pos(p, id) < |w.cmts| && Pos(q, id) < |w'.cmts|
    ensures w.cmts[Pos(p, id)].plen == w'.cmts[Pos(q, id)].plen
  {
    hide Run, Represents, Causal, GoodDiff, Render;
    RunsConverge(h, diff, p, q);
    RepresentsCount(w, Run(h, diff, p), p);
    RepresentsCount(w', Run(h, diff, q), q);
    assert RecordedAt(w, Run(h, diff, p), p, Pos(p, id));
    assert RecordedAt(w', Run(h, diff, q), q, Pos(q, id));
  }

  lemma RepresentsCount(w: Weave, s: State, ids: seq<nat>)
    requires Represents(w, s, ids)
    ensures |w.cmts| == |ids|
  {
  }

  /** Produced from either weave, the bytes are equal. */
  method ProduceBoth(w: Weave, w': Weave, id: nat, ghost h: History, ghost diff: Diff, ghost p: seq<nat>,
          ghost q: seq<nat>)
      returns (a: seq<Byte>, b: seq<Byte>)
    requires GoodRun(h, diff, p) && GoodRun(h, diff, q) && id in p
    requires forall c :: c in p <==> c in q
    requires Recorded(w, Run(h, diff, p), p) && Recorded(w', Run(h, diff, q), q)
    ensures a == b
  {
    hide Run, Represents, Recorded, Causal, GoodDiff, Render;
    WeavesConverge(w, w', h, diff, p, q, id);
    RecordedRepresents(w, Run(h, diff, p), p);
    RecordedRepresents(w', Run(h, diff, q), q);
    var st, i := FindCommit(w, id, Run(h, diff, p), p);
    st, a := Produce(w, i, Run(h, diff, p), p);
    var j: nat;
    st, j := FindCommit(w', id, Run(h, diff, q), q);
    st, b := Produce(w', j, Run(h, diff, q), q);
  }

  // ---------- what one more fold leaves alone ----------

  lemma OldKeysClosed(s: State, c: nat, anc: set<nat>, r: Rec)
    requires IsDag(Graph(s)) && c !in s && Closed(Graph(s), anc) && r.anc == anc
    ensures IsDag(Graph(s[c := r])) && Closed(Graph(s[c := r]), s.Keys)
    ensures Filter(Kahn(Graph(s[c := r]), s[c := r].Keys), s.Keys) == Kahn(Graph(s), s.Keys)
  {
    var g, g' := Graph(s), Graph(s[c := r]);
    FoldGraph(s, c, anc, r);
    forall x | x in s.Keys
      ensures g'[x] <= s.Keys
    {
      assert DagAt(g, x);
    }
    assert g'.Keys == s[c := r].Keys && g.Keys == s.Keys;
    KahnRestrict(g', g'.Keys, s.Keys);
    assert g'.Keys * s.Keys == s.Keys;
    KahnFrame(g, g', s.Keys);
  }

  /** Older commits keep their relative rank. */
  lemma RanksStay(s: State, c: nat, anc: set<nat>, r: Rec, a: nat, b: nat)
    requires IsDag(Graph(s)) && c !in s && Closed(Graph(s), anc) && r.anc == anc
    requires a in s && b in s
    ensures IsDag(Graph(s[c := r]))
    ensures NoLater(Kahn(Graph(s[c := r]), s[c := r].Keys), a, b) <==> NoLater(Kahn(Graph(s), s.Keys), a, b)
  {
    hide Kahn, Filter;
    OldKeysClosed(s, c, anc, r);
    var k := Kahn(Graph(s[c := r]), s[c := r].Keys);
    var old_ := Kahn(Graph(s), s.Keys);
    assert Filter(k, s.Keys) == old_;
    if NoLater(old_, a, b) {
      FilterOrdered(k, s.Keys, a, b);
      assert NoLater(k, a, b);
    }
    if NoLater(k, a, b) {
      var p, q :| 0 <= p <= q < |k| && k[p] == a && k[q] == b;
      FilterKeepsOrder(k, s.Keys, p, q);
      assert NoLater(old_, a, b);
    }
  }

  lemma {:induction false} FilterKeepsOrder(k: seq<nat>, u: set<nat>, p: nat, q: nat)
    requires p <= q < |k| && k[p] in u && k[q] in u
    ensures NoLater(Filter(k, u), k[p], k[q])
  {
    var f, g := Filter(k, u), Filter(k[1..], u);
    if p > 0 {
      FilterKeepsOrder(k[1..], u, p - 1, q - 1);
      var i, j :| 0 <= i <= j < |g| && g[i] == k[p] && g[j] == k[q];
      if k[0] in u {
        assert f == [k[0]] + g;
        NoLaterAt(f, i + 1, j + 1);
      } else {
        assert f == g;
        NoLaterAt(f, i, j);
      }
    } else {
      FilterElements(k, u);
      assert k[q] in k;
      assert f == [k[0]] + g;
      var j :| 0 <= j < |f| && f[j] == k[q];
      NoLaterAt(f, 0, j);
    }
  }

  lemma NoLaterAt(order: seq<nat>, i: nat, j: nat)
    requires i <= j < |order|
    ensures NoLater(order, order[i], order[j])
  {
  }

  /** A pure merge shows what its parents together show. */
  lemma MergeShows(s: State, c: nat, anc: set<nat>, diff: Diff)
    requires CanFold(s, c, anc, None, diff)
    ensures var s' := CfoldHistory.Fold(s, c, anc, None, diff);
      IsDag(Graph(s')) && anc + {c} <= s'.Keys && Render(s', anc + {c}) == Render(s, anc)
  {
    var s' := CfoldHistory.Fold(s, c, anc, None, diff);
    FoldDoc(s, c, anc, s'[c]);
    MergeAlive(s, c, anc, s'[c]);
    DocElements(s, anc);
    FilterElements(Doc(s, anc), Alive(s, anc));
    TextFrame(s, s', Visible(s, anc));
  }

  lemma MergeAlive(s: State, c: nat, anc: set<nat>, r: Rec)
    requires c !in s && r.nodes == [] && r.tombs == {} && anc <= s.Keys && c !in anc
    ensures Alive(s[c := r], anc + {c}) == Alive(s, anc)
  {
    forall x
      ensures x in Tokens(s[c := r], anc + {c}) <==> x in Tokens(s, anc)
      ensures Tombed(s[c := r], anc + {c}, x) <==> Tombed(s, anc, x)
    {
    }
  }
}
