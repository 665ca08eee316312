/** Why stepping through a sibling group by rank visits the replay in order. */
module WalkOrder {
  import opened Common
  import opened TopoOrder
  import opened Rga
  import opened CfoldModel
  import opened Weave
  import opened WeaveRep
  import opened WeaveFacts
  import opened Ranks

  /** What a walk is about: the stored state, arrival order, and the commit set of each scope. */
  datatype View = View(s: State, ids: seq<nat>, sets: seq<set<nat>>)

  ghost function Union(sets: seq<set<nat>>): set<nat> {
    if sets == [] then {} else Union(sets[..|sets| - 1]) + sets[|sets| - 1]
  }

  lemma {:induction false} UnionElements(sets: seq<set<nat>>)
    ensures forall k | 0 <= k < |sets| :: sets[k] <= Union(sets)
    ensures forall c | c in Union(sets) :: InSome(sets, c)
  {
    if sets != [] {
      var m := sets[..|sets| - 1];
      UnionElements(m);
      forall c | c in Union(sets)
        ensures InSome(sets, c)
      {
        if c in Union(m) {
          var k :| 0 <= k < |m| && c in m[k];
          assert c in sets[k];
        } else {
          assert c in sets[|sets| - 1];
        }
      }
    }
  }

  ghost predicate InSome(sets: seq<set<nat>>, c: nat) {
    exists k :: 0 <= k < |sets| && c in sets[k]
  }

  /** The walked scopes see the view's commit sets. */
  ghost predicate Views(v: View, w: Weave, scs: seq<Scope>) {
    && Represents(w, v.s, v.ids)
    && |scs| == |v.sets|
    && forall k | 0 <= k < |scs| :: Sees(v.s, v.ids, scs[k], v.sets[k])
  }

  lemma UnionClosed(v: View, w: Weave, scs: seq<Scope>)
    requires Views(v, w, scs)
    ensures Union(v.sets) <= v.s.Keys && Closed(Graph(v.s), Union(v.sets))
    ensures Tiled(w.cmts, |w.body|) && ScopesIn(w, scs)
  {
    RepTiled(w, v.s, v.ids);
    UnionElements(v.sets);
    forall c | c in Union(v.sets)
      ensures c in v.s && Graph(v.s)[c] <= Union(v.sets)
    {
      assert InSome(v.sets, c);
      var k :| 0 <= k < |v.sets| && c in v.sets[k];
      assert Sees(v.s, v.ids, scs[k], v.sets[k]);
    }
    forall k | 0 <= k < |scs|
      ensures scs[k].len <= |w.body|
    {
      assert Sees(v.s, v.ids, scs[k], v.sets[k]);
    }
  }

  /** `n` lists the tokens in play, each once, anchors earlier. */
  ghost predicate Lists(v: View, n: seq<Tid>) {
    && AnchoredEarlier(n, AnchorMap(v.s)) && NoDup(n)
    && (forall t | t in n :: Has(v.s, t) && t.cid in Union(v.sets))
    && (forall t | Has(v.s, t) && t.cid in Union(v.sets) :: t in n)
  }

  /** The tokens in play, in replay order. */
  ghost function Nodes(v: View, w: Weave, scs: seq<Scope>): (n: seq<Tid>)
    requires Views(v, w, scs)
  {
    UnionClosed(v, w, scs);
    KahnElements(Graph(v.s), Union(v.sets));
    Listing(v.s, Kahn(Graph(v.s), Union(v.sets)))
  }

  lemma NodesList(v: View, w: Weave, scs: seq<Scope>)
    requires Views(v, w, scs)
    ensures Lists(v, Nodes(v, w, scs))
    ensures Union(v.sets) <= v.s.Keys && IsDag(Graph(v.s))
    ensures Doc(v.s, Union(v.sets)) == Walk(Nodes(v, w, scs), AnchorMap(v.s), Top, 0, |Nodes(v, w, scs)|)
  {
    UnionClosed(v, w, scs);
    var order := Kahn(Graph(v.s), Union(v.sets));
    KahnElements(Graph(v.s), Union(v.sets));
    KahnIsCausal(Graph(v.s), Union(v.sets));
    ListingAnchored(v.s, order);
    ListingElements(v.s, order);
    WalkIsReplay(Listing(v.s, order), AnchorMap(v.s));
  }

  // ---------- replay order and ranks ----------

  /** `a` comes no later than `b` in `order`. */
  ghost predicate NoLater(order: seq<nat>, a: nat, b: nat) {
    exists p, q :: 0 <= p <= q < |order| && order[p] == a && order[q] == b
  }

  lemma {:induction false} ListingOrdered(s: State, order: seq<nat>, i: nat, j: nat)
    requires forall c | c in order :: c in s
    requires i <= j < |Listing(s, order)|
    ensures NoLater(order, Listing(s, order)[i].cid, Listing(s, order)[j].cid)
  {
    var c, rest := order[|order| - 1], order[..|order| - 1];
    var n, m := Listing(s, order), Listing(s, rest);
    OwnElements(c, |s[c].nodes|);
    ListingElements(s, rest);
    if j < |m| {
      ListingOrdered(s, rest, i, j);
      var p, q :| 0 <= p <= q < |rest| && rest[p] == m[i].cid && rest[q] == m[j].cid;
      assert order[p] == rest[p] && order[q] == rest[q];
    } else {
      assert n[j] in Own(c, |s[c].nodes|);
      if i < |m| {
        assert m[i] in m;
        var p :| 0 <= p < |rest| && rest[p] == m[i].cid;
        assert order[p] == rest[p];
      } else {
        assert n[i] in Own(c, |s[c].nodes|);
      }
    }
  }

  lemma {:induction false} FilterOrdered(k: seq<nat>, u: set<nat>, a: nat, b: nat)
    requires NoLater(Filter(k, u), a, b)
    ensures NoLater(k, a, b)
  {
    var f := Filter(k, u);
    var p, q :| 0 <= p <= q < |f| && f[p] == a && f[q] == b;
    FilterAt(k, u, p, q);
  }

  lemma {:induction false} FilterAt(k: seq<nat>, u: set<nat>, p: nat, q: nat)
    requires p <= q < |Filter(k, u)|
    ensures NoLater(k, Filter(k, u)[p], Filter(k, u)[q])
  {
    var f, tail := Filter(k, u), Filter(k[1..], u);
    FilterElements(k, u);
    if k[0] !in u {
      FilterAt(k[1..], u, p, q);
      LaterInTail(k, f[p], f[q]);
    } else if p > 0 {
      assert f[p] == tail[p - 1] && f[q] == tail[q - 1];
      FilterAt(k[1..], u, p - 1, q - 1);
      LaterInTail(k, f[p], f[q]);
    } else {
      assert f[q] in f;
      var y :| 0 <= y < |k| && k[y] == f[q];
      assert k[0] == f[p];
    }
  }

  lemma LaterInTail(k: seq<nat>, a: nat, b: nat)
    requires k != [] && NoLater(k[1..], a, b)
    ensures NoLater(k, a, b)
  {
    var p, q :| 0 <= p <= q < |k[1..]| && k[1..][p] == a && k[1..][q] == b;
    assert k[p + 1] == a && k[q + 1] == b;
  }

  /** The order of a scope is the order of the whole table, restricted. */
  lemma ScopeOrder(g: Dag, u: set<nat>, a: nat, b: nat)
    requires IsDag(g) && Closed(g, u) && NoLater(Kahn(g, u), a, b)
    ensures NoLater(Kahn(g, g.Keys), a, b)
  {
    KahnRestrict(g, g.Keys, u);
    assert g.Keys * u == u;
    FilterOrdered(Kahn(g, g.Keys), u, a, b);
  }

  lemma RankNoLater(g: Dag, ids: seq<nat>, rank: seq<nat>, a: nat, b: nat)
    requires RanksOk(g, ids, rank) && NoLater(Kahn(g, g.Keys), a, b) && a != b
    requires a in ids && b in ids
    ensures rank[Pos(ids, a)] < rank[Pos(ids, b)]
  {
    var k := Kahn(g, g.Keys);
    KahnElements(g, g.Keys);
    var p, q :| 0 <= p <= q < |k| && k[p] == a && k[q] == b;
    assert RankAt(k, ids, rank, Pos(ids, a));
    assert RankAt(k, ids, rank, Pos(ids, b));
  }

  /** Later in the list and of another commit: higher rank. */
  ghost predicate RankedBy(v: View, n: seq<Tid>, rank: seq<nat>) {
    forall i, j | 0 <= i < j < |n| && n[i].cid != n[j].cid :: RankLt(v.ids, rank, n[i].cid, n[j].cid)
  }

  ghost predicate RankLt(ids: seq<nat>, rank: seq<nat>, a: nat, b: nat) {
    a in ids && b in ids && |rank| == |ids| && rank[Pos(ids, a)] < rank[Pos(ids, b)]
  }

  lemma NodesRanked(v: View, w: Weave, scs: seq<Scope>, rank: seq<nat>)
    requires Views(v, w, scs) && RanksOk(Graph(v.s), v.ids, rank)
    ensures RankedBy(v, Nodes(v, w, scs), rank)
  {
    var n, g, u := Nodes(v, w, scs), Graph(v.s), Union(v.sets);
    UnionClosed(v, w, scs);
    KahnElements(g, u);
    forall i, j | 0 <= i < j < |n| && n[i].cid != n[j].cid
      ensures RankLt(v.ids, rank, n[i].cid, n[j].cid)
    {
      RankLater(v.s, v.ids, u, rank, i, j);
    }
  }

  lemma RankLater(s: State, ids: seq<nat>, u: set<nat>, rank: seq<nat>, i: nat, j: nat)
    requires Arrived(s, ids) && RanksOk(Graph(s), ids, rank) && Closed(Graph(s), u)
    requires forall c | c in Kahn(Graph(s), u) :: c in s
    requires var n := Listing(s, Kahn(Graph(s), u)); i < j < |n| && n[i].cid != n[j].cid
    ensures var n := Listing(s, Kahn(Graph(s), u)); RankLt(ids, rank, n[i].cid, n[j].cid)
  {
    var order := Kahn(Graph(s), u);
    var n := Listing(s, order);
    ListingElements(s, order);
    assert n[i] in n && n[j] in n;
    ListingOrdered(s, order, i, j);
    ScopeOrder(Graph(s), u, n[i].cid, n[j].cid);
    RankNoLater(Graph(s), ids, rank, n[i].cid, n[j].cid);
  }
}
