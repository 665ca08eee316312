/** The topological ranks a walk computes once, from the stored ignore-sets. */
module Ranks {
  import opened Common
  import opened TopoOrder
  import opened CfoldModel
  import opened Weave
  import opened WeaveRep
  import opened WeaveFacts

  /** The commit table encodes the graph `g`: a commit's ancestors are the earlier commits it does not ignore. */
  ghost predicate Encodes(w: Weave, g: Dag, ids: seq<nat>) {
    && IsDag(g) && NoDup(ids) && |w.cmts| == |ids|
    && (forall c | c in ids :: c in g)
    && (forall c | c in g :: c in ids)
    && Causal(g, ids)
    && forall j | 0 <= j < |ids| :: EncodesAt(w, g, ids, j)
  }

  ghost predicate EncodesAt(w: Weave, g: Dag, ids: seq<nat>, j: nat)
    requires j < |ids| && j < |w.cmts|
  {
    && ids[j] in g
    && w.cmts[j].id == ids[j]
    && IgnIn(w, w.cmts[j])
    && IgnOf(w, w.cmts[j]) == Unseen(ids, j, g[ids[j]])
  }

  lemma RepEncodes(w: Weave, s: State, ids: seq<nat>)
    requires Represents(w, s, ids)
    ensures Encodes(w, Graph(s), ids)
  {
    forall j | 0 <= j < |ids|
      ensures EncodesAt(w, Graph(s), ids, j)
    {
      assert RepCommit(w, s, ids, j);
    }
  }

  ghost function SetOf(ids: seq<nat>): set<nat> {
    set c | c in ids
  }

  lemma CountStep(anc: set<nat>, seen: set<nat>, c: nat)
    requires c !in seen
    ensures |anc * (seen + {c})| == |anc * seen| + if c in anc then 1 else 0
  {
    assert anc * (seen + {c}) == if c in anc then anc * seen + {c} else anc * seen;
  }

  lemma SetOfSnoc(ids: seq<nat>, n: nat)
    requires NoDup(ids) && n < |ids|
    ensures SetOf(ids[..n + 1]) == SetOf(ids[..n]) + {ids[n]} && ids[n] !in SetOf(ids[..n])
  {
    assert ids[..n + 1] == ids[..n] + [ids[n]];
  }

  lemma {:induction false} UnseenCount(ids: seq<nat>, n: nat, anc: set<nat>)
    requires NoDup(ids) && n <= |ids|
    ensures |Unseen(ids, n, anc)| + |anc * SetOf(ids[..n])| == n
  {
    hide SetOf, NoDup;
    if n > 0 {
      UnseenCount(ids, n - 1, anc);
      SetOfSnoc(ids, n - 1);
      CountStep(anc, SetOf(ids[..n - 1]), ids[n - 1]);
    } else {
      NoneSeen(ids, anc);
    }
  }

  lemma NoneSeen(ids: seq<nat>, anc: set<nat>)
    ensures |anc * SetOf(ids[..0])| == 0
  {
    assert anc * SetOf(ids[..0]) == {};
  }

  lemma AncestorCount(w: Weave, g: Dag, ids: seq<nat>, j: nat)
    requires Encodes(w, g, ids) && j < |ids|
    ensures EncodesAt(w, g, ids, j)
    ensures w.cmts[j].ignLen <= j && |g[ids[j]] * g.Keys| == j - w.cmts[j].ignLen
  {
    assert EncodesAt(w, g, ids, j);
    var anc := g[ids[j]];
    UnseenCount(ids, j, anc);
    forall a | a in anc
      ensures a in SetOf(ids[..j])
    {
      assert CausalAt(g, ids, j);
    }
    assert anc * SetOf(ids[..j]) == anc == anc * g.Keys;
  }

  /** One ancestor fewer to wait for, exactly for the descendants of the emitted commit. */
  lemma PendStep(g: Dag, todo: set<nat>, m: nat, x: nat)
    requires IsDag(g) && x in g && m in todo
    ensures |g[x] * (todo - {m})| == |g[x] * todo| - if m in g[x] then 1 else 0
  {
    if m in g[x] {
      assert g[x] * todo == g[x] * (todo - {m}) + {m};
    } else {
      assert g[x] * todo == g[x] * (todo - {m});
    }
  }

  lemma Seen(w: Weave, g: Dag, ids: seq<nat>, i: nat, j: nat)
    requires Encodes(w, g, ids) && i < |ids| && j < |ids|
    ensures EncodesAt(w, g, ids, j)
    ensures ids[i] in g[ids[j]] <==> i < j && i !in IgnOf(w, w.cmts[j])
  {
    assert EncodesAt(w, g, ids, j);
    UnseenElements(ids, j, g[ids[j]]);
    if ids[i] in g[ids[j]] {
      assert CausalAt(g, ids, j);
      assert ids[i] in ids[..j];
    }
  }

  ghost predicate Waiting(g: Dag, ids: seq<nat>, todo: set<nat>, j: nat, emitted: bool, pend: nat)
    requires j < |ids|
  {
    && ids[j] in g
    && (emitted <==> ids[j] !in todo)
    && (!emitted ==> pend == |g[ids[j]] * todo|)
  }

  lemma ReadyIff(g: Dag, ids: seq<nat>, todo: set<nat>, j: nat, emitted: bool, pend: nat)
    requires j < |ids| && todo <= g.Keys && Waiting(g, ids, todo, j, emitted, pend)
    ensures Ready(g, todo, ids[j]) <==> !emitted && pend == 0
  {
    var both := g[ids[j]] * todo;
    if both == {} {
      forall a | a in g[ids[j]]
        ensures a !in todo
      {
        assert a !in both;
      }
    } else {
      var a :| a in both;
    }
  }

  /** The rank of every commit is its place in the canonical order of the whole table. */
  ghost predicate RanksOk(g: Dag, ids: seq<nat>, rank: seq<nat>) {
    && IsDag(g) && |rank| == |ids|
    && forall j | 0 <= j < |ids| :: RankAt(Kahn(g, g.Keys), ids, rank, j)
  }

  ghost predicate RankAt(k: seq<nat>, ids: seq<nat>, rank: seq<nat>, j: nat)
    requires j < |ids| && j < |rank|
  {
    rank[j] < |k| && k[rank[j]] == ids[j]
  }

  /** The commits ranked so far are a prefix of the canonical order; the rest is still to come. */
  ghost predicate Prefix(g: Dag, d: seq<nat>, todo: set<nat>) {
    && IsDag(g) && todo <= g.Keys && |d| + |todo| == |g|
    && Kahn(g, g.Keys) == d + Kahn(g, todo)
  }

  lemma PrefixStep(g: Dag, d: seq<nat>, todo: set<nat>, m: nat)
    requires Prefix(g, d, todo) && IsNext(g, todo, m)
    ensures Prefix(g, d + [m], todo - {m})
  {
    NextIs(g, todo, m);
    assert d + ([m] + Kahn(g, todo - {m})) == d + [m] + Kahn(g, todo - {m});
  }

  ghost predicate AllWaiting(g: Dag, ids: seq<nat>, todo: set<nat>, emit: seq<bool>, pend: seq<nat>) {
    && todo <= g.Keys && |emit| == |pend| == |ids|
    && forall k | 0 <= k < |ids| :: Waiting(g, ids, todo, k, emit[k], pend[k])
  }

  ghost predicate AllRanked(d: seq<nat>, ids: seq<nat>, emit: seq<bool>, rank: seq<nat>) {
    && |emit| == |rank| == |ids|
    && forall k | 0 <= k < |ids| && emit[k] :: RankAt(d, ids, rank, k)
  }

  /** Before anything is emitted a commit waits for all its ancestors. */
  method StartPending(w: Weave, pend: array<nat>, emit: array<bool>, ghost g: Dag, ghost ids: seq<nat>)
        returns (st: Status)
    requires Encodes(w, g, ids) && pend.Length == emit.Length == |w.cmts|
    modifies pend, emit
    ensures st == OK && AllWaiting(g, ids, g.Keys, emit[..], pend[..])
    ensures forall k | 0 <= k < emit.Length :: !emit[k]
  {
    for j := 0 to |w.cmts|
      invariant forall k | 0 <= k < j :: Waiting(g, ids, g.Keys, k, emit[k], pend[k]) && !emit[k]
    {
      var c := w.cmts[j];
      AncestorCount(w, g, ids, j);
      if c.ignLen > j {
        return TORN;
      }
      pend[j] := j - c.ignLen;
      emit[j] := false;
    }
    st := OK;
  }

  /** Among the first `j` commits `best` is the ready one with the smallest id, if any is ready. */
  ghost predicate BestSoFar(g: Dag, ids: seq<nat>, todo: set<nat>, best: nat, j: nat)
    requires todo <= g.Keys && j <= |ids|
  {
    && (best == |ids| || (best < j && Ready(g, todo, ids[best])))
    && forall k | 0 <= k < j && Ready(g, todo, ids[k]) :: best < |ids| && ids[best] <= ids[k]
  }

  lemma BestStep(g: Dag, ids: seq<nat>, todo: set<nat>, best: nat, j: nat)
    requires todo <= g.Keys && j < |ids| && BestSoFar(g, ids, todo, best, j)
    ensures BestSoFar(g, ids, todo,
      if Ready(g, todo, ids[j]) && (best == |ids| || ids[j] < ids[best]) then j else best, j + 1)
  {
  }

  /** The ready commit with the smallest id. */
  method PickReady(w: Weave, pend: seq<nat>, emit: seq<bool>, ghost g: Dag, ghost ids: seq<nat>,
          ghost todo: set<nat>) returns (best: nat)
    requires Encodes(w, g, ids) && AllWaiting(g, ids, todo, emit, pend) && todo != {}
    ensures best < |ids| && IsNext(g, todo, ids[best])
  {
    var n := |w.cmts|;
    best := n;
    for j := 0 to n
      invariant BestSoFar(g, ids, todo, best, j)
    {
      ReadyIff(g, ids, todo, j, emit[j], pend[j]);
      BestStep(g, ids, todo, best, j);
      assert EncodesAt(w, g, ids, j);
      assert best < n ==> EncodesAt(w, g, ids, best);
      if !emit[j] && pend[j] == 0 {
        if best == n || w.cmts[j].id < w.cmts[best].id {
          best := j;
        }
      }
    }
    BestExists(g, ids, todo, best);
  }

  /** After emitting `best` a commit waits for one ancestor fewer, exactly if it does not ignore it. */
  lemma ReleaseAt(w: Weave, g: Dag, ids: seq<nat>, todo: set<nat>, best: nat, j: nat, emitted: bool, p: nat)
    requires Encodes(w, g, ids) && best < |ids| && j < |ids| && j != best
    requires ids[best] in todo && todo <= g.Keys && Waiting(g, ids, todo, j, emitted, p)
    ensures EncodesAt(w, g, ids, j)
    ensures var less := !emitted && best < j && best !in IgnOf(w, w.cmts[j]);
      (less ==> p > 0) && Waiting(g, ids, todo - {ids[best]}, j, emitted, if less then p - 1 else p)
  {
    Seen(w, g, ids, best, j);
    PendStep(g, todo, ids[best], ids[j]);
    assert ids[j] != ids[best];
    if ids[best] in g[ids[j]] {
      assert ids[best] in g[ids[j]] * todo;
    }
  }

  /** The count of commit `k` once `best` is out: one fewer if it is later, pending and does not ignore it. */
  ghost function Released(w: Weave, best: nat, k: nat, emitted: bool, p: nat): int
    requires k < |w.cmts|
  {
    if best < k && !emitted && IgnIn(w, w.cmts[k]) && best !in IgnOf(w, w.cmts[k]) then p - 1 else p
  }

  method Release(w: Weave, best: nat, pend: array<nat>, emit: seq<bool>)
    requires pend.Length == |emit| == |w.cmts| && best < |w.cmts|
    requires forall k | 0 <= k < |w.cmts| :: IgnIn(w, w.cmts[k]) && Released(w, best, k, emit[k], pend[k]) >= 0
    modifies pend
    ensures forall k | 0 <= k < |w.cmts| :: pend[k] == Released(w, best, k, emit[k], old(pend[k]))
  {
    for j := best + 1 to |w.cmts|
      invariant forall k | j <= k < |w.cmts| :: pend[k] == old(pend[k])
      invariant forall k | 0 <= k < j :: pend[k] == Released(w, best, k, emit[k], old(pend[k]))
    {
      if !emit[j] {
        if best !in IgnOf(w, w.cmts[j]) {
          pend[j] := pend[j] - 1;
        }
      }
    }
  }

  lemma ReleaseOk(w: Weave, g: Dag, ids: seq<nat>, todo: set<nat>, best: nat, emit: seq<bool>, pend: seq<nat>)
    requires Encodes(w, g, ids) && best < |ids| && ids[best] in todo
    requires AllWaiting(g, ids, todo, emit, pend)
    ensures forall k | 0 <= k < |ids| :: IgnIn(w, w.cmts[k]) && Released(w, best, k, emit[k], pend[k]) >= 0
  {
    forall k | 0 <= k < |ids|
      ensures IgnIn(w, w.cmts[k]) && Released(w, best, k, emit[k], pend[k]) >= 0
    {
      assert EncodesAt(w, g, ids, k);
      if k != best {
        ReleaseAt(w, g, ids, todo, best, k, emit[k], pend[k]);
      }
    }
  }

  lemma ReleaseDone(w: Weave, g: Dag, ids: seq<nat>, todo: set<nat>, best: nat, emit: seq<bool>, pend: seq<nat>,
          pend': seq<nat>)
    requires Encodes(w, g, ids) && best < |ids| && ids[best] in todo && |pend'| == |ids|
    requires AllWaiting(g, ids, todo, emit, pend)
    requires forall k | 0 <= k < |ids| :: pend'[k] == Released(w, best, k, emit[k], pend[k])
    ensures AllWaiting(g, ids, todo - {ids[best]}, emit[best := true], pend')
  {
    forall k | 0 <= k < |ids|
      ensures Waiting(g, ids, todo - {ids[best]}, k, emit[best := true][k], pend'[k])
    {
      assert EncodesAt(w, g, ids, k);
      if k != best {
        ReleaseAt(w, g, ids, todo, best, k, emit[k], pend[k]);
      } else {
        assert Waiting(g, ids, todo, k, emit[k], pend[k]);
      }
    }
  }

  /** One deterministic topological order over the commit table, whatever the arrival order. */
  method RankCommits(w: Weave, rank: array<nat>, ghost g: Dag, ghost ids: seq<nat>) returns (st: Status)
    requires Encodes(w, g, ids) && rank.Length == |w.cmts|
    modifies rank
    ensures st == OK && RanksOk(g, ids, rank[..])
  {
    hide Prefix, AllWaiting, AllRanked, RanksOk, Released;
    var n := |w.cmts|;
    var pend, emit := new nat[n], new bool[n];
    ghost var todo, d := g.Keys, [];
    TableSize(g, ids);
    st := StartPending(w, pend, emit, g, ids);
    if st != OK {
      return;
    }
    RanksStart(g, ids, emit[..], rank[..]);
    for step := 0 to n
      invariant Prefix(g, d, todo) && |d| == step
      invariant AllWaiting(g, ids, todo, emit[..], pend[..])
      invariant AllRanked(d, ids, emit[..], rank[..])
    {
      PrefixMore(g, d, todo);
      var best := PickReady(w, pend[..], emit[..], g, ids, todo);
      if best == n {
        st := TORN;
        return;
      }
      ghost var m := ids[best];
      PrefixStep(g, d, todo, m);
      RankedStep(d, ids, emit[..], rank[..], best, step);
      ghost var pend0 := pend[..];
      ReleaseOk(w, g, ids, todo, best, emit[..], pend0);
      Release(w, best, pend, emit[..]);
      ReleaseDone(w, g, ids, todo, best, emit[..], pend0, pend[..]);
      emit[best] := true;
      rank[best] := step;
      d, todo := d + [m], todo - {m};
    }
    RanksDone(g, ids, d, todo, emit[..], pend[..], rank[..]);
    st := OK;
  }

  lemma RanksStart(g: Dag, ids: seq<nat>, emit: seq<bool>, rank: seq<nat>)
    requires IsDag(g) && |g| == |ids| == |emit| == |rank|
    requires forall k | 0 <= k < |emit| :: !emit[k]
    ensures Prefix(g, [], g.Keys) && AllRanked([], ids, emit, rank)
  {
    assert [] + Kahn(g, g.Keys) == Kahn(g, g.Keys);
    assert |g| == |g.Keys|;
  }

  lemma PrefixMore(g: Dag, d: seq<nat>, todo: set<nat>)
    requires Prefix(g, d, todo) && |d| < |g|
    ensures todo != {}
  {
  }

  lemma TableSize(g: Dag, ids: seq<nat>)
    requires NoDup(ids)
    requires forall c | c in ids :: c in g
    requires forall c | c in g :: c in ids
    ensures |g| == |ids|
  {
    assert g.Keys == SetOf(ids);
    SetSize(ids);
  }

  lemma RankedStep(d: seq<nat>, ids: seq<nat>, emit: seq<bool>, rank: seq<nat>, best: nat, step: nat)
    requires AllRanked(d, ids, emit, rank) && best < |ids| && step == |d|
    ensures AllRanked(d + [ids[best]], ids, emit[best := true], rank[best := step])
  {
    var emit', rank' := emit[best := true], rank[best := step];
    forall k | 0 <= k < |ids| && emit'[k]
      ensures RankAt(d + [ids[best]], ids, rank', k)
    {
      if k != best {
        assert RankAt(d, ids, rank, k);
      }
    }
  }

  lemma RanksDone(g: Dag, ids: seq<nat>, d: seq<nat>, todo: set<nat>, emit: seq<bool>, pend: seq<nat>, rank: seq<nat>)
    requires Prefix(g, d, todo) && |d| == |ids| == |g|
    requires AllWaiting(g, ids, todo, emit, pend) && AllRanked(d, ids, emit, rank)
    ensures RanksOk(g, ids, rank)
  {
    assert todo == {};
    assert Kahn(g, g.Keys) == d;
    forall k | 0 <= k < |ids|
      ensures RankAt(d, ids, rank, k)
    {
      assert Waiting(g, ids, todo, k, emit[k], pend[k]);
    }
  }

  lemma {:induction false} SetSize(ids: seq<nat>)
    requires NoDup(ids)
    ensures |SetOf(ids)| == |ids|
  {
    if ids != [] {
      SetSize(ids[1..]);
      assert ids[0] !in ids[1..];
      assert SetOf(ids) == SetOf(ids[1..]) + {ids[0]};
    }
  }

  lemma BestExists(g: Dag, ids: seq<nat>, todo: set<nat>, best: nat)
    requires IsDag(g) && todo <= g.Keys && todo != {}
    requires forall c | c in g :: c in ids
    requires best <= |ids|
    requires best == |ids| ==> forall k | 0 <= k < |ids| :: !Ready(g, todo, ids[k])
    requires best < |ids| ==> Ready(g, todo, ids[best])
    requires best < |ids| ==> forall k | 0 <= k < |ids| && Ready(g, todo, ids[k]) :: ids[best] <= ids[k]
    ensures best < |ids| && IsNext(g, todo, ids[best])
  {
    var m := Next(g, todo);
    assert m in ids;
    var k :| 0 <= k < |ids| && ids[k] == m;
    if best < |ids| {
      forall c | Ready(g, todo, c)
        ensures ids[best] <= c
      {
        assert c in ids;
      }
    }
  }
}
