/** What a reader finds in a stored weave: presence, groups, token ends, tombs. */
module WeaveFacts {
  import opened Common
  import opened TopoOrder
  import opened Rga
  import opened CfoldModel
  import opened Weave
  import opened WeaveRep

  // ---------- scopes ----------

  /** The stored scope `sc` sees exactly the commits of `a`. */
  ghost predicate Sees(s: State, ids: seq<nat>, sc: Scope, a: set<nat>)
    requires Arrived(s, ids)
  {
    && a <= s.Keys && Closed(Graph(s), a)
    && sc.len <= Start(s, ids, |ids|)
    && forall i {:trigger SeesAt(s, ids, sc, a, i)} | 0 <= i < |ids| :: SeesAt(s, ids, sc, a, i)
  }

  ghost predicate SeesAt(s: State, ids: seq<nat>, sc: Scope, a: set<nat>, i: nat)
    requires Arrived(s, ids) && i < |ids|
  {
    && (ids[i] in a <==> i <= sc.cidx && i !in sc.ign)
    && (i <= sc.cidx ==> Start(s, ids, i + 1) <= sc.len)
    && (i > sc.cidx ==> sc.len <= Start(s, ids, i))
  }

  lemma {:induction false} UnseenElements(ids: seq<nat>, n: nat, anc: set<nat>)
    requires n <= |ids|
    ensures forall i: nat | i in Unseen(ids, n, anc) :: i < n && ids[i] !in anc
    ensures forall i: nat | i < n && ids[i] !in anc :: i in Unseen(ids, n, anc)
  {
    if n > 0 {
      UnseenElements(ids, n - 1, anc);
    }
  }

  lemma CommitSeesWhich(s: State, ids: seq<nat>, c: nat, i: nat)
    requires Arrived(s, ids) && c < |ids| && i < |ids|
    ensures ids[c] in s
    ensures ids[i] in s[ids[c]].anc + {ids[c]} <==> i <= c && i !in Unseen(ids, c, s[ids[c]].anc)
  {
    var anc := s[ids[c]].anc;
    UnseenElements(ids, c, anc);
    PosUnique(ids, i);
    PosUnique(ids, c);
    if ids[i] in anc {
      PosCausal(s, ids, ids[c], ids[i]);
    }
  }

  lemma CommitSeesAt(s: State, ids: seq<nat>, c: nat, i: nat)
    requires Arrived(s, ids) && c < |ids| && i < |ids|
    ensures ids[c] in s
    ensures SeesAt(s, ids, Scope(Start(s, ids, c + 1), c, Unseen(ids, c, s[ids[c]].anc)), s[ids[c]].anc + {ids[c]}, i)
  {
    CommitSeesWhich(s, ids, c, i);
    if i <= c {
      StartMono(s, ids, i + 1, c + 1);
    } else {
      StartMono(s, ids, c + 1, i);
    }
  }

  /** The scope of a stored commit sees its past and itself. */
  lemma CommitSees(w: Weave, s: State, ids: seq<nat>, c: nat)
    requires Represents(w, s, ids) && c < |w.cmts|
    ensures c < |ids| && IgnIn(w, w.cmts[c]) && ids[c] in s
    ensures Sees(s, ids, ScopeOf(w, c), s[ids[c]].anc + {ids[c]})
  {
    assert RepCommit(w, s, ids, c);
    var anc := s[ids[c]].anc;
    var a, sc := anc + {ids[c]}, ScopeOf(w, c);
    assert Graph(s)[ids[c]] == anc;
    assert Closed(Graph(s), a) by {
      assert DagAt(Graph(s), ids[c]);
      assert forall x | x in anc :: x in Graph(s) && Graph(s)[x] <= anc;
    }
    StartMono(s, ids, c + 1, |ids|);
    forall i | 0 <= i < |ids|
      ensures SeesAt(s, ids, sc, a, i)
    {
      CommitSeesAt(s, ids, c, i);
    }
  }

  lemma PastSeesAt(s: State, ids: seq<nat>, anc: set<nat>, i: nat)
    requires Arrived(s, ids) && i < |ids|
    ensures SeesAt(s, ids, Scope(Start(s, ids, |ids|), |ids|, Unseen(ids, |ids|, anc)), anc, i)
  {
    UnseenElements(ids, |ids|, anc);
    StartMono(s, ids, i + 1, |ids|);
  }

  /** The writer's baseline scope sees the new commit's past. */
  lemma PastSees(s: State, ids: seq<nat>, anc: set<nat>)
    requires Arrived(s, ids) && anc <= s.Keys && Closed(Graph(s), anc)
    ensures Sees(s, ids, Scope(Start(s, ids, |ids|), |ids|, Unseen(ids, |ids|, anc)), anc)
  {
    forall i | 0 <= i < |ids|
      ensures SeesAt(s, ids, Scope(Start(s, ids, |ids|), |ids|, Unseen(ids, |ids|, anc)), anc, i)
    {
      PastSeesAt(s, ids, anc, i);
    }
  }

  // ---------- entries ----------

  lemma StoredToken(w: Weave, s: State, ids: seq<nat>, t: Tid)
    requires Represents(w, s, ids) && Has(s, t)
    ensures Anchored(s, ids, t)
    ensures Off(s, ids, t) < End(s, ids, t) <= |w.body| < OFF_CAP
    ensures End(s, ids, t) == Off(s, ids, t) + |Bytes(s, t)|
    ensures InsEntry(s, ids, t) in w.idx
    ensures SyntaxTag(NodeOf(s, t).tok.tag)
    ensures w.body[Off(s, ids, t)..End(s, ids, t)] == Bytes(s, t)
  {
    assert TokenOk(s, t) && RepToken(w, s, ids, t);
    OffRange(s, ids, t);
  }

  lemma InsFacts(w: Weave, s: State, ids: seq<nat>, t: Tid)
    requires Represents(w, s, ids) && Has(s, t)
    ensures Anchored(s, ids, t)
    ensures var e := InsEntry(s, ids, t);
      && e.chi.tag == NodeOf(s, t).tok.tag && e.chi.off == Off(s, ids, t)
      && IsToken(e) && e in w.idx
  {
    StoredToken(w, s, ids, t);
  }

  lemma TermFacts(w: Weave, s: State, ids: seq<nat>, e: Entry, t: Tid)
    requires Represents(w, s, ids) && IsTerm(s, ids, e, t)
    ensures e.chi.tag == TERM_TAG && e.chi.off == End(s, ids, t) && !IsToken(e)
  {
    StoredToken(w, s, ids, t);
  }

  lemma TombFacts(w: Weave, s: State, ids: seq<nat>, e: Entry, c: nat, t: Tid)
    requires Represents(w, s, ids) && IsTomb(s, ids, e, c, t)
    ensures e.chi.tag == TOMB_TAG && e.chi.off == Pos(ids, c) && !IsToken(e)
  {
  }

  /** Parent words name anchors: equal words, equal anchors. */
  lemma ParUnique(w: Weave, s: State, ids: seq<nat>, a: Anchor, b: Anchor)
    requires Represents(w, s, ids)
    requires (a.After? ==> Has(s, a.t)) && (b.After? ==> Has(s, b.t))
    ensures (a.After? ==> Stored(s, ids, a.t)) && (b.After? ==> Stored(s, ids, b.t))
    ensures ParOf(s, ids, a) == ParOf(s, ids, b) ==> a == b
  {
    if a.After? {
      StoredToken(w, s, ids, a.t);
      }
    if b.After? {
      StoredToken(w, s, ids, b.t);
      }
    if a.After? && b.After? && ParOf(s, ids, a) == ParOf(s, ids, b) {
      assert TokenOk(s, a.t) && TokenOk(s, b.t);
      OffUnique(s, ids, a.t, b.t);
    }
  }

  /** A token arrives after its anchor. */
  lemma AnchorEarlier(w: Weave, s: State, ids: seq<nat>, t: Tid)
    requires Represents(w, s, ids) && Has(s, t) && NodeOf(s, t).anchor.After?
    ensures Stored(s, ids, t) && Stored(s, ids, NodeOf(s, t).anchor.t)
    ensures Earlier(ids, NodeOf(s, t).anchor.t, t)
    ensures End(s, ids, NodeOf(s, t).anchor.t) <= Off(s, ids, t)
  {
    StoredToken(w, s, ids, t);
    assert TokenOk(s, t) && TokenOk(s, NodeOf(s, t).anchor.t);
    PairEarlier(s, ids, NodeOf(s, t).anchor.t, t);
  }

  lemma PairEarlier(s: State, ids: seq<nat>, p: Tid, t: Tid)
    requires Arrived(s, ids) && Stored(s, ids, p) && Stored(s, ids, t)
    requires |Bytes(s, p)| > 0 && |Bytes(s, t)| > 0
    requires p.cid in s[t.cid].anc || (p.cid == t.cid && p.ord < t.ord)
    ensures Earlier(ids, p, t) && End(s, ids, p) <= Off(s, ids, t)
  {
    if p.cid in s[t.cid].anc {
      PosCausal(s, ids, t.cid, p.cid);
    }
    OffEarlier(s, ids, p, t);
  }

  /** An entry's parent word is below the word naming the entry's own token. */
  lemma ParBelow(w: Weave, s: State, ids: seq<nat>, t: Tid)
    requires Represents(w, s, ids) && Has(s, t)
    ensures Anchored(s, ids, t)
    ensures WordLt(InsEntry(s, ids, t).par, Par(Off(s, ids, t)))
  {
    StoredToken(w, s, ids, t);
    if NodeOf(s, t).anchor.After? {
      AnchorEarlier(w, s, ids, t);
      StoredToken(w, s, ids, NodeOf(s, t).anchor.t);
    }
  }

  // ---------- presence ----------

  lemma PresentIff(w: Weave, s: State, ids: seq<nat>, sc: Scope, a: set<nat>, t: Tid)
    requires Represents(w, s, ids) && Sees(s, ids, sc, a) && Has(s, t)
    ensures Tiled(w.cmts, |w.body|) && sc.len <= |w.body| && Anchored(s, ids, t)
    ensures Present(w, sc, InsEntry(s, ids, t)) <==> t.cid in a
  {
    RepTiled(w, s, ids);
    RepBlame(w, s, ids, t);
    InsFacts(w, s, ids, t);
    assert TokenOk(s, t);
    OffRange(s, ids, t);
    assert SeesAt(s, ids, sc, a, Pos(ids, t.cid));
  }

  /** An entry is present exactly when it inserts a token of a commit in scope. */
  lemma PresentEntry(w: Weave, s: State, ids: seq<nat>, sc: Scope, a: set<nat>, i: nat)
    requires Represents(w, s, ids) && Sees(s, ids, sc, a) && i < |w.idx|
    ensures Tiled(w.cmts, |w.body|) && sc.len <= |w.body|
    ensures Present(w, sc, w.idx[i]) <==> exists t :: IsIns(s, ids, w.idx[i], t) && t.cid in a
  {
    RepTiled(w, s, ids);
    var e := w.idx[i];
    assert EntryAt(w.idx, s, ids, i);
    if t :| IsIns(s, ids, e, t) {
      PresentIff(w, s, ids, sc, a, t);
      InsFacts(w, s, ids, t);
      forall u | IsIns(s, ids, e, u)
        ensures u == t
      {
        InsFacts(w, s, ids, u);
        assert TokenOk(s, t) && TokenOk(s, u);
        OffUnique(s, ids, t, u);
      }
    } else if t :| IsTerm(s, ids, e, t) {
      TermFacts(w, s, ids, e, t);
    } else {
      var c, t :| IsTomb(s, ids, e, c, t);
      TombFacts(w, s, ids, e, c, t);
    }
  }
}
