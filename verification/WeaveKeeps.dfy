/** A fold leaves the tokens its diff keeps where they are: same bytes, same place in the body, same blame. */
module WeaveKeeps {
  import opened Common
  import opened TopoOrder
  import opened Rga
  import opened Script
  import opened CfoldModel
  import opened CfoldFold
  import opened CfoldHistory
  import opened CfoldKeeps
  import opened Weave
  import opened WeaveRep
  import opened WeaveFacts
  import opened WeaveGrow

  /** An older token keeps its offset, its end and its blame. */
  lemma TokensStay(w: Weave, w': Weave, s: State, ids: seq<nat>, c: nat, r: Rec, t: Tid)
    requires Represents(w, s, ids) && Represents(w', s[c := r], ids + [c]) && Arrives(s, ids, c, r) && Has(s, t)
    ensures Stored(s, ids, t) && Stored(s[c := r], ids + [c], t)
    ensures Off(s[c := r], ids + [c], t) == Off(s, ids, t) < |w.body|
    ensures End(s[c := r], ids + [c], t) == End(s, ids, t)
    ensures Tiled(w.cmts, |w.body|) && Tiled(w'.cmts, |w'.body|) && Off(s, ids, t) < |w'.body|
    ensures BlameOf(w'.cmts, |w'.body|, Off(s, ids, t)) == BlameOf(w.cmts, |w.body|, Off(s, ids, t))
  {
    hide Represents;
    RepBlame(w, s, ids, t);
    RepBlame(w', s[c := r], ids + [c], t);
    GrowToken(s, ids, c, r, t);
    GrowPos(s, ids, c, r, t.cid);
  }

  /** Token `t` of the old weave is token `u` of the new one, at the same offset and with the same blame. */
  ghost predicate Unmoved(w: Weave, w': Weave, s: State, s': State, ids: seq<nat>, ids': seq<nat>, t: Tid, u: Tid) {
    && t == u && Stored(s, ids, t) && Stored(s', ids', u)
    && Off(s', ids', u) == Off(s, ids, t) < |w.body| && End(s', ids', u) == End(s, ids, t)
    && Tiled(w.cmts, |w.body|) && Tiled(w'.cmts, |w'.body|) && Off(s, ids, t) < |w'.body|
    && BlameOf(w'.cmts, |w'.body|, Off(s', ids', u)) == BlameOf(w.cmts, |w.body|, Off(s, ids, t))
  }

  /** Token `u` of the new weave is the new commit's own. */
  ghost predicate Blamed(w': Weave, s': State, ids': seq<nat>, u: Tid) {
    && Stored(s', ids', u) && ids' != [] && u.cid == ids'[|ids'| - 1]
    && Tiled(w'.cmts, |w'.body|) && Off(s', ids', u) < |w'.body|
    && BlameOf(w'.cmts, |w'.body|, Off(s', ids', u)) == |ids'| - 1
  }

  /** A fold of `toks`, said with the pairs of its diff: a token paired with one of the past stays where that one is,
    * every other one is blamed on the new commit, and the body grows by the bytes of those others alone. */
  ghost predicate KeepsPlace(w: Weave, w': Weave, s: State, ids: seq<nat>, c: nat, anc: set<nat>, toks: seq<Token>,
          diff: Diff)
    requires IsDag(Graph(s)) && anc <= s.Keys
  {
    var s', ids' := Fold(s, c, anc, Some(toks), diff), ids + [c];
    && IsDag(Graph(s')) && anc + {c} <= s'.Keys && FoldedBy(s, s', c, anc, toks, diff)
    && var before, now := Visible(s, anc), Visible(s', anc + {c});
    var ps := KeptPairs(diff, TokensOf(s, before), toks);
    && (forall p | p in ps :: Unmoved(w, w', s, s', ids, ids', before[p.0], now[p.1]))
    && (forall y: nat | y < |toks| && !NewKept(ps, y) :: Blamed(w', s', ids', now[y]))
    && w'.body == w.body + Flatten(Unmatched(ps, toks, 0))
  }

  lemma {:induction false} FlattenMore(toks: seq<Token>, t: Token)
    ensures Flatten(toks + [t]) == Flatten(toks) + t.bytes
  {
    if toks == [] {
      assert [t][1..] == [] && toks + [t] == [t];
      assert t.bytes + [] == t.bytes && [] + t.bytes == t.bytes;
    } else {
      assert (toks + [t])[1..] == toks[1..] + [t];
      FlattenMore(toks[1..], t);
      assert toks[0].bytes + (Flatten(toks[1..]) + t.bytes) == toks[0].bytes + Flatten(toks[1..]) + t.bytes;
    }
  }

  /** What is written are the bytes of the nodes' tokens. */
  lemma {:induction false} WrittenIs(nodes: seq<Node>)
    ensures Written(nodes) == Flatten(ToksOf(nodes))
  {
    if nodes != [] {
      WrittenIs(nodes[..|nodes| - 1]);
      FlattenMore(ToksOf(nodes[..|nodes| - 1]), nodes[|nodes| - 1].tok);
    }
  }

  lemma PastStored(s: State, c: nat, anc: set<nat>, toks: seq<Token>, diff: Diff, x: Tid)
    requires CanFold(s, c, anc, Some(toks), diff)
    ensures IsDag(Graph(s)) && anc <= s.Keys
    ensures x in Visible(s, anc) ==> Has(s, x)
  {
    hide Plan, TokensOf, BytesOf, Aligns, Fits;
    BeforeFacts(s, c, anc, toks, diff);
  }

  /** A token of the new commit's own is blamed on it. */
  lemma OwnBlamed(w': Weave, s': State, ids: seq<nat>, c: nat, u: Tid)
    requires Represents(w', s', ids + [c]) && Has(s', u) && u.cid == c
    ensures Blamed(w', s', ids + [c], u)
  {
    hide Represents;
    RepBlame(w', s', ids + [c], u);
    LastPos(w', s', ids, c);
  }

  lemma LastPos(w': Weave, s': State, ids: seq<nat>, c: nat)
    requires Represents(w', s', ids + [c])
    ensures c in ids + [c] && Pos(ids + [c], c) == |ids|
  {
    PosUnique(ids + [c], |ids|);
  }

  /** The unmatched tokens up to one in no pair are fewer than all. */
  lemma {:induction false} UnmatchedBelow(ps: seq<(nat, nat)>, toks: seq<Token>, j: nat, y: nat)
    requires y < |toks| && !NewKept(ps, j + y)
    ensures |Unmatched(ps, toks[..y], j)| < |Unmatched(ps, toks, j)|
    decreases |toks|
  {
    hide NewKept;
    UnmatchedFirst(ps, toks, j);
    if y == 0 {
      UnmatchedNone(ps, j);
      assert toks[..0] == [];
    } else {
      UnmatchedFirst(ps, toks[..y], j);
      assert toks[..y][1..] == toks[1..][..y - 1];
      UnmatchedBelow(ps, toks[1..], j + 1, y - 1);
    }
  }

  lemma NewStored(s: State, s': State, c: nat, anc: set<nat>, toks: seq<Token>, diff: Diff, y: nat)
    requires IsDag(Graph(s)) && anc <= s.Keys && IsDag(Graph(s')) && anc + {c} <= s'.Keys
    requires FoldedBy(s, s', c, anc, toks, diff)
    requires y < |toks| && !NewKept(KeptPairs(diff, TokensOf(s, Visible(s, anc)), toks), y)
    ensures |Visible(s', anc + {c})| == |toks|
    ensures Has(s', Visible(s', anc + {c})[y]) && Visible(s', anc + {c})[y].cid == c
  {
    hide Visible, TokensOf, KeptPairs, NewKept, Unmatched, ToksOf, OldUnmatched;
    var ps := KeptPairs(diff, TokensOf(s, Visible(s, anc)), toks);
    assert 0 + y == y;
    UnmatchedBelow(ps, toks, 0, y);
  }

  /** Any two weaves before and after a fold, the second one longer by what the commit writes. */
  lemma FoldKeepsTokens(w: Weave, w': Weave, s: State, ids: seq<nat>, c: nat, anc: set<nat>, toks: seq<Token>,
          diff: Diff)
    requires CanFold(s, c, anc, Some(toks), diff) && Represents(w, s, ids)
    requires IsDag(Graph(s)) && anc <= s.Keys
    requires var r := Contribute(s, c, anc, Some(toks), diff);
      && Arrives(s, ids, c, r) && Represents(w', s[c := r], ids + [c]) && w'.body == w.body + Written(r.nodes)
    ensures KeepsPlace(w, w', s, ids, c, anc, toks, diff)
  {
    hide Represents, Visible, Contribute, CanFold, TokensOf, KeptPairs, NewKept, Unmatched, ToksOf, Written,
      OldUnmatched, Blamed, Unmoved;
    var r := Contribute(s, c, anc, Some(toks), diff);
    var s', ids' := s[c := r], ids + [c];
    FoldKeepsPairs(s, c, anc, toks, diff);
    WrittenIs(r.nodes);
    var before, now := Visible(s, anc), Visible(s', anc + {c});
    var ps := KeptPairs(diff, TokensOf(s, before), toks);
    forall p | p in ps
      ensures Unmoved(w, w', s, s', ids, ids', before[p.0], now[p.1])
    {
      PastStored(s, c, anc, toks, diff, before[p.0]);
      TokenUnmoved(w, w', s, ids, c, r, before[p.0]);
    }
    forall y: nat | y < |toks| && !NewKept(ps, y)
      ensures Blamed(w', s', ids', now[y])
    {
      NewStored(s, s', c, anc, toks, diff, y);
      OwnBlamed(w', s', ids, c, now[y]);
    }
  }

  lemma TokenUnmoved(w: Weave, w': Weave, s: State, ids: seq<nat>, c: nat, r: Rec, t: Tid)
    requires Represents(w, s, ids) && Represents(w', s[c := r], ids + [c]) && Arrives(s, ids, c, r) && Has(s, t)
    ensures Unmoved(w, w', s, s[c := r], ids, ids + [c], t, t)
  {
    hide Represents;
    TokensStay(w, w', s, ids, c, r, t);
  }
}
