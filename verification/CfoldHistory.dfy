/** Runs: histories folded commit by commit, and what every run promises. */
module CfoldHistory {
  import opened Common
  import opened TopoOrder
  import opened Rga
  import opened Script
  import opened CfoldModel
  import opened CfoldFold

  /** The diff: a script from the old tokens to the new ones. */
  type Diff = (seq<Token>, seq<Token>) -> seq<Edit>

  /** Every token has bytes. */
  ghost predicate Solid(toks: seq<Token>) {
    forall t | t in toks :: t.bytes != []
  }

  /** Kept tokens carry equal bytes, and both sides are consumed exactly. */
  ghost predicate GoodDiff(diff: Diff) {
    forall a: seq<Token>, b: seq<Token> | a != [] && b != [] && Solid(a) && Solid(b) ::
      Valid(diff(a, b), BytesOf(a), BytesOf(b))
  }

  /** The steps the writer takes: an empty side needs no diff. */
  ghost function Plan(diff: Diff, a: seq<Token>, b: seq<Token>): seq<Op> {
    if a == [] then Repeat(INS, |b|)
    else if b == [] then Repeat(DEL, |a|)
    else Units(diff(a, b))
  }

  /** What commit `c` adds over its causal past `anc`; a pure merge (no content) adds nothing. */
  ghost function Contribute(s: State, c: nat, anc: set<nat>, content: Option<seq<Token>>, diff: Diff): (r: Rec)
    requires IsDag(Graph(s)) && anc <= s.Keys
    ensures r.anc == anc
  {
    match content
    case None => Rec(anc, [], {})
    case Some(toks) =>
      var before := Visible(s, anc);
      var p := Patch(c, Plan(diff, TokensOf(s, before), toks), before, toks, Acc(Top, [], {}));
      Rec(anc, p.nodes, p.tombs)
  }

  // ---------- reading only what is in scope ----------

  ghost predicate Agree(s: State, t: State, a: set<nat>) {
    forall c | c in a :: c in s && c in t && s[c] == t[c]
  }

  lemma {:induction false} ListingFrame(s: State, t: State, order: seq<nat>)
    requires forall c | c in order :: c in s && c in t && s[c] == t[c]
    ensures Listing(s, order) == Listing(t, order)
  {
    if order != [] {
      ListingFrame(s, t, order[..|order| - 1]);
    }
  }

  lemma DocFrame(s: State, t: State, a: set<nat>)
    requires IsDag(Graph(s)) && IsDag(Graph(t)) && Agree(s, t, a)
    ensures a <= s.Keys && a <= t.Keys
    ensures Doc(s, a) == Doc(t, a)
  {
    assert forall c | c in a :: c in s.Keys && c in t.Keys;
    KahnElements(Graph(s), a);
    KahnElements(Graph(t), a);
    KahnFrame(Graph(s), Graph(t), a);
    var order := Kahn(Graph(s), a);
    ListingFrame(s, t, order);
    ListingElements(s, order);
    ReplayFrame(Listing(s, order), AnchorMap(s), AnchorMap(t));
  }

  lemma AliveFrame(s: State, t: State, a: set<nat>)
    requires Agree(s, t, a)
    ensures Tokens(s, a) == Tokens(t, a) && Alive(s, a) == Alive(t, a)
  {
    forall x
      ensures x in Tokens(s, a) <==> x in Tokens(t, a)
      ensures Tombed(s, a, x) <==> Tombed(t, a, x)
    {
    }
  }

  lemma {:induction false} TextFrame(s: State, t: State, d: seq<Tid>)
    requires forall x | x in d :: x.cid in s && x.cid in t && s[x.cid] == t[x.cid]
    ensures Text(s, d) == Text(t, d) && TokensOf(s, d) == TokensOf(t, d)
  {
    if d != [] {
      TextFrame(s, t, d[1..]);
    }
  }

  /** A scope's reading depends on the commits in scope only. */
  lemma ScopeFrame(s: State, t: State, a: set<nat>)
    requires Sound(s) && IsDag(Graph(t)) && Closed(Graph(s), a) && Agree(s, t, a)
    ensures a <= s.Keys && a <= t.Keys
    ensures Doc(s, a) == Doc(t, a) && Visible(s, a) == Visible(t, a) && Render(s, a) == Render(t, a)
    ensures TokensOf(s, Visible(s, a)) == TokensOf(t, Visible(s, a))
  {
    DocFrame(s, t, a);
    AliveFrame(s, t, a);
    DocElements(s, a);
    FilterElements(Doc(s, a), Alive(s, a));
    TextFrame(s, t, Visible(s, a));
  }

  lemma ContributeFrame(s: State, t: State, c: nat, anc: set<nat>, content: Option<seq<Token>>, diff: Diff)
    requires Sound(s) && IsDag(Graph(t)) && Closed(Graph(s), anc) && Agree(s, t, anc)
    ensures anc <= s.Keys && anc <= t.Keys
    ensures Contribute(s, c, anc, content, diff) == Contribute(t, c, anc, content, diff)
  {
    ScopeFrame(s, t, anc);
  }

  // ---------- one fold ----------

  lemma {:induction false} BytesOfLength(a: seq<Token>)
    ensures |BytesOf(a)| == |a|
    ensures forall i | 0 <= i < |a| :: BytesOf(a)[i] == a[i].bytes
  {
    if a != [] {
      BytesOfLength(a[1..]);
    }
  }

  lemma {:induction false} TokensOfLength(s: State, d: seq<Tid>)
    ensures |TokensOf(s, d)| == |d|
    ensures forall i | 0 <= i < |d| :: TokensOf(s, d)[i] == Tok(s, d[i])
  {
    if d != [] {
      TokensOfLength(s, d[1..]);
    }
  }

  lemma {:induction false} AlignsFits<T>(u: seq<Op>, a: seq<T>, b: seq<T>)
    requires Aligns(u, a, b)
    ensures Fits(u, |a|, |b|)
  {
    if u != [] {
      match u[0]
      case EQ => AlignsFits(u[1..], a[1..], b[1..]);
      case DEL => AlignsFits(u[1..], a[1..], b);
      case INS => AlignsFits(u[1..], a, b[1..]);
    }
  }

  lemma PlanAligns(diff: Diff, a: seq<Token>, b: seq<Token>)
    requires GoodDiff(diff) && Solid(a) && Solid(b)
    ensures Aligns(Plan(diff, a, b), BytesOf(a), BytesOf(b))
  {
    BytesOfLength(a);
    BytesOfLength(b);
    if a == [] {
      AllInserted(|b|, BytesOf(b));
    } else if b == [] {
      AllDeleted(|a|, BytesOf(a));
    }
  }

  /** The fold's ingredients are as they should be. */
  ghost predicate CanFold(s: State, c: nat, anc: set<nat>, content: Option<seq<Token>>, diff: Diff) {
    && Sound(s) && c !in s && Closed(Graph(s), anc) && GoodDiff(diff)
    && (content.Some? ==> forall t | t in content.value :: t.bytes != [])
  }

  ghost function Fold(s: State, c: nat, anc: set<nat>, content: Option<seq<Token>>, diff: Diff): State
    requires IsDag(Graph(s)) && anc <= s.Keys
  {
    s[c := Contribute(s, c, anc, content, diff)]
  }

  lemma {:induction false} SeenSolid(s: State, d: seq<Tid>)
    requires forall x | x in d :: Has(s, x) && TokenOk(s, x)
    ensures Solid(TokensOf(s, d))
  {
    if d != [] {
      assert TokenOk(s, d[0]);
      SeenSolid(s, d[1..]);
    }
  }

  /** What every use of the patch behind a content fold needs. */
  lemma BeforeFacts(s: State, c: nat, anc: set<nat>, toks: seq<Token>, diff: Diff)
    requires CanFold(s, c, anc, Some(toks), diff)
    ensures var before := Visible(s, anc);
      && NoDup(before)
      && (forall x | x in before :: x in Alive(s, anc) && Has(s, x) && x.cid in anc && x.cid != c)
      && Aligns(Plan(diff, TokensOf(s, before), toks), BytesOf(TokensOf(s, before)), BytesOf(toks))
      && Fits(Plan(diff, TokensOf(s, before), toks), |before|, |toks|)
  {
    var before := Visible(s, anc);
    DocElements(s, anc);
    FilterElements(Doc(s, anc), Alive(s, anc));
    FilterNoDup(Doc(s, anc), Alive(s, anc));
    SeenSolid(s, before);
    PlanAligns(diff, TokensOf(s, before), toks);
    AlignsFits(Plan(diff, TokensOf(s, before), toks), BytesOf(TokensOf(s, before)), BytesOf(toks));
    BytesOfLength(TokensOf(s, before));
    TokensOfLength(s, before);
    BytesOfLength(toks);
  }

  /** The new record hangs off its causal past, each anchor used once. */
  lemma ContributeSound(s: State, c: nat, anc: set<nat>, content: Option<seq<Token>>, diff: Diff)
    requires CanFold(s, c, anc, content, diff)
    ensures var r := Contribute(s, c, anc, content, diff);
      && AnchorsIn(r.nodes, c, Tokens(s, anc))
      && Distinct(r.nodes)
      && r.tombs <= Tokens(s, anc)
      && forall k | 0 <= k < |r.nodes| :: r.nodes[k].tok.bytes != []
  {
    if content.Some? {
      var toks := content.value;
      BeforeFacts(s, c, anc, toks, diff);
      var before := Visible(s, anc);
      var u := Plan(diff, TokensOf(s, before), toks);
      var acc := Acc(Top, [], {});
      KeptElements(u, before);
      PatchGrows(c, u, before, toks, acc);
      PatchAnchors(c, u, before, toks, acc, Tokens(s, anc));
      PatchDistinct(c, u, before, toks, acc);
      var r := Patch(c, u, before, toks, acc);
      forall k | 0 <= k < |r.nodes|
        ensures r.nodes[k].tok.bytes != []
      {
        PatchTokens(c, u, before, toks, acc, k);
      }
    }
  }

  lemma FoldGraph(s: State, c: nat, anc: set<nat>, r: Rec)
    requires IsDag(Graph(s)) && c !in s && Closed(Graph(s), anc) && r.anc == anc
    ensures IsDag(Graph(s[c := r]))
    ensures Graph(s[c := r]) == Graph(s)[c := anc]
  {
    var g, h := Graph(s), Graph(s[c := r]);
    assert h == g[c := anc];
    forall x | x in h
      ensures DagAt(h, x)
    {
      if x == c {
        assert forall a | a in anc :: h[a] == g[a];
      } else {
        assert DagAt(g, x);
        assert forall a | a in g[x] :: a in g && h[a] == g[a];
      }
    }
  }

  lemma FoldTokens(s: State, c: nat, anc: set<nat>, r: Rec, t: Tid)
    requires Sound(s) && c !in s && r.anc == anc && AnchorsIn(r.nodes, c, Tokens(s, anc))
    requires forall k | 0 <= k < |r.nodes| :: r.nodes[k].tok.bytes != []
    requires Has(s[c := r], t)
    ensures TokenOk(s[c := r], t)
  {
    if t.cid == c {
      assert AnchorIn(r.nodes[t.ord].anchor, c, t.ord, Tokens(s, anc));
    } else {
      assert Has(s, t) && TokenOk(s, t);
    }
  }

  lemma FoldRec(s: State, c: nat, anc: set<nat>, r: Rec, x: nat)
    requires Sound(s) && c !in s && r.anc == anc && Distinct(r.nodes) && r.tombs <= Tokens(s, anc)
    requires x in s[c := r]
    ensures RecOk(s[c := r], x)
  {
    if x == c {
      forall t | t in r.tombs
        ensures Has(s[c := r], t) && t.cid in anc
      {
        assert t in Tokens(s, anc);
      }
    } else {
      assert RecOk(s, x);
    }
  }

  lemma FoldSound(s: State, c: nat, anc: set<nat>, content: Option<seq<Token>>, diff: Diff)
    requires CanFold(s, c, anc, content, diff)
    ensures Sound(Fold(s, c, anc, content, diff))
  {
    var r := Contribute(s, c, anc, content, diff);
    var s' := s[c := r];
    ContributeSound(s, c, anc, content, diff);
    FoldGraph(s, c, anc, r);
    forall t | Has(s', t)
      ensures TokenOk(s', t)
    {
      FoldTokens(s, c, anc, r, t);
    }
    forall x | x in s'
      ensures RecOk(s', x)
    {
      FoldRec(s, c, anc, r, x);
    }
  }

  lemma {:induction false} ReplayOwn(n: seq<Tid>, am: Anchors, c: nat, nodes: seq<Node>)
    requires forall k | 0 <= k < |nodes| :: am(Tid(c, k)) == nodes[k].anchor
    ensures Replay(n + Own(c, |nodes|), am) == InsertOwn(Replay(n, am), c, nodes)
    decreases |nodes|
  {
    if nodes == [] {
      assert n + [] == n;
    } else {
      var k := |nodes| - 1;
      ReplayOwn(n, am, c, nodes[..k]);
      var m := n + Own(c, k);
      var all := n + Own(c, |nodes|);
      assert all == m + [Tid(c, k)];
      assert all[..|all| - 1] == m;
    }
  }

  lemma FoldListing(s: State, c: nat, anc: set<nat>, r: Rec)
    requires IsDag(Graph(s)) && c !in s && Closed(Graph(s), anc) && r.anc == anc
    ensures var s' := s[c := r];
      && IsDag(Graph(s')) && anc + {c} <= s'.Keys && anc <= s'.Keys
      && (forall x | x in Kahn(Graph(s'), anc) :: x in s')
      && (forall x | x in Kahn(Graph(s'), anc + {c}) :: x in s')
      && Listing(s', Kahn(Graph(s'), anc + {c})) == Listing(s', Kahn(Graph(s'), anc)) + Own(c, |r.nodes|)
  {
    var s' := s[c := r];
    FoldGraph(s, c, anc, r);
    var g := Graph(s');
    KahnLast(g, anc, c);
    KahnElements(g, anc);
    KahnElements(g, anc + {c});
    ListingSnoc(s', Kahn(g, anc), c);
  }

  /** Seen from a new commit, the document is its past's with its own tokens replayed on top. */
  lemma FoldDoc(s: State, c: nat, anc: set<nat>, r: Rec)
    requires IsDag(Graph(s)) && c !in s && Closed(Graph(s), anc) && r.anc == anc
    ensures var s' := s[c := r];
      IsDag(Graph(s')) && anc + {c} <= s'.Keys
      && Doc(s', anc + {c}) == InsertOwn(Doc(s, anc), c, r.nodes)
  {
    var s' := s[c := r];
    FoldListing(s, c, anc, r);
    var order := Kahn(Graph(s'), anc);
    DocFrame(s, s', anc);
    assert Doc(s', anc) == Replay(Listing(s', order), AnchorMap(s'));
    forall k | 0 <= k < |r.nodes|
      ensures AnchorMap(s')(Tid(c, k)) == r.nodes[k].anchor
    {
      assert Has(s', Tid(c, k));
    }
    ReplayOwn(Listing(s', order), AnchorMap(s'), c, r.nodes);
  }

  // ---------- reading back what was folded ----------

  ghost function Flatten(toks: seq<Token>): seq<Byte> {
    if toks == [] then [] else toks[0].bytes + Flatten(toks[1..])
  }

  lemma {:induction false} FilterInsertOwn(d: seq<Tid>, c: nat, nodes: seq<Node>, keep: set<Tid>)
    requires forall k | 0 <= k < |nodes| :: Tid(c, k) in keep
    requires forall k | 0 <= k < |nodes| && nodes[k].anchor.After? :: nodes[k].anchor.t in keep
    ensures Filter(InsertOwn(d, c, nodes), keep) == InsertOwn(Filter(d, keep), c, nodes)
    decreases |nodes|
  {
    if nodes != [] {
      var k := |nodes| - 1;
      FilterInsertOwn(d, c, nodes[..k], keep);
      FilterInsert(InsertOwn(d, c, nodes[..k]), nodes[k].anchor, Tid(c, k), keep);
    }
  }

  /** The merged document spells the new file: kept tokens by equal bytes, added ones literally. */
  lemma {:induction false} TextMerged(s: State, t: State, c: nat, u: seq<Op>, before: seq<Tid>, toks: seq<Token>,
          acc: Acc)
    requires Aligns(u, BytesOf(TokensOf(s, before)), BytesOf(toks))
    requires c in t && Patch(c, u, before, toks, acc).nodes == t[c].nodes
    requires forall x | x in before :: Has(s, x) && Has(t, x) && Bytes(t, x) == Bytes(s, x)
    ensures Text(t, Merged(c, u, before, |acc.nodes|)) == Flatten(toks)
    decreases |u|
  {
    BytesOfLength(TokensOf(s, before));
    TokensOfLength(s, before);
    BytesOfLength(toks);
    if u != [] {
      match u[0]
      case EQ =>
        TextMerged(s, t, c, u[1..], before[1..], toks[1..], acc.(anchor := After(before[0])));
      case DEL =>
        TextMerged(s, t, c, u[1..], before[1..], toks, acc.(tombs := acc.tombs + {before[0]}));
      case INS =>
        var acc' := Added(c, toks[0], acc);
        AlignsFits(u[1..], BytesOf(TokensOf(s, before)), BytesOf(toks[1..]));
        BytesOfLength(toks[1..]);
        PatchGrows(c, u[1..], before, toks[1..], acc');
        assert t[c].nodes[|acc.nodes|] == acc'.nodes[|acc.nodes|];
        TextMerged(s, t, c, u[1..], before, toks[1..], acc');
    }
  }

  /** What the new commit's scope keeps of its past: exactly the tokens the script kept. */
  lemma FoldKeeps(s: State, c: nat, anc: set<nat>, toks: seq<Token>, diff: Diff)
    requires CanFold(s, c, anc, Some(toks), diff)
    ensures var s' := Fold(s, c, anc, Some(toks), diff);
      var before := Visible(s, anc);
      var u := Plan(diff, TokensOf(s, before), toks);
      Filter(Doc(s, anc), Alive(s', anc + {c})) == Kept(u, before)
      && forall x | x in Kept(u, before) :: x in Alive(s', anc + {c})
  {
    var s' := Fold(s, c, anc, Some(toks), diff);
    var before := Visible(s, anc);
    var u := Plan(diff, TokensOf(s, before), toks);
    BeforeFacts(s, c, anc, toks, diff);
    PatchGrows(c, u, before, toks, Acc(Top, [], {}));
    assert s'[c].tombs == Dropped(u, before);
    var old_, now := Alive(s, anc), Alive(s', anc + {c});
    forall x | x in Tokens(s, anc)
      ensures x in now <==> x in old_ && x !in Dropped(u, before)
    {
      assert Has(s', x) && x in Tokens(s', anc + {c});
      assert Tombed(s', anc + {c}, x) <==> Tombed(s, anc, x) || x in Dropped(u, before);
    }
    DocElements(s, anc);
    FilterTwice(Doc(s, anc), old_, now);
    FilterAgree(Doc(s, anc), now, old_ * now);
    KeptIsFilter(u, before, |toks|, now);
    FilterElements(before, now);
  }

  /** Recovery, one fold: the new commit's scope shows exactly the folded file. */
  lemma FoldRecovers(s: State, c: nat, anc: set<nat>, toks: seq<Token>, diff: Diff)
    requires CanFold(s, c, anc, Some(toks), diff)
    ensures var s' := Fold(s, c, anc, Some(toks), diff);
      IsDag(Graph(s')) && anc + {c} <= s'.Keys && Render(s', anc + {c}) == Flatten(toks)
  {
    var s' := Fold(s, c, anc, Some(toks), diff);
    var before := Visible(s, anc);
    var u := Plan(diff, TokensOf(s, before), toks);
    var acc := Acc(Top, [], {});
    BeforeFacts(s, c, anc, toks, diff);
    FoldShows(s, c, anc, toks, diff);
    TextMerged(s, s', c, u, before, toks, acc);
  }

  lemma MidwayStart(c: nat, base: seq<Tid>)
    requires NoDup(base) && forall x | x in base :: x.cid != c
    ensures Midway(c, Acc(Top, [], {}), base, [], base)
  {
    assert [] + base == base;
  }

  /** The new commit's scope shows the script's merged document. */
  lemma FoldShows(s: State, c: nat, anc: set<nat>, toks: seq<Token>, diff: Diff)
    requires CanFold(s, c, anc, Some(toks), diff)
    ensures var s' := Fold(s, c, anc, Some(toks), diff);
      var before := Visible(s, anc);
      IsDag(Graph(s')) && anc + {c} <= s'.Keys
      && Visible(s', anc + {c}) == Merged(c, Plan(diff, TokensOf(s, before), toks), before, 0)
  {
    hide Doc, Plan, Patch, Kept, Merged, InsertOwn, Filter, Alive, Fits, Aligns, Midway, BytesOf, TokensOf;
    var s' := Fold(s, c, anc, Some(toks), diff);
    var before := Visible(s, anc);
    var u := Plan(diff, TokensOf(s, before), toks);
    var nodes, keep := s'[c].nodes, Alive(s', anc + {c});
    BeforeFacts(s, c, anc, toks, diff);
    FoldDoc(s, c, anc, s'[c]);
    FoldKeeps(s, c, anc, toks, diff);
    FoldOwnAlive(s, c, anc, toks, diff);
    FilterInsertOwn(Doc(s, anc), c, nodes, keep);
    KeptElements(u, before);
    MidwayStart(c, Kept(u, before));
    PatchReplay(c, u, before, toks, Acc(Top, [], {}), Kept(u, before), []);
  }

  /** No tomb of the past, nor of the commit itself, names a token the commit inserts. */
  lemma FoldOwnUntombed(s: State, c: nat, anc: set<nat>, r: Rec, k: nat)
    requires Sound(s) && c !in s && r.tombs <= Tokens(s, anc)
    ensures !Tombed(s[c := r], anc + {c}, Tid(c, k))
  {
    forall x | x in anc + {c} && x in s[c := r]
      ensures Tid(c, k) !in s[c := r][x].tombs
    {
      if x != c {
        assert RecOk(s, x);
      }
    }
  }

  lemma FoldOwnAlive(s: State, c: nat, anc: set<nat>, toks: seq<Token>, diff: Diff)
    requires CanFold(s, c, anc, Some(toks), diff)
    ensures var s' := Fold(s, c, anc, Some(toks), diff);
      var keep := Alive(s', anc + {c});
      && (forall k | 0 <= k < |s'[c].nodes| :: Tid(c, k) in keep)
      && (forall k | 0 <= k < |s'[c].nodes| && s'[c].nodes[k].anchor.After? :: s'[c].nodes[k].anchor.t in keep)
  {
    var s' := Fold(s, c, anc, Some(toks), diff);
    var before := Visible(s, anc);
    var u := Plan(diff, TokensOf(s, before), toks);
    var keep := Alive(s', anc + {c});
    BeforeFacts(s, c, anc, toks, diff);
    FoldKeeps(s, c, anc, toks, diff);
    ContributeSound(s, c, anc, Some(toks), diff);
    forall k | 0 <= k < |s'[c].nodes|
      ensures Tid(c, k) in keep
    {
      FoldOwnUntombed(s, c, anc, s'[c], k);
    }
    var kept := set x | x in Kept(u, before);
    PatchAnchors(c, u, before, toks, Acc(Top, [], {}), kept);
    forall k | 0 <= k < |s'[c].nodes| && s'[c].nodes[k].anchor.After?
      ensures s'[c].nodes[k].anchor.t in keep
    {
      assert AnchorIn(s'[c].nodes[k].anchor, c, k, kept);
    }
  }

  // ---------- histories ----------

  /** A commit of a history: its causal past, and the file it carries (none for a pure merge). */
  datatype Commit = Commit(anc: set<nat>, content: Option<seq<Token>>)

  type History = map<nat, Commit>

  ghost function Past(h: History): Dag {
    map c | c in h :: h[c].anc
  }

  ghost predicate GoodHistory(h: History) {
    && IsDag(Past(h))
    && forall c, t | c in h && h[c].content.Some? && t in h[c].content.value :: t.bytes != []
  }

  /** Commits are folded in an order that respects ancestry, each once. */
  ghost predicate Folding(h: History, order: seq<nat>) {
    && NoDup(order)
    && (forall c | c in order :: c in h)
    && Causal(Past(h), order)
  }

  /** The state after folding the history's commits in the given order. */
  ghost function Run(h: History, diff: Diff, order: seq<nat>): (s: State)
    requires GoodHistory(h) && Folding(h, order)
    ensures forall c | c in s :: c in order
    ensures forall c | c in order :: c in s
    ensures forall c | c in s :: s[c].anc == h[c].anc
    ensures IsDag(Graph(s))
  {
    if order == [] then map[]
    else
      var c, rest := order[|order| - 1], order[..|order| - 1];
      FoldingPrefix(h, order);
      var s := Run(h, diff, rest);
      PastClosed(h, c, s);
      var r := Contribute(s, c, h[c].anc, h[c].content, diff);
      FoldGraph(s, c, h[c].anc, r);
      s[c := r]
  }

  lemma FoldingPrefix(h: History, order: seq<nat>)
    requires Folding(h, order) && order != []
    ensures var c, rest := order[|order| - 1], order[..|order| - 1];
      Folding(h, rest) && c in h && c !in rest && forall a | a in h[c].anc :: a in rest
  {
    CausalPrefix(Past(h), order);
  }

  lemma PastClosed(h: History, c: nat, s: State)
    requires GoodHistory(h) && c in h
    requires forall x | x in s :: x in h && s[x].anc == h[x].anc
    requires forall a | a in h[c].anc :: a in s
    ensures Closed(Graph(s), h[c].anc)
  {
    forall a | a in h[c].anc
      ensures a in Graph(s) && Graph(s)[a] <= h[c].anc
    {
      assert DagAt(Past(h), c);
      assert Past(h)[a] <= Past(h)[c];
    }
  }

  lemma {:induction false} RunSound(h: History, diff: Diff, order: seq<nat>)
    requires GoodHistory(h) && GoodDiff(diff) && Folding(h, order)
    ensures Sound(Run(h, diff, order))
  {
    if order != [] {
      var c, rest := order[|order| - 1], order[..|order| - 1];
      FoldingPrefix(h, order);
      RunSound(h, diff, rest);
      var s := Run(h, diff, rest);
      PastClosed(h, c, s);
      FoldSound(s, c, h[c].anc, h[c].content, diff);
    }
  }

  /** What a commit sees: its past and itself. */
  ghost function Scope(h: History, c: nat): set<nat>
    requires c in h
  {
    h[c].anc + {c}
  }

  lemma ScopeClosed(h: History, c: nat, s: State)
    requires GoodHistory(h) && c in s
    requires forall x | x in s :: x in h && s[x].anc == h[x].anc
    requires forall a | a in h[c].anc :: a in s
    ensures Closed(Graph(s), Scope(h, c))
  {
    PastClosed(h, c, s);
  }

  lemma RunHasPast(h: History, diff: Diff, order: seq<nat>, c: nat)
    requires GoodHistory(h) && Folding(h, order) && c in order
    ensures c in Run(h, diff, order)
    ensures forall a | a in h[c].anc :: a in Run(h, diff, order)
    ensures Closed(Graph(Run(h, diff, order)), Scope(h, c))
  {
    var i :| 0 <= i < |order| && order[i] == c;
    assert CausalAt(Past(h), order, i);
    ScopeClosed(h, c, Run(h, diff, order));
  }

  /** Immutability: folding one more commit changes no older commit's document, alive tokens or text. */
  lemma RunImmutable(h: History, diff: Diff, order: seq<nat>, c: nat, next: nat)
    requires GoodHistory(h) && GoodDiff(diff) && Folding(h, order) && Folding(h, order + [next])
    requires c in order
    ensures var s, t := Run(h, diff, order), Run(h, diff, order + [next]);
      && Scope(h, c) <= s.Keys && Scope(h, c) <= t.Keys
      && Doc(s, Scope(h, c)) == Doc(t, Scope(h, c))
      && Visible(s, Scope(h, c)) == Visible(t, Scope(h, c))
      && Render(s, Scope(h, c)) == Render(t, Scope(h, c))
  {
    var s, t := Run(h, diff, order), Run(h, diff, order + [next]);
    RunSound(h, diff, order);
    RunHasPast(h, diff, order, c);
    FoldingPrefix(h, order + [next]);
    assert (order + [next])[..|order|] == order;
    ScopeFrame(s, t, Scope(h, c));
  }

  /** Recovery: after any run, every content commit still shows, byte for byte, the file folded there. */
  lemma {:induction false} RunRecovers(h: History, diff: Diff, order: seq<nat>, c: nat)
    requires GoodHistory(h) && GoodDiff(diff) && Folding(h, order)
    requires c in order && h[c].content.Some?
    ensures Scope(h, c) <= Run(h, diff, order).Keys
    ensures Render(Run(h, diff, order), Scope(h, c)) == Flatten(h[c].content.value)
    decreases |order|
  {
    var last, rest := order[|order| - 1], order[..|order| - 1];
    if c == last {
      RunRecoversLast(h, diff, order);
    } else {
      FoldingPrefix(h, order);
      assert order == rest + [last];
      RunRecovers(h, diff, rest, c);
      RunImmutable(h, diff, rest, c, last);
    }
  }

  lemma RunRecoversLast(h: History, diff: Diff, order: seq<nat>)
    requires GoodHistory(h) && GoodDiff(diff) && Folding(h, order)
    requires order != [] && h[order[|order| - 1]].content.Some?
    ensures Scope(h, order[|order| - 1]) <= Run(h, diff, order).Keys
    ensures Render(Run(h, diff, order), Scope(h, order[|order| - 1])) == Flatten(h[order[|order| - 1]].content.value)
  {
    var c, rest := order[|order| - 1], order[..|order| - 1];
    FoldingPrefix(h, order);
    RunSound(h, diff, rest);
    var s := Run(h, diff, rest);
    PastClosed(h, c, s);
    FoldRecovers(s, c, h[c].anc, h[c].content.value, diff);
  }

  // ---------- arrival order does not matter ----------

  lemma CanonGraph(h: History, c: nat, s: State)
    requires GoodHistory(h) && c in h && s.Keys == h[c].anc
    requires forall a | a in s :: a in h && s[a].anc == h[a].anc
    ensures IsDag(Graph(s)) && Closed(Graph(s), h[c].anc)
  {
    PastClosed(h, c, s);
    assert DagAt(Past(h), c);
    forall a | a in s
      ensures DagAt(Graph(s), a)
    {
      assert DagAt(Past(h), a);
      assert Past(h)[a] <= Past(h)[c];
      assert forall b | b in Past(h)[a] :: Graph(s)[b] == Past(h)[b];
    }
  }

  lemma PastSmaller(h: History, c: nat)
    requires GoodHistory(h) && c in h
    ensures forall a | a in h[c].anc :: a in h && h[a].anc < h[c].anc
  {
    assert DagAt(Past(h), c);
    forall a | a in h[c].anc
      ensures a in h && h[a].anc < h[c].anc
    {
      assert DagAt(Past(h), a);
      assert Past(h)[a] <= Past(h)[c];
    }
  }

  /** A commit's record as its own past determines it. */
  ghost function Canon(h: History, diff: Diff, c: nat): (r: Rec)
    requires GoodHistory(h) && c in h
    ensures r.anc == h[c].anc
    decreases h[c].anc
  {
    PastSmaller(h, c);
    var s := map a | a in h[c].anc :: Canon(h, diff, a);
    CanonGraph(h, c, s);
    Contribute(s, c, h[c].anc, h[c].content, diff)
  }

  /** Every run gives each commit its canonical record. */
  lemma {:induction false} RunIsCanon(h: History, diff: Diff, order: seq<nat>, c: nat)
    requires GoodHistory(h) && GoodDiff(diff) && Folding(h, order) && c in order
    ensures Run(h, diff, order)[c] == Canon(h, diff, c)
    decreases |order|
  {
    var last, rest := order[|order| - 1], order[..|order| - 1];
    FoldingPrefix(h, order);
    var s := Run(h, diff, rest);
    if c == last {
      PastSmaller(h, c);
      var t: State := map a | a in h[c].anc :: Canon(h, diff, a);
      CanonGraph(h, c, t);
      forall a | a in h[c].anc
        ensures s[a] == t[a]
      {
        RunIsCanon(h, diff, rest, a);
      }
      RunSound(h, diff, rest);
      PastClosed(h, c, s);
      ContributeFrame(s, t, c, h[c].anc, h[c].content, diff);
    } else {
      RunIsCanon(h, diff, rest, c);
    }
  }

  /** Convergence: folding the same commits in any two causal orders gives the same state. */
  lemma RunsConverge(h: History, diff: Diff, p: seq<nat>, q: seq<nat>)
    requires GoodHistory(h) && GoodDiff(diff) && Folding(h, p) && Folding(h, q)
    requires forall c :: c in p <==> c in q
    ensures Run(h, diff, p) == Run(h, diff, q)
  {
    var s, t := Run(h, diff, p), Run(h, diff, q);
    forall c | c in s
      ensures c in t && s[c] == t[c]
    {
      RunIsCanon(h, diff, p, c);
      RunIsCanon(h, diff, q, c);
    }
    assert s.Keys == t.Keys;
  }
}
