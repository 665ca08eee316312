/** The weave's meaning, independent of arrival order and of body offsets.
  *
  * Each folded commit contributes inserted tokens with their anchors, and tombs for the
  * tokens it dropped.  A document is the replay of the visible commits' tokens; its text is
  * what no visible tomb hides.
  */
module CfoldModel {
  import opened Common
  import opened TopoOrder
  import opened Rga
  import opened Script

  datatype Token = Token(tag: nat, bytes: seq<Byte>)

  datatype Node = Node(anchor: Anchor, tok: Token)

  /** One commit: its whole causal past, the tokens it inserted, the tokens it dropped. */
  datatype Rec = Rec(anc: set<nat>, nodes: seq<Node>, tombs: set<Tid>)

  type State = map<nat, Rec>

  ghost function Graph(s: State): Dag {
    map c | c in s :: s[c].anc
  }

  ghost predicate Has(s: State, t: Tid) {
    t.cid in s && t.ord < |s[t.cid].nodes|
  }

  /** The tokens inserted by the commits of `a`. */
  ghost function Tokens(s: State, a: set<nat>): set<Tid> {
    set c, k | c in a && c in s && 0 <= k < |s[c].nodes| :: Tid(c, k)
  }

  ghost function AnchorOf(s: State, t: Tid): Anchor {
    if Has(s, t) then s[t.cid].nodes[t.ord].anchor else Top
  }

  ghost function AnchorMap(s: State): Anchors {
    (t: Tid) => AnchorOf(s, t)
  }

  ghost function Bytes(s: State, t: Tid): seq<Byte> {
    if Has(s, t) then s[t.cid].nodes[t.ord].tok.bytes else []
  }

  ghost function Text(s: State, d: seq<Tid>): seq<Byte> {
    if d == [] then [] else Bytes(s, d[0]) + Text(s, d[1..])
  }

  /** The first `n` tokens of commit `c`. */
  ghost function Own(c: nat, n: nat): (r: seq<Tid>) {
    if n == 0 then [] else Own(c, n - 1) + [Tid(c, n - 1)]
  }

  /** The tokens of the listed commits, in replay order. */
  ghost function Listing(s: State, order: seq<nat>): seq<Tid>
    requires forall c | c in order :: c in s
  {
    if order == [] then []
    else
      var c := order[|order| - 1];
      Listing(s, order[..|order| - 1]) + Own(c, |s[c].nodes|)
  }

  /** A token is not empty, and its anchor is in the causal past or earlier in the same commit. */
  ghost predicate TokenOk(s: State, t: Tid)
    requires Has(s, t)
  {
    var a := s[t.cid].nodes[t.ord].anchor;
    && |Bytes(s, t)| > 0
    && (a.After? ==> Has(s, a.t) && (a.t.cid in s[t.cid].anc || (a.t.cid == t.cid && a.t.ord < t.ord)))
  }

  /** No two tokens of a commit share an anchor; its tombs name tokens of its causal past. */
  ghost predicate RecOk(s: State, c: nat)
    requires c in s
  {
    && (forall j, k | 0 <= j < k < |s[c].nodes| :: s[c].nodes[j].anchor != s[c].nodes[k].anchor)
    && (forall t | t in s[c].tombs :: Has(s, t) && t.cid in s[c].anc)
  }

  ghost predicate Sound(s: State) {
    && IsDag(Graph(s))
    && (forall t {:trigger TokenOk(s, t)} | Has(s, t) :: TokenOk(s, t))
    && (forall c {:trigger RecOk(s, c)} | c in s :: RecOk(s, c))
  }

  ghost function Doc(s: State, a: set<nat>): seq<Tid>
    requires IsDag(Graph(s)) && a <= s.Keys
  {
    KahnElements(Graph(s), a);
    var n := Listing(s, Kahn(Graph(s), a));
    Replay(n, AnchorMap(s))
  }

  ghost predicate Tombed(s: State, a: set<nat>, t: Tid) {
    exists c :: c in a && c in s && t in s[c].tombs
  }

  /** The tokens of `a` that no tomb of `a` hides. */
  ghost function Alive(s: State, a: set<nat>): set<Tid> {
    set t | t in Tokens(s, a) && !Tombed(s, a, t)
  }

  /** What the commits of `a` together show, in document order. */
  ghost function Visible(s: State, a: set<nat>): seq<Tid>
    requires IsDag(Graph(s)) && a <= s.Keys
  {
    Filter(Doc(s, a), Alive(s, a))
  }

  ghost function Render(s: State, a: set<nat>): seq<Byte>
    requires IsDag(Graph(s)) && a <= s.Keys
  {
    Text(s, Visible(s, a))
  }

  // ---------- listings ----------

  lemma {:induction false} OwnElements(c: nat, n: nat)
    ensures forall t | t in Own(c, n) :: t.cid == c && t.ord < n
    ensures forall k | 0 <= k < n :: Tid(c, k) in Own(c, n)
    ensures NoDup(Own(c, n)) && |Own(c, n)| == n
  {
    if n > 0 {
      OwnElements(c, n - 1);
    }
  }

  lemma {:induction false} ListingElements(s: State, order: seq<nat>)
    requires forall c | c in order :: c in s
    ensures forall t | t in Listing(s, order) :: Has(s, t) && t.cid in order
    ensures forall t | Has(s, t) && t.cid in order :: t in Listing(s, order)
    ensures NoDup(order) ==> NoDup(Listing(s, order))
  {
    if order != [] {
      var c, rest := order[|order| - 1], order[..|order| - 1];
      ListingElements(s, rest);
      OwnElements(c, |s[c].nodes|);
      if NoDup(order) {
        assert c !in rest;
      }
    }
  }

  lemma ListingSnoc(s: State, order: seq<nat>, c: nat)
    requires c in s && forall x | x in order :: x in s
    ensures Listing(s, order + [c]) == Listing(s, order) + Own(c, |s[c].nodes|)
  {
    assert (order + [c])[..|order|] == order;
  }

  lemma {:induction false} ListingFilter(s: State, order: seq<nat>, b: set<nat>)
    requires forall c | c in order :: c in s
    ensures forall c | c in Filter(order, b) :: c in s
    ensures Filter(Listing(s, order), Tokens(s, b)) == Listing(s, Filter(order, b))
  {
    if order != [] {
      var c, rest := order[|order| - 1], order[..|order| - 1];
      assert order == rest + [c];
      ListingFilter(s, rest, b);
      OwnElements(c, |s[c].nodes|);
      var own := Own(c, |s[c].nodes|);
      FilterConcat(Listing(s, rest), own, Tokens(s, b));
      FilterSnoc(rest, c, b);
      if c in b {
        FilterAll(own, Tokens(s, b));
        ListingSnoc(s, Filter(rest, b), c);
      } else {
        FilterNone(own, Tokens(s, b));
        assert Filter(Listing(s, rest), Tokens(s, b)) + [] == Filter(Listing(s, rest), Tokens(s, b));
      }
    }
  }

  // ---------- documents ----------

  /** Every commit is listed after all its ancestors. */
  ghost predicate Causal(g: Dag, order: seq<nat>) {
    forall i {:trigger CausalAt(g, order, i)} | 0 <= i < |order| :: CausalAt(g, order, i)
  }

  ghost predicate CausalAt(g: Dag, order: seq<nat>, i: nat)
    requires i < |order|
  {
    order[i] in g ==> forall a | a in g[order[i]] :: a in order[..i]
  }

  lemma KahnIsCausal(g: Dag, a: set<nat>)
    requires IsDag(g) && Closed(g, a)
    ensures Causal(g, Kahn(g, a))
  {
    var k := Kahn(g, a);
    KahnElements(g, a);
    forall i | 0 <= i < |k|
      ensures CausalAt(g, k, i)
    {
      assert k[i] in k;
      forall x | x in g[k[i]]
        ensures x in k[..i]
      {
        assert x in a;
        var j :| 0 <= j < |k| && k[j] == x;
        KahnCausal(g, a, j, i);
      }
    }
  }

  lemma CausalPrefix(g: Dag, order: seq<nat>)
    requires Causal(g, order) && order != []
    ensures var c, rest := order[|order| - 1], order[..|order| - 1];
      Causal(g, rest) && (c in g ==> forall a | a in g[c] :: a in rest)
  {
    var rest := order[..|order| - 1];
    forall i | 0 <= i < |rest|
      ensures CausalAt(g, rest, i)
    {
      assert CausalAt(g, order, i);
      assert rest[i] == order[i] && rest[..i] == order[..i];
    }
    assert CausalAt(g, order, |rest|);
  }

  lemma {:induction false} OwnAt(c: nat, n: nat, k: nat)
    requires k < n
    ensures |Own(c, n)| == n && Own(c, n)[k] == Tid(c, k)
    decreases n
  {
    OwnElements(c, n - 1);
    if k < n - 1 {
      OwnAt(c, n - 1, k);
    }
  }

  lemma {:induction false} ListingAnchored(s: State, order: seq<nat>)
    requires Sound(s) && forall c | c in order :: c in s
    requires Causal(Graph(s), order)
    ensures AnchoredEarlier(Listing(s, order), AnchorMap(s))
  {
    if order != [] {
      var c, rest := order[|order| - 1], order[..|order| - 1];
      CausalPrefix(Graph(s), order);
      ListingAnchored(s, rest);
      var own := Own(c, |s[c].nodes|);
      OwnIs(s, c);
      assert forall a | a in s[c].anc :: a in rest;
      forall k | 0 <= k < |own| && AnchorOf(s, own[k]).After?
        ensures AnchorOf(s, own[k]).t in Listing(s, rest) || AnchorOf(s, own[k]).t in own[..k]
      {
        ListingAnchoredOwn(s, rest, c, k);
      }
      AnchoredAppend(Listing(s, rest), own, AnchorMap(s));
    }
  }

  lemma OwnIs(s: State, c: nat)
    requires c in s
    ensures |Own(c, |s[c].nodes|)| == |s[c].nodes|
    ensures forall k | 0 <= k < |s[c].nodes| :: Own(c, |s[c].nodes|)[k] == Tid(c, k)
  {
    forall k | 0 <= k < |s[c].nodes|
      ensures |Own(c, |s[c].nodes|)| == |s[c].nodes|
      ensures Own(c, |s[c].nodes|)[k] == Tid(c, k)
    {
      OwnAt(c, |s[c].nodes|, k);
    }
    if s[c].nodes != [] {
      OwnAt(c, |s[c].nodes|, 0);
    }
  }

  lemma ListingAnchoredOwn(s: State, rest: seq<nat>, c: nat, k: nat)
    requires Sound(s) && c in s && (forall x | x in rest :: x in s)
    requires k < |s[c].nodes| && s[c].nodes[k].anchor.After?
    requires forall a | a in s[c].anc :: a in rest
    ensures |Own(c, |s[c].nodes|)| == |s[c].nodes|
    ensures Own(c, |s[c].nodes|)[k] == Tid(c, k)
    ensures s[c].nodes[k].anchor.t in Listing(s, rest) || s[c].nodes[k].anchor.t in Own(c, |s[c].nodes|)[..k]
  {
    var n := |s[c].nodes|;
    OwnAt(c, n, k);
    var p := s[c].nodes[k].anchor.t;
    assert TokenOk(s, Tid(c, k)) by {
      assert Has(s, Tid(c, k));
    }
    if p.cid in s[c].anc {
      ListingElements(s, rest);
    } else {
      OwnAt(c, n, p.ord);
      assert Own(c, n)[..k][p.ord] == p;
    }
  }

  /** A document lists the tokens of its commits, each once. */
  lemma DocElements(s: State, a: set<nat>)
    requires Sound(s) && Closed(Graph(s), a)
    ensures forall t | t in Doc(s, a) :: t in Tokens(s, a)
    ensures forall t | t in Tokens(s, a) :: t in Doc(s, a)
    ensures NoDup(Doc(s, a))
  {
    var order := Kahn(Graph(s), a);
    KahnElements(Graph(s), a);
    KahnIsCausal(Graph(s), a);
    ListingAnchored(s, order);
    ListingElements(s, order);
    ReplayElements(Listing(s, order), AnchorMap(s));
  }

  /** Projection: the part of a larger document that a smaller scope sees is its own document. */
  lemma DocRestrict(s: State, u: set<nat>, a: set<nat>)
    requires Sound(s) && Closed(Graph(s), u) && Closed(Graph(s), a) && a <= u
    ensures Filter(Doc(s, u), Tokens(s, a)) == Doc(s, a)
  {
    var g := Graph(s);
    var order := Kahn(g, u);
    KahnElements(g, u);
    KahnElements(g, a);
    KahnRestrict(g, u, a);
    assert u * a == a;
    ListingFilter(s, order, a);
    forall t | t in Listing(s, order) && t in Tokens(s, a) && AnchorOf(s, t).After?
      ensures AnchorOf(s, t).t in Tokens(s, a)
    {
      assert TokenOk(s, t);
      assert t.cid in a;
    }
    ReplayFilter(Listing(s, order), AnchorMap(s), Tokens(s, a));
  }
}
