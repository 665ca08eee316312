/** The writer's pen: appends a commit's tokens, tombs and chain terminators, one edit step at a time. */
module WeavePen {
  import opened Common
  import opened TopoOrder
  import opened Rga
  import opened Script
  import opened CfoldModel
  import opened CfoldFold
  import opened Weave
  import opened WeaveRep
  import opened WeaveFacts
  import opened WeaveGrow
  import opened WeaveRead

  const OFF_MASK := OFF_CAP - 1

  /** The grown body, the new entries, the parent the next token hangs off, and the open chain's last token. */
  datatype Pen = Pen(body: seq<Byte>, batch: seq<Entry>, prevpar: Word, chain: bool, chainOff: nat)

  function CloseChain(p: Pen): Pen {
    if p.chain then
      p.(batch := p.batch + [Entry(Par(p.chainOff), Tok32(TERM_TAG, |p.body|))], chain := false)
    else p
  }

  function Keep(p: Pen, off: nat): Pen {
    CloseChain(p).(prevpar := Par(off))
  }

  function Drop(p: Pen, off: nat, cidx: nat): Pen {
    var q := CloseChain(p);
    q.(batch := q.batch + [Entry(Par(off), Tok32(TOMB_TAG, cidx))])
  }

  predicate HasRoom(p: Pen, tok: Token) {
    |p.body| + |tok.bytes| <= OFF_MASK
  }

  function Add(p: Pen, tok: Token): Pen {
    var o := |p.body|;
    Pen(p.body + tok.bytes, p.batch + [Entry(p.prevpar, Tok32(tok.tag, o))], Par(o), true, o)
  }

  // ---------- what the pen owes the commit ----------

  /** The weave being grown, and the state and arrival order it will represent; `c` arrives last. */
  datatype Target = Target(w: Weave, s: State, ids: seq<nat>, c: nat)

  ghost predicate TargetOk(x: Target) {
    && Sound(x.s) && Arrived(x.s, x.ids) && x.ids != [] && x.c == x.ids[|x.ids| - 1] && x.c in x.s
    && |x.w.body| == Start(x.s, x.ids, |x.ids| - 1)
    && |x.ids| <= OFF_CAP
    && (forall k | 0 <= k < |x.s[x.c].nodes| :: SyntaxTag(x.s[x.c].nodes[k].tok.tag))
  }

  ghost function NodesIn(x: Target): seq<Node> {
    if x.c in x.s then x.s[x.c].nodes else []
  }

  ghost function InsOf(x: Target, k: nat): Entry {
    if Anchored(x.s, x.ids, Tid(x.c, k)) then InsEntry(x.s, x.ids, Tid(x.c, k)) else Entry(ROOT_PAR, ROOT_PAR)
  }

  ghost function TermOf(x: Target, k: nat): Entry {
    if Stored(x.s, x.ids, Tid(x.c, k)) then TermEntry(x.s, x.ids, Tid(x.c, k)) else Entry(ROOT_PAR, ROOT_PAR)
  }

  ghost function TombOf(x: Target, t: Tid): Entry {
    if Stored(x.s, x.ids, t) && x.c in x.ids then TombEntry(x.s, x.ids, x.c, t) else Entry(ROOT_PAR, ROOT_PAR)
  }

  /** The entries of the first `n` tokens, of the closed chains, and of the tombs. */
  ghost function Wanted(x: Target, n: nat, closed: set<nat>, tombs: set<Tid>): set<Entry> {
    (set k | 0 <= k < n :: InsOf(x, k)) + (set k | k in closed :: TermOf(x, k)) + (set t | t in tombs :: TombOf(x, t))
  }

  ghost predicate Holds(batch: seq<Entry>, es: set<Entry>) {
    NoDup(batch) && forall e :: e in batch <==> e in es
  }

  lemma HoldsSnoc(batch: seq<Entry>, es: set<Entry>, e: Entry)
    requires Holds(batch, es) && e !in es
    ensures Holds(batch + [e], es + {e})
  {
  }

  lemma OwnToken(x: Target, k: nat)
    requires TargetOk(x) && k < |NodesIn(x)|
    ensures Anchored(x.s, x.ids, Tid(x.c, k)) && |Bytes(x.s, Tid(x.c, k))| > 0
    ensures SyntaxTag(NodeOf(x.s, Tid(x.c, k)).tok.tag)
    ensures Off(x.s, x.ids, Tid(x.c, k)) == |x.w.body| + Len(NodesIn(x), k)
    ensures End(x.s, x.ids, Tid(x.c, k)) == |x.w.body| + Len(NodesIn(x), k + 1)
  {
    PosUnique(x.ids, |x.ids| - 1);
    assert TokenOk(x.s, Tid(x.c, k));
  }

  lemma DropToken(x: Target, t: Tid)
    requires TargetOk(x) && Has(x.s, t)
    ensures Stored(x.s, x.ids, t) && |Bytes(x.s, t)| > 0 && x.c in x.ids && Pos(x.ids, x.c) == |x.ids| - 1
  {
    PosUnique(x.ids, |x.ids| - 1);
    assert TokenOk(x.s, t);
  }

  // ---------- every entry is new ----------

  lemma InsNew(x: Target, n: nat, closed: set<nat>, tombs: set<Tid>)
    requires TargetOk(x) && n < |NodesIn(x)|
    requires (forall k | k in closed :: k < n) && (forall t | t in tombs :: Has(x.s, t))
    ensures InsOf(x, n) !in Wanted(x, n, closed, tombs)
    ensures Wanted(x, n + 1, closed, tombs) == Wanted(x, n, closed, tombs) + {InsOf(x, n)}
  {
    OwnToken(x, n);
    forall k | 0 <= k < n
      ensures InsOf(x, k) != InsOf(x, n)
    {
      OwnToken(x, k);
      OffEarlier(x.s, x.ids, Tid(x.c, k), Tid(x.c, n));
      OffRange(x.s, x.ids, Tid(x.c, k));
    }
    forall k | k in closed
      ensures TermOf(x, k) != InsOf(x, n)
    {
      OwnToken(x, k);
    }
    forall t | t in tombs
      ensures TombOf(x, t) != InsOf(x, n)
    {
      DropToken(x, t);
    }
    assert (set k | 0 <= k < n + 1 :: InsOf(x, k)) == (set k | 0 <= k < n :: InsOf(x, k)) + {InsOf(x, n)};
  }

  lemma TermNew(x: Target, n: nat, closed: set<nat>, tombs: set<Tid>, j: nat)
    requires TargetOk(x) && j < n <= |NodesIn(x)| && j !in closed
    requires (forall k | k in closed :: k < n) && (forall t | t in tombs :: Has(x.s, t))
    ensures TermOf(x, j) !in Wanted(x, n, closed, tombs)
    ensures Wanted(x, n, closed + {j}, tombs) == Wanted(x, n, closed, tombs) + {TermOf(x, j)}
  {
    OwnToken(x, j);
    forall k | 0 <= k < n
      ensures InsOf(x, k) != TermOf(x, j)
    {
      OwnToken(x, k);
    }
    forall k | k in closed
      ensures TermOf(x, k) != TermOf(x, j)
    {
      OwnToken(x, k);
      if TermOf(x, k) == TermOf(x, j) {
        OffUnique(x.s, x.ids, Tid(x.c, k), Tid(x.c, j));
      }
    }
    forall t | t in tombs
      ensures TombOf(x, t) != TermOf(x, j)
    {
      DropToken(x, t);
    }
    assert (set k | k in closed + {j} :: TermOf(x, k)) == (set k | k in closed :: TermOf(x, k)) + {TermOf(x, j)};
  }

  lemma TombNew(x: Target, n: nat, closed: set<nat>, tombs: set<Tid>, u: Tid)
    requires TargetOk(x) && n <= |NodesIn(x)| && u !in tombs && Has(x.s, u)
    requires (forall k | k in closed :: k < n) && (forall t | t in tombs :: Has(x.s, t))
    ensures TombOf(x, u) !in Wanted(x, n, closed, tombs)
    ensures Wanted(x, n, closed, tombs + {u}) == Wanted(x, n, closed, tombs) + {TombOf(x, u)}
  {
    DropToken(x, u);
    forall k | 0 <= k < n
      ensures InsOf(x, k) != TombOf(x, u)
    {
      OwnToken(x, k);
    }
    forall k | k in closed
      ensures TermOf(x, k) != TombOf(x, u)
    {
      OwnToken(x, k);
    }
    forall t | t in tombs
      ensures TombOf(x, t) != TombOf(x, u)
    {
      DropToken(x, t);
      if TombOf(x, t) == TombOf(x, u) {
        OffUnique(x.s, x.ids, t, u);
      }
    }
    assert (set t | t in tombs + {u} :: TombOf(x, t)) == (set t | t in tombs :: TombOf(x, t)) + {TombOf(x, u)};
  }

  // ---------- the pen's invariant ----------

  ghost predicate AnchorOk(x: Target, a: Anchor) {
    a.After? ==> Stored(x.s, x.ids, a.t)
  }

  /** Every token written so far is continued by the next one, or its chain is closed. */
  ghost predicate ChainOk(x: Target, p: Pen, acc: Acc, closed: set<nat>) {
    && (forall k | k in closed :: k < |acc.nodes|)
    && (p.chain ==> |acc.nodes| > 0 && OpenAt(x, p, acc, closed, |acc.nodes| - 1))
    && (forall k | 0 <= k < |acc.nodes| :: k in closed || Continues(x.c, acc.nodes, k, p.chain))
  }

  ghost predicate OpenAt(x: Target, p: Pen, acc: Acc, closed: set<nat>, k: nat) {
    && acc.anchor == After(Tid(x.c, k)) && k !in closed
    && k < |NodesIn(x)| && p.chainOff == |x.w.body| + Len(NodesIn(x), k)
  }

  ghost predicate Continues(c: nat, nodes: seq<Node>, k: nat, open_: bool)
    requires k < |nodes|
  {
    if k + 1 < |nodes| then nodes[k + 1].anchor == After(Tid(c, k)) else open_
  }

  ghost predicate PenOk(x: Target, p: Pen, acc: Acc, closed: set<nat>) {
    && TargetOk(x)
    && acc.nodes <= NodesIn(x) && acc.tombs <= x.s[x.c].tombs
    && p.body == x.w.body + Written(acc.nodes) && |p.body| <= OFF_MASK
    && AnchorOk(x, acc.anchor) && p.prevpar == ParOf(x.s, x.ids, acc.anchor)
    && ChainOk(x, p, acc, closed)
    && Holds(p.batch, Wanted(x, |acc.nodes|, closed, acc.tombs))
  }

  lemma TombsHeld(x: Target, tombs: set<Tid>)
    requires TargetOk(x) && tombs <= x.s[x.c].tombs
    ensures forall t | t in tombs :: Has(x.s, t)
  {
    assert RecOk(x.s, x.c);
  }

  lemma BodyAt(x: Target, p: Pen, acc: Acc, closed: set<nat>)
    requires PenOk(x, p, acc, closed)
    ensures |acc.nodes| <= |NodesIn(x)|
    ensures |p.body| == |x.w.body| + Len(NodesIn(x), |acc.nodes|)
  {
    WrittenLen(acc.nodes);
    LenPrefix(NodesIn(x), |acc.nodes|, |acc.nodes|);
    assert acc.nodes == NodesIn(x)[..|acc.nodes|];
  }

  /** Closing the open chain, if any. */
  lemma CloseOk(x: Target, p: Pen, acc: Acc, closed: set<nat>) returns (closed': set<nat>)
    requires PenOk(x, p, acc, closed)
    ensures PenOk(x, CloseChain(p), acc, closed') && closed <= closed'
    ensures forall k | 0 <= k < |acc.nodes| :: k in closed' || Continues(x.c, acc.nodes, k, false)
  {
    hide Wanted, Holds, Written, Sound, Arrived, TargetOk, Start;
    closed' := closed;
    if p.chain {
      var j := |acc.nodes| - 1;
      closed' := closed + {j};
      BodyAt(x, p, acc, closed);
      TombsHeld(x, acc.tombs);
      OwnToken(x, j);
      TermNew(x, |acc.nodes|, closed, acc.tombs, j);
      assert Entry(Par(p.chainOff), Tok32(TERM_TAG, |p.body|)) == TermOf(x, j);
      HoldsSnoc(p.batch, Wanted(x, |acc.nodes|, closed, acc.tombs), TermOf(x, j));
    }
  }

  lemma KeepOk(x: Target, p: Pen, acc: Acc, closed: set<nat>, t: Tid, off: nat) returns (closed': set<nat>)
    requires PenOk(x, p, acc, closed) && OffsetAt(x.s, x.ids, t, off)
    ensures PenOk(x, Keep(p, off), acc.(anchor := After(t)), closed')
  {
    closed' := CloseOk(x, p, acc, closed);
  }

  lemma DropOk(x: Target, p: Pen, acc: Acc, closed: set<nat>, t: Tid, off: nat) returns (closed': set<nat>)
    requires PenOk(x, p, acc, closed) && OffsetAt(x.s, x.ids, t, off)
    requires t in x.s[x.c].tombs && t !in acc.tombs
    ensures PenOk(x, Drop(p, off, |x.ids| - 1), acc.(tombs := acc.tombs + {t}), closed')
  {
    closed' := CloseOk(x, p, acc, closed);
    TombsHeld(x, acc.tombs + {t});
    DropToken(x, t);
    TombNew(x, |acc.nodes|, closed', acc.tombs, t);
    assert Entry(Par(off), Tok32(TOMB_TAG, |x.ids| - 1)) == TombOf(x, t);
    HoldsSnoc(CloseChain(p).batch, Wanted(x, |acc.nodes|, closed', acc.tombs), TombOf(x, t));
  }

  lemma AddOk(x: Target, p: Pen, acc: Acc, closed: set<nat>, tok: Token)
    requires PenOk(x, p, acc, closed) && HasRoom(p, tok)
    requires Added(x.c, tok, acc).nodes <= NodesIn(x)
    ensures PenOk(x, Add(p, tok), Added(x.c, tok, acc), closed)
  {
    hide Wanted, Holds, Written, Sound, Arrived, TargetOk, Len, Start;
    var n, acc' := |acc.nodes|, Added(x.c, tok, acc);
    BodyAt(x, p, acc, closed);
    OwnToken(x, n);
    assert NodesIn(x)[n] == acc'.nodes[n] == Node(acc.anchor, tok);
    assert acc'.nodes[..n] == acc.nodes;
    TombsHeld(x, acc.tombs);
    InsNew(x, n, closed, acc.tombs);
    assert Entry(p.prevpar, Tok32(tok.tag, |p.body|)) == InsOf(x, n);
    HoldsSnoc(p.batch, Wanted(x, n, closed, acc.tombs), InsOf(x, n));
    AddBody(x.w.body, acc.nodes, Node(acc.anchor, tok));
  }

  lemma AddBody(body: seq<Byte>, nodes: seq<Node>, node: Node)
    ensures body + Written(nodes + [node]) == body + Written(nodes) + node.tok.bytes
  {
    assert (nodes + [node])[..|nodes|] == nodes;
  }
}
