/** How a stored weave represents the model's state, given the order its commits arrived in. */
module WeaveRep {
  import opened Common
  import opened TopoOrder
  import opened Rga
  import opened CfoldModel
  import opened Weave

  // ---------- body offsets ----------

  ghost predicate Arrived(s: State, ids: seq<nat>) {
    && NoDup(ids)
    && (forall c | c in ids :: c in s)
    && (forall c | c in s :: c in ids)
    && Causal(Graph(s), ids)
  }

  /** Bytes of the first `k` tokens of one commit. */
  ghost function Len(nodes: seq<Node>, k: nat): nat
    requires k <= |nodes|
  {
    if k == 0 then 0 else Len(nodes, k - 1) + |nodes[k - 1].tok.bytes|
  }

  /** Where the body range of the `i`-th arrived commit starts. */
  ghost function Start(s: State, ids: seq<nat>, i: nat): nat
    requires i <= |ids| && forall c | c in ids :: c in s
  {
    if i == 0 then 0
    else Start(s, ids, i - 1) + Len(s[ids[i - 1]].nodes, |s[ids[i - 1]].nodes|)
  }

  ghost function Pos(ids: seq<nat>, c: nat): (i: nat)
    requires c in ids
    ensures i < |ids| && ids[i] == c
  {
    var i :| 0 <= i < |ids| && ids[i] == c;
    i
  }

  lemma PosUnique(ids: seq<nat>, i: nat)
    requires NoDup(ids) && i < |ids|
    ensures ids[i] in ids && Pos(ids, ids[i]) == i
  {
  }

  /** Ancestors arrive first. */
  lemma PosCausal(s: State, ids: seq<nat>, c: nat, a: nat)
    requires Arrived(s, ids) && c in s && a in s[c].anc
    ensures c in ids && a in ids && Pos(ids, a) < Pos(ids, c)
  {
    var i := Pos(ids, c);
    assert CausalAt(Graph(s), ids, i);
    assert a in Graph(s)[ids[i]];
    var j :| 0 <= j < i && ids[..i][j] == a;
    PosUnique(ids, j);
  }

  ghost predicate Stored(s: State, ids: seq<nat>, t: Tid) {
    Has(s, t) && t.cid in ids && forall c | c in ids :: c in s
  }

  ghost function Off(s: State, ids: seq<nat>, t: Tid): nat
    requires Stored(s, ids, t)
  {
    Start(s, ids, Pos(ids, t.cid)) + Len(s[t.cid].nodes, t.ord)
  }

  ghost function End(s: State, ids: seq<nat>, t: Tid): nat
    requires Stored(s, ids, t)
  {
    Start(s, ids, Pos(ids, t.cid)) + Len(s[t.cid].nodes, t.ord + 1)
  }

  lemma {:induction false} LenMono(nodes: seq<Node>, j: nat, k: nat)
    requires j <= k <= |nodes|
    ensures Len(nodes, j) <= Len(nodes, k)
    decreases k
  {
    if j < k {
      LenMono(nodes, j, k - 1);
    }
  }

  lemma {:induction false} StartMono(s: State, ids: seq<nat>, i: nat, j: nat)
    requires i <= j <= |ids| && forall c | c in ids :: c in s
    ensures Start(s, ids, i) <= Start(s, ids, j)
    decreases j
  {
    if i < j {
      StartMono(s, ids, i, j - 1);
    }
  }

  /** A token sits inside its commit's range, and is not empty. */
  lemma OffRange(s: State, ids: seq<nat>, t: Tid)
    requires Stored(s, ids, t) && |Bytes(s, t)| > 0
    ensures var i := Pos(ids, t.cid);
      Start(s, ids, i) <= Off(s, ids, t) < End(s, ids, t) <= Start(s, ids, i + 1) <= Start(s, ids, |ids|)
    ensures End(s, ids, t) == Off(s, ids, t) + |Bytes(s, t)|
  {
    var i, nodes := Pos(ids, t.cid), s[t.cid].nodes;
    LenMono(nodes, t.ord + 1, |nodes|);
    StartMono(s, ids, i + 1, |ids|);
  }

  /** Body offsets order tokens by arrival, then ordinal. */
  ghost predicate Earlier(ids: seq<nat>, t: Tid, u: Tid)
    requires t.cid in ids && u.cid in ids
  {
    Pos(ids, t.cid) < Pos(ids, u.cid) || (t.cid == u.cid && t.ord < u.ord)
  }

  lemma OffEarlier(s: State, ids: seq<nat>, t: Tid, u: Tid)
    requires Stored(s, ids, t) && Stored(s, ids, u) && Earlier(ids, t, u)
    requires |Bytes(s, t)| > 0 && |Bytes(s, u)| > 0
    ensures End(s, ids, t) <= Off(s, ids, u)
  {
    OffRange(s, ids, t);
    OffRange(s, ids, u);
    if t.cid == u.cid {
      LenMono(s[t.cid].nodes, t.ord + 1, u.ord);
    } else {
      StartMono(s, ids, Pos(ids, t.cid) + 1, Pos(ids, u.cid));
    }
  }

  /** A body offset names one token. */
  lemma OffUnique(s: State, ids: seq<nat>, t: Tid, u: Tid)
    requires Stored(s, ids, t) && Stored(s, ids, u) && Off(s, ids, t) == Off(s, ids, u)
    requires |Bytes(s, t)| > 0 && |Bytes(s, u)| > 0
    ensures t == u
  {
    OffRange(s, ids, t);
    OffRange(s, ids, u);
    if Pos(ids, t.cid) < Pos(ids, u.cid) || (t.cid == u.cid && t.ord < u.ord) {
      OffEarlier(s, ids, t, u);
    } else if t != u {
      OffEarlier(s, ids, u, t);
    }
  }

  // ---------- index entries ----------

  ghost function ParOf(s: State, ids: seq<nat>, a: Anchor): Word
    requires a.After? ==> Stored(s, ids, a.t)
  {
    match a
    case Top => ROOT_PAR
    case After(p) => Par(Off(s, ids, p))
  }

  ghost function NodeOf(s: State, t: Tid): Node
    requires Has(s, t)
  {
    s[t.cid].nodes[t.ord]
  }

  ghost predicate Anchored(s: State, ids: seq<nat>, t: Tid) {
    Stored(s, ids, t) && (NodeOf(s, t).anchor.After? ==> Stored(s, ids, NodeOf(s, t).anchor.t))
  }

  ghost function InsEntry(s: State, ids: seq<nat>, t: Tid): Entry
    requires Anchored(s, ids, t)
  {
    Entry(ParOf(s, ids, NodeOf(s, t).anchor), Word(NodeOf(s, t).tok.tag, Off(s, ids, t)))
  }

  /** No later token of the commit continues the chain at `t`. */
  ghost predicate ChainEnd(s: State, t: Tid)
    requires Has(s, t)
  {
    t.ord + 1 == |s[t.cid].nodes| || s[t.cid].nodes[t.ord + 1].anchor != After(t)
  }

  ghost function TermEntry(s: State, ids: seq<nat>, t: Tid): Entry
    requires Stored(s, ids, t)
  {
    Entry(Par(Off(s, ids, t)), Word(TERM_TAG, End(s, ids, t)))
  }

  ghost function TombEntry(s: State, ids: seq<nat>, c: nat, t: Tid): Entry
    requires Stored(s, ids, t) && c in ids
  {
    Entry(Par(Off(s, ids, t)), Word(TOMB_TAG, Pos(ids, c)))
  }

  ghost predicate IsIns(s: State, ids: seq<nat>, e: Entry, t: Tid) {
    Anchored(s, ids, t) && e == InsEntry(s, ids, t)
  }

  ghost predicate IsTerm(s: State, ids: seq<nat>, e: Entry, t: Tid) {
    Stored(s, ids, t) && e == TermEntry(s, ids, t)
  }

  ghost predicate IsTomb(s: State, ids: seq<nat>, e: Entry, c: nat, t: Tid) {
    c in ids && c in s && t in s[c].tombs && Stored(s, ids, t) && e == TombEntry(s, ids, c, t)
  }

  ghost predicate IsEntry(s: State, ids: seq<nat>, e: Entry) {
    || (exists t :: IsIns(s, ids, e, t))
    || (exists t :: IsTerm(s, ids, e, t))
    || (exists c, t :: IsTomb(s, ids, e, c, t))
  }

  // ---------- representation ----------

  /** The syntax tags a tokenizer may emit: never the reserved ones. */
  predicate SyntaxTag(tag: nat) {
    tag < 32 && tag != ROOT_TAG && tag != PAR_TAG && tag != TERM_TAG && tag != TOMB_TAG
  }

  /** The already folded commits that are not in `anc`, by ascending build index. */
  ghost function Unseen(ids: seq<nat>, n: nat, anc: set<nat>): seq<nat>
    requires n <= |ids|
  {
    if n == 0 then []
    else if ids[n - 1] in anc then Unseen(ids, n - 1, anc)
    else Unseen(ids, n - 1, anc) + [n - 1]
  }

  ghost predicate SliceIs(body: seq<Byte>, off: nat, b: seq<Byte>) {
    off + |b| <= |body| && body[off..off + |b|] == b
  }

  ghost predicate RepCommit(w: Weave, s: State, ids: seq<nat>, i: nat)
    requires Arrived(s, ids) && i < |ids| && i < |w.cmts|
  {
    var c := w.cmts[i];
    && c.id == ids[i]
    && c.start == Start(s, ids, i)
    && c.end == c.len == Start(s, ids, i + 1)
    && IgnIn(w, c)
    && IgnOf(w, c) == Unseen(ids, i, s[ids[i]].anc)
  }

  /** A token's bytes are in the body, its entry in the index, and the terminator if it ends a chain. */
  ghost predicate RepToken(w: Weave, s: State, ids: seq<nat>, t: Tid) {
    && Anchored(s, ids, t)
    && SliceIs(w.body, Off(s, ids, t), Bytes(s, t))
    && SyntaxTag(NodeOf(s, t).tok.tag)
    && InsEntry(s, ids, t) in w.idx
    && (ChainEnd(s, t) ==> TermEntry(s, ids, t) in w.idx)
  }

  ghost predicate EntryAt(idx: seq<Entry>, s: State, ids: seq<nat>, i: nat)
    requires i < |idx|
  {
    IsEntry(s, ids, idx[i])
  }

  ghost predicate HasTomb(idx: seq<Entry>, s: State, ids: seq<nat>, c: nat, t: Tid) {
    Stored(s, ids, t) && c in ids && TombEntry(s, ids, c, t) in idx
  }

  ghost predicate Caps(s: State, ids: seq<nat>)
    requires Arrived(s, ids)
  {
    Start(s, ids, |ids|) < OFF_CAP && |ids| < OFF_CAP
  }

  /** `w` stores the state `s`, whose commits arrived in the order `ids`. */
  ghost predicate Represents(w: Weave, s: State, ids: seq<nat>) {
    && Sound(s) && Arrived(s, ids) && Caps(s, ids)
    && |w.body| == Start(s, ids, |ids|) && |w.cmts| == |ids|
    && Sorted(w.idx)
    && (forall i {:trigger RepCommit(w, s, ids, i)} | 0 <= i < |ids| :: RepCommit(w, s, ids, i))
    && (forall t {:trigger RepToken(w, s, ids, t)} | Has(s, t) :: RepToken(w, s, ids, t))
    && (forall c, t {:trigger HasTomb(w.idx, s, ids, c, t)} | c in s && t in s[c].tombs :: HasTomb(w.idx, s, ids, c, t))
    && (forall i {:trigger EntryAt(w.idx, s, ids, i)} | 0 <= i < |w.idx| :: EntryAt(w.idx, s, ids, i))
  }

  // ---------- what the representation promises its readers ----------

  lemma {:induction false} StartCover(s: State, ids: seq<nat>, n: nat, off: nat) returns (i: nat)
    requires n <= |ids| && (forall c | c in ids :: c in s) && off < Start(s, ids, n)
    ensures i < n && Start(s, ids, i) <= off < Start(s, ids, i + 1)
    decreases n
  {
    if Start(s, ids, n - 1) <= off {
      i := n - 1;
    } else {
      i := StartCover(s, ids, n - 1, off);
    }
  }

  lemma RepTiled(w: Weave, s: State, ids: seq<nat>)
    requires Represents(w, s, ids)
    ensures Tiled(w.cmts, |w.body|)
  {
    var cs := w.cmts;
    forall i | 0 <= i < |cs|
      ensures cs[i].start <= cs[i].end <= |w.body|
    {
      assert RepCommit(w, s, ids, i);
      StartMono(s, ids, i, i + 1);
      StartMono(s, ids, i + 1, |ids|);
    }
    forall i, j | 0 <= i < j < |cs|
      ensures cs[i].end <= cs[j].start
    {
      assert RepCommit(w, s, ids, i) && RepCommit(w, s, ids, j);
      StartMono(s, ids, i + 1, j);
    }
    forall off: nat | off < |w.body|
      ensures Blamable(cs, off)
    {
      var i := StartCover(s, ids, |ids|, off);
      assert RepCommit(w, s, ids, i);
      assert Covers(cs[i], off);
    }
  }

  /** Blame of a token's offset is the arrival index of its inserting commit. */
  lemma RepBlame(w: Weave, s: State, ids: seq<nat>, t: Tid)
    requires Represents(w, s, ids) && Has(s, t)
    ensures Tiled(w.cmts, |w.body|)
    ensures Stored(s, ids, t) && Off(s, ids, t) < |w.body| < OFF_CAP
    ensures BlameOf(w.cmts, |w.body|, Off(s, ids, t)) == Pos(ids, t.cid)
  {
    RepTiled(w, s, ids);
    assert TokenOk(s, t);
    OffRange(s, ids, t);
    var i := Pos(ids, t.cid);
    assert RepCommit(w, s, ids, i);
    assert Covers(w.cmts[i], Off(s, ids, t));
    BlameUnique(w.cmts, |w.body|, Off(s, ids, t), i);
  }
}
