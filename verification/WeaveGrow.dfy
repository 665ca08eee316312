/** One more commit: what it adds, and that nothing stored before it moves. */
module WeaveGrow {
  import opened Common
  import opened TopoOrder
  import opened Rga
  import opened CfoldModel
  import opened Weave
  import opened WeaveRep
  import opened WeaveFacts

  /** Commit `c` arrives with the record `r` after the commits `ids` of `s`. */
  ghost predicate Arrives(s: State, ids: seq<nat>, c: nat, r: Rec) {
    Arrived(s, ids) && c !in s && r.anc <= s.Keys
  }

  lemma GrowArrived(s: State, ids: seq<nat>, c: nat, r: Rec)
    requires Arrives(s, ids, c, r)
    ensures Arrived(s[c := r], ids + [c])
  {
    var g', ids' := Graph(s[c := r]), ids + [c];
    forall i | 0 <= i < |ids'|
      ensures CausalAt(g', ids', i)
    {
      if i < |ids| {
        assert CausalAt(Graph(s), ids, i);
        assert ids'[..i] == ids[..i];
      } else {
        assert ids'[..i] == ids;
      }
    }
  }

  lemma GrowPos(s: State, ids: seq<nat>, c: nat, r: Rec, x: nat)
    requires Arrives(s, ids, c, r) && x in ids + [c]
    ensures Pos(ids + [c], x) == if x == c then |ids| else Pos(ids, x)
  {
    var i := Pos(ids + [c], x);
    if x != c {
      PosUnique(ids, i);
    }
  }

  lemma {:induction false} GrowStart(s: State, ids: seq<nat>, c: nat, r: Rec, i: nat)
    requires Arrives(s, ids, c, r) && i <= |ids|
    ensures Arrived(s[c := r], ids + [c])
    ensures Start(s[c := r], ids + [c], i) == Start(s, ids, i)
  {
    GrowArrived(s, ids, c, r);
    if i > 0 {
      GrowStart(s, ids, c, r, i - 1);
      assert ids[i - 1] in ids;
    }
  }

  lemma GrowTotal(s: State, ids: seq<nat>, c: nat, r: Rec)
    requires Arrives(s, ids, c, r)
    ensures Arrived(s[c := r], ids + [c])
    ensures Start(s[c := r], ids + [c], |ids|) == Start(s, ids, |ids|)
    ensures Start(s[c := r], ids + [c], |ids| + 1) == Start(s, ids, |ids|) + Len(r.nodes, |r.nodes|)
  {
    GrowStart(s, ids, c, r, |ids|);
  }

  /** A stored token keeps its offset and its end. */
  lemma GrowToken(s: State, ids: seq<nat>, c: nat, r: Rec, t: Tid)
    requires Arrives(s, ids, c, r) && Stored(s, ids, t)
    ensures Stored(s[c := r], ids + [c], t)
    ensures NodeOf(s[c := r], t) == NodeOf(s, t) && Bytes(s[c := r], t) == Bytes(s, t)
    ensures Off(s[c := r], ids + [c], t) == Off(s, ids, t)
    ensures End(s[c := r], ids + [c], t) == End(s, ids, t)
  {
    GrowStart(s, ids, c, r, Pos(ids, t.cid));
    GrowPos(s, ids, c, r, t.cid);
  }

  /** A stored token's entries are the same entries. */
  lemma GrowEntries(s: State, ids: seq<nat>, c: nat, r: Rec, t: Tid)
    requires Arrives(s, ids, c, r) && Anchored(s, ids, t)
    ensures Anchored(s[c := r], ids + [c], t)
    ensures InsEntry(s[c := r], ids + [c], t) == InsEntry(s, ids, t)
    ensures TermEntry(s[c := r], ids + [c], t) == TermEntry(s, ids, t)
    ensures ChainEnd(s[c := r], t) == ChainEnd(s, t)
  {
    GrowToken(s, ids, c, r, t);
    if NodeOf(s, t).anchor.After? {
      GrowToken(s, ids, c, r, NodeOf(s, t).anchor.t);
    }
  }

  lemma GrowTomb(s: State, ids: seq<nat>, c: nat, r: Rec, x: nat, t: Tid)
    requires Arrives(s, ids, c, r) && Stored(s, ids, t) && x in ids
    ensures Stored(s[c := r], ids + [c], t)
    ensures TombEntry(s[c := r], ids + [c], x, t) == TombEntry(s, ids, x, t)
  {
    GrowToken(s, ids, c, r, t);
    GrowPos(s, ids, c, r, x);
  }

  lemma GrowEntry(s: State, ids: seq<nat>, c: nat, r: Rec, e: Entry)
    requires Arrives(s, ids, c, r) && IsEntry(s, ids, e)
    ensures IsEntry(s[c := r], ids + [c], e)
  {
    if t :| IsIns(s, ids, e, t) {
      GrowEntries(s, ids, c, r, t);
      assert IsIns(s[c := r], ids + [c], e, t);
    } else if t :| IsTerm(s, ids, e, t) {
      GrowToken(s, ids, c, r, t);
      assert IsTerm(s[c := r], ids + [c], e, t);
    } else {
      var x, t :| IsTomb(s, ids, e, x, t);
      GrowTomb(s, ids, c, r, x, t);
      assert IsTomb(s[c := r], ids + [c], e, x, t);
    }
  }

  lemma {:induction false} GrowUnseen(ids: seq<nat>, c: nat, n: nat, anc: set<nat>)
    requires n <= |ids|
    ensures Unseen(ids + [c], n, anc) == Unseen(ids, n, anc)
  {
    if n > 0 {
      GrowUnseen(ids, c, n - 1, anc);
    }
  }

  // ---------- the grown weave ----------

  ghost function Written(nodes: seq<Node>): seq<Byte> {
    if nodes == [] then [] else Written(nodes[..|nodes| - 1]) + nodes[|nodes| - 1].tok.bytes
  }

  lemma {:induction false} WrittenSlice(nodes: seq<Node>, k: nat)
    requires k < |nodes|
    ensures |Written(nodes)| == Len(nodes, |nodes|)
    ensures Len(nodes, k) + |nodes[k].tok.bytes| == Len(nodes, k + 1) <= |Written(nodes)|
    ensures Written(nodes)[Len(nodes, k)..Len(nodes, k + 1)] == nodes[k].tok.bytes
    decreases |nodes|
  {
    var n, m := |nodes| - 1, nodes[..|nodes| - 1];
    LenPrefix(nodes, n, n);
    LenPrefix(nodes, n, k);
    if n > 0 {
      WrittenSlice(m, if k < n then k else 0);
    }
    if k < n {
      LenPrefix(nodes, n, k + 1);
    }
  }

  lemma {:induction false} WrittenLen(nodes: seq<Node>)
    ensures |Written(nodes)| == Len(nodes, |nodes|)
  {
    if nodes != [] {
      WrittenSlice(nodes, 0);
    }
  }

  lemma {:induction false} LenPrefix(nodes: seq<Node>, n: nat, k: nat)
    requires k <= n <= |nodes|
    ensures Len(nodes[..n], k) == Len(nodes, k)
    decreases k
  {
    if k > 0 {
      LenPrefix(nodes, n, k - 1);
    }
  }

  /** The entries commit `c` must add. */
  ghost predicate BatchCovers(s: State, ids: seq<nat>, c: nat, idx: seq<Entry>)
    requires c in s
  {
    && (forall k | 0 <= k < |s[c].nodes| :: OwnCovered(s, ids, Tid(c, k), idx))
    && (forall t {:trigger HasTomb(idx, s, ids, c, t)} | t in s[c].tombs :: HasTomb(idx, s, ids, c, t))
  }

  ghost predicate OwnCovered(s: State, ids: seq<nat>, t: Tid, idx: seq<Entry>) {
    && Anchored(s, ids, t)
    && SyntaxTag(NodeOf(s, t).tok.tag)
    && InsEntry(s, ids, t) in idx
    && (ChainEnd(s, t) ==> TermEntry(s, ids, t) in idx)
  }

  ghost predicate Known(s: State, ids: seq<nat>, e: Entry, old_: seq<Entry>) {
    e in old_ || IsEntry(s, ids, e)
  }

  /** `w'` is `w` with the record `r` of commit `c` appended. */
  ghost predicate Appended(w: Weave, w': Weave, s: State, ids: seq<nat>, c: nat, r: Rec) {
    && Arrives(s, ids, c, r)
    && w'.body == w.body + Written(r.nodes)
    && w'.ign == w.ign + Unseen(ids, |ids|, r.anc)
    && |w'.cmts| == |w.cmts| + 1 && w'.cmts[..|w.cmts|] == w.cmts
    && LastIs(w'.cmts[|w.cmts|], c, |w.body|, |w'.body|, |w.ign|, |w'.ign|)
    && Sorted(w'.idx)
    && (forall e | e in w.idx :: e in w'.idx)
    && (forall e | e in w'.idx :: Known(s[c := r], ids + [c], e, w.idx))
    && BatchCovers(s[c := r], ids + [c], c, w'.idx)
  }

  ghost predicate LastIs(rec: CRec, c: nat, b0: nat, b1: nat, g0: nat, g1: nat) {
    && rec.id == c && rec.start == b0 && rec.end == rec.len == b1
    && rec.ignOff == g0 && g0 + rec.ignLen == g1
  }

  lemma GrownOldCommit(w: Weave, w': Weave, s: State, ids: seq<nat>, c: nat, r: Rec, i: nat)
    requires Represents(w, s, ids) && Appended(w, w', s, ids, c, r) && i < |ids|
    ensures Arrived(s[c := r], ids + [c]) && RepCommit(w', s[c := r], ids + [c], i)
  {
    GrowArrived(s, ids, c, r);
    assert RepCommit(w, s, ids, i);
    GrowStart(s, ids, c, r, i);
    GrowStart(s, ids, c, r, i + 1);
    GrowUnseen(ids, c, i, s[ids[i]].anc);
    assert w'.cmts[i] == w.cmts[i];
    assert IgnOf(w', w'.cmts[i]) == IgnOf(w, w.cmts[i]);
  }

  lemma GrownNewCommit(w: Weave, w': Weave, s: State, ids: seq<nat>, c: nat, r: Rec)
    requires Represents(w, s, ids) && Appended(w, w', s, ids, c, r)
    ensures Arrived(s[c := r], ids + [c]) && RepCommit(w', s[c := r], ids + [c], |ids|)
  {
    GrowTotal(s, ids, c, r);
    WrittenLen(r.nodes);
    GrowUnseen(ids, c, |ids|, r.anc);
    assert IgnOf(w', w'.cmts[|ids|]) == Unseen(ids, |ids|, r.anc);
  }

  lemma GrownToken(w: Weave, w': Weave, s: State, ids: seq<nat>, c: nat, r: Rec, t: Tid)
    requires Represents(w, s, ids) && Appended(w, w', s, ids, c, r) && Has(s[c := r], t)
    ensures RepToken(w', s[c := r], ids + [c], t)
  {
    var s', ids' := s[c := r], ids + [c];
    if t.cid != c {
      assert RepToken(w, s, ids, t);
      GrowEntries(s, ids, c, r, t);
      GrowToken(s, ids, c, r, t);
    } else {
      assert OwnCovered(s', ids', Tid(c, t.ord), w'.idx);
      GrowStart(s, ids, c, r, |ids|);
      GrowPos(s, ids, c, r, c);
      WrittenSlice(r.nodes, t.ord);
      OwnSlice(w.body, Written(r.nodes), Len(r.nodes, t.ord), Bytes(s', t));
    }
  }

  lemma OwnSlice(a: seq<Byte>, b: seq<Byte>, off: nat, x: seq<Byte>)
    requires off + |x| <= |b| && b[off..off + |x|] == x
    ensures SliceIs(a + b, |a| + off, x)
  {
    assert (a + b)[|a| + off..|a| + off + |x|] == b[off..off + |x|];
  }

  lemma GrownTomb(w: Weave, w': Weave, s: State, ids: seq<nat>, c: nat, r: Rec, x: nat, t: Tid)
    requires Represents(w, s, ids) && Appended(w, w', s, ids, c, r) && x in s[c := r] && t in s[c := r][x].tombs
    ensures HasTomb(w'.idx, s[c := r], ids + [c], x, t)
  {
    if x != c {
      assert HasTomb(w.idx, s, ids, x, t);
      GrowTomb(s, ids, c, r, x, t);
    }
  }

  lemma GrownEntry(w: Weave, w': Weave, s: State, ids: seq<nat>, c: nat, r: Rec, i: nat)
    requires Represents(w, s, ids) && Appended(w, w', s, ids, c, r) && i < |w'.idx|
    ensures EntryAt(w'.idx, s[c := r], ids + [c], i)
  {
    var e := w'.idx[i];
    assert e in w'.idx;
    assert Known(s[c := r], ids + [c], e, w.idx);
    if e in w.idx {
      var j :| 0 <= j < |w.idx| && w.idx[j] == e;
      assert EntryAt(w.idx, s, ids, j);
      GrowEntry(s, ids, c, r, e);
    }
  }

  /** The grown weave represents the grown state. */
  lemma GrownRepresents(w: Weave, w': Weave, s: State, ids: seq<nat>, c: nat, r: Rec)
    requires Represents(w, s, ids) && Appended(w, w', s, ids, c, r)
    requires Sound(s[c := r]) && |w'.body| < OFF_CAP && |ids| + 1 < OFF_CAP
    ensures Represents(w', s[c := r], ids + [c])
  {
    hide RepToken, HasTomb, EntryAt, Known, BatchCovers, LastIs, RepCommit, Start;
    var s', ids' := s[c := r], ids + [c];
    GrowArrived(s, ids, c, r);
    GrowTotal(s, ids, c, r);
    WrittenLen(r.nodes);
    forall i | 0 <= i < |ids'|
      ensures RepCommit(w', s', ids', i)
    {
      if i < |ids| {
        GrownOldCommit(w, w', s, ids, c, r, i);
      } else {
        GrownNewCommit(w, w', s, ids, c, r);
      }
    }
    forall t | Has(s', t)
      ensures RepToken(w', s', ids', t)
    {
      GrownToken(w, w', s, ids, c, r, t);
    }
    forall x, t | x in s' && t in s'[x].tombs
      ensures HasTomb(w'.idx, s', ids', x, t)
    {
      GrownTomb(w, w', s, ids, c, r, x, t);
    }
    forall i | 0 <= i < |w'.idx|
      ensures EntryAt(w'.idx, s', ids', i)
    {
      GrownEntry(w, w', s, ids, c, r, i);
    }
  }
}
