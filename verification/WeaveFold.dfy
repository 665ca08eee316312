/** Folding one commit into a stored weave, and whole runs of folds. */
module WeaveFold {
  import opened Common
  import opened TopoOrder
  import opened Rga
  import opened Script
  import opened CfoldModel
  import opened CfoldFold
  import opened CfoldHistory
  import opened CfoldKeeps
  import opened Weave
  import opened WeaveRep
  import opened WeaveFacts
  import opened WalkOrder
  import opened WeaveRead
  import opened WeaveGrow
  import opened WeaveKeeps
  import opened WeavePen
  import opened WeaveWrite
  import opened IndexMerge

  // ---------- the ignore-set and the baseline ----------

  /** Of the commits stored, the ones the new commit names as ancestors. */
  ghost function PastOf(s: State, ancestors: seq<nat>): set<nat> {
    set c | c in s && c in ancestors
  }

  /** Every commit already folded that is not in the new one's causal closure. */
  method NewIgnores(w: Weave, ancestors: seq<nat>, ghost s: State, ghost ids: seq<nat>) returns (ign: seq<nat>)
    requires Represents(w, s, ids)
    ensures ign == Unseen(ids, |ids|, PastOf(s, ancestors))
  {
    ign := [];
    for j := 0 to |w.cmts|
      invariant ign == Unseen(ids, j, PastOf(s, ancestors))
    {
      assert RepCommit(w, s, ids, j);
      assert ids[j] in ids;
      if w.cmts[j].id !in ancestors {
        ign := ign + [j];
      }
    }
  }

  ghost predicate Syntax(content: Option<seq<Token>>) {
    content.Some? ==> forall t | t in content.value :: SyntaxTag(t.tag)
  }

  /** What the writer needs: a sound weave below its caps, and a commit not folded yet. */
  ghost predicate CanWrite(w: Weave, s: State, ids: seq<nat>, c: nat, anc: set<nat>, content: Option<seq<Token>>,
          diff: Diff) {
    && Represents(w, s, ids) && CanFold(s, c, anc, content, diff) && Syntax(content)
    && |ids| + 1 < OFF_CAP
  }

  ghost function TargetOf(w: Weave, s: State, ids: seq<nat>, c: nat, r: Rec): Target {
    Target(w, s[c := r], ids + [c], c)
  }

  lemma WriteArrives(w: Weave, s: State, ids: seq<nat>, c: nat, anc: set<nat>, content: Option<seq<Token>>, diff: Diff)
    requires CanWrite(w, s, ids, c, anc, content, diff)
    ensures IsDag(Graph(s)) && anc <= s.Keys
    ensures var r := Contribute(s, c, anc, content, diff);
      r.anc == anc && Arrives(s, ids, c, r) && Sound(s[c := r])
  {
    FoldSound(s, c, anc, content, diff);
  }

  lemma NewTags(s: State, c: nat, anc: set<nat>, content: Option<seq<Token>>, diff: Diff, k: nat)
    requires CanFold(s, c, anc, content, diff) && Syntax(content)
    requires k < |Contribute(s, c, anc, content, diff).nodes|
    ensures SyntaxTag(Contribute(s, c, anc, content, diff).nodes[k].tok.tag)
  {
    var toks := content.value;
    var before := Visible(s, anc);
    BeforeFacts(s, c, anc, toks, diff);
    PatchTokens(c, Plan(diff, TokensOf(s, before), toks), before, toks, Acc(Top, [], {}), k);
  }

  lemma TargetReady(w: Weave, s: State, ids: seq<nat>, c: nat, anc: set<nat>, content: Option<seq<Token>>, diff: Diff)
    requires CanWrite(w, s, ids, c, anc, content, diff)
    ensures IsDag(Graph(s)) && anc <= s.Keys
    ensures TargetOk(TargetOf(w, s, ids, c, Contribute(s, c, anc, content, diff)))
  {
    WriteArrives(w, s, ids, c, anc, content, diff);
    var r := Contribute(s, c, anc, content, diff);
    GrowTotal(s, ids, c, r);
    forall k | 0 <= k < |r.nodes|
      ensures SyntaxTag(r.nodes[k].tok.tag)
    {
      NewTags(s, c, anc, content, diff, k);
    }
  }

  const NEW_ACC: Acc := Acc(Top, [], {})

  function NewPen(body: seq<Byte>): Pen {
    Pen(body, [], ROOT_PAR, false, 0)
  }

  lemma PenReady(x: Target)
    requires TargetOk(x) && |x.w.body| <= OFF_MASK
    ensures PenOk(x, NewPen(x.w.body), NEW_ACC, {})
  {
    assert Wanted(x, 0, {}, {}) == {};
    assert x.w.body + [] == x.w.body;
  }

  ghost predicate NothingYet(u: seq<Op>, before: seq<Tid>, toks: seq<Token>) {
    u == [] && before == [] && toks == []
  }

  /** The script's first step: nothing written, everything owed. */
  lemma StepReady(w: Weave, s: State, ids: seq<nat>, c: nat, anc: set<nat>, content: Option<seq<Token>>, diff: Diff,
        u: seq<Op>, before: seq<Tid>, toks: seq<Token>)
    requires CanWrite(w, s, ids, c, anc, content, diff)
    requires IsDag(Graph(s)) && anc <= s.Keys
    requires content.None? ==> NothingYet(u, before, toks)
    requires content.Some? ==>
      before == Visible(s, anc) && toks == content.value && u == Plan(diff, TokensOf(s, before), toks)
    ensures var x := TargetOf(w, s, ids, c, Contribute(s, c, anc, content, diff));
      Step(x, NewPen(w.body), NEW_ACC, {}, u, before, toks)
  {
    hide Plan, Visible, Alive, Doc, Sound, GoodDiff;
    var x := TargetOf(w, s, ids, c, Contribute(s, c, anc, content, diff));
    TargetReady(w, s, ids, c, anc, content, diff);
    PenReady(x);
    if content.Some? {
      BeforeFacts(s, c, anc, content.value, diff);
    }
  }

  lemma GrowOffsets(s: State, ids: seq<nat>, c: nat, r: Rec, d: seq<Tid>, offs: seq<nat>)
    requires Arrives(s, ids, c, r) && Offsets(s, ids, d, offs)
    ensures Offsets(s[c := r], ids + [c], d, offs)
  {
    forall i | 0 <= i < |d|
      ensures OffsetAt(s[c := r], ids + [c], d[i], offs[i])
    {
      assert OffsetAt(s, ids, d[i], offs[i]);
      GrowToken(s, ids, c, r, d[i]);
    }
  }

  // ---------- the finished batch ----------

  /** The pen put down: all tokens written, all tombs dropped, every chain closed. */
  ghost predicate Finished(x: Target, p: Pen, closed: set<nat>) {
    && TargetOk(x)
    && p.body == x.w.body + Written(NodesIn(x)) && |p.body| <= OFF_MASK
    && Holds(p.batch, Wanted(x, |NodesIn(x)|, closed, x.s[x.c].tombs))
    && (forall k | k in closed :: k < |NodesIn(x)|)
    && (forall k | 0 <= k < |NodesIn(x)| :: k in closed || Continues(x.c, NodesIn(x), k, false))
  }

  lemma Finish(x: Target, p: Pen, acc: Acc, closed: set<nat>) returns (closed': set<nat>)
    requires Step(x, p, acc, closed, [], [], [])
    ensures Finished(x, CloseChain(p), closed')
  {
    hide Holds, Wanted, TargetOk, Written;
    closed' := CloseOk(x, p, acc, closed);
    assert Patch(x.c, [], [], [], acc) == acc;
    PenTarget(x, CloseChain(p), acc, closed');
  }

  lemma EntryKinds(x: Target, p: Pen, closed: set<nat>, e: Entry)
    requires Finished(x, p, closed) && e in p.batch
    ensures (exists k: nat :: k < |NodesIn(x)| && e == InsOf(x, k))
      || (exists k: nat :: k < |NodesIn(x)| && e == TermOf(x, k))
      || (exists t :: t in x.s[x.c].tombs && e == TombOf(x, t))
  {
    assert e in Wanted(x, |NodesIn(x)|, closed, x.s[x.c].tombs);
  }

  /** Each batch entry is an entry of the grown state, and past every entry stored before. */
  ghost predicate NewEntry(x: Target, e: Entry) {
    && IsEntry(x.s, x.ids, e)
    && (IsToken(e) ==> e.chi.off >= |x.w.body|)
    && (e.chi.tag == TERM_TAG ==> e.chi.off > |x.w.body|)
    && (e.chi.tag == TOMB_TAG ==> e.chi.off == |x.ids| - 1)
  }

  lemma BatchNew(x: Target, p: Pen, closed: set<nat>, e: Entry)
    requires Finished(x, p, closed) && e in p.batch
    ensures NewEntry(x, e)
  {
    EntryKinds(x, p, closed, e);
    if k: nat :| k < |NodesIn(x)| && e == InsOf(x, k) {
      OwnToken(x, k);
      assert IsIns(x.s, x.ids, e, Tid(x.c, k));
    } else if k: nat :| k < |NodesIn(x)| && e == TermOf(x, k) {
      OwnToken(x, k);
      assert IsTerm(x.s, x.ids, e, Tid(x.c, k));
      OffRange(x.s, x.ids, Tid(x.c, k));
    } else {
      var t :| t in x.s[x.c].tombs && e == TombOf(x, t);
      TombsHeld(x, x.s[x.c].tombs);
      DropToken(x, t);
      assert IsTomb(x.s, x.ids, e, x.c, t);
    }
  }

  lemma StoredBelow(w: Weave, s: State, ids: seq<nat>, e: Entry)
    requires Represents(w, s, ids) && e in w.idx
    ensures IsToken(e) ==> e.chi.off < |w.body|
    ensures e.chi.tag == TERM_TAG ==> e.chi.off <= |w.body|
    ensures e.chi.tag == TOMB_TAG ==> e.chi.off < |ids|
  {
    var i :| 0 <= i < |w.idx| && w.idx[i] == e;
    assert EntryAt(w.idx, s, ids, i);
    if t :| IsIns(s, ids, e, t) {
      InsFacts(w, s, ids, t);
      StoredToken(w, s, ids, t);
    } else if t :| IsTerm(s, ids, e, t) {
      TermFacts(w, s, ids, e, t);
      StoredToken(w, s, ids, t);
    } else {
      var x, t :| IsTomb(s, ids, e, x, t);
      TombFacts(w, s, ids, e, x, t);
    }
  }

  /** A batch entry was not stored before. */
  lemma BatchApart(w: Weave, s: State, ids: seq<nat>, c: nat, r: Rec, p: Pen, closed: set<nat>, e: Entry)
    requires Represents(w, s, ids) && Finished(TargetOf(w, s, ids, c, r), p, closed) && e in p.batch
    ensures e !in w.idx && IsEntry(s[c := r], ids + [c], e)
  {
    BatchNew(TargetOf(w, s, ids, c, r), p, closed, e);
    if e in w.idx {
      StoredBelow(w, s, ids, e);
    }
  }

  lemma BatchHasOwn(x: Target, p: Pen, closed: set<nat>, idx: seq<Entry>, k: nat)
    requires Finished(x, p, closed) && k < |NodesIn(x)| && forall e | e in p.batch :: e in idx
    ensures OwnCovered(x.s, x.ids, Tid(x.c, k), idx)
  {
    OwnToken(x, k);
    var es := Wanted(x, |NodesIn(x)|, closed, x.s[x.c].tombs);
    assert InsOf(x, k) in es;
    if ChainEnd(x.s, Tid(x.c, k)) {
      assert TermOf(x, k) in es;
    }
  }

  lemma BatchHasTomb(x: Target, p: Pen, closed: set<nat>, idx: seq<Entry>, t: Tid)
    requires Finished(x, p, closed) && t in x.s[x.c].tombs && forall e | e in p.batch :: e in idx
    ensures HasTomb(idx, x.s, x.ids, x.c, t)
  {
    TombsHeld(x, x.s[x.c].tombs);
    DropToken(x, t);
    assert TombOf(x, t) in Wanted(x, |NodesIn(x)|, closed, x.s[x.c].tombs);
  }

  lemma BatchCoversAll(x: Target, p: Pen, closed: set<nat>, idx: seq<Entry>)
    requires Finished(x, p, closed) && forall e | e in p.batch :: e in idx
    ensures x.c in x.s && BatchCovers(x.s, x.ids, x.c, idx)
  {
    hide OwnCovered, HasTomb, Holds, Wanted;
    forall k | 0 <= k < |x.s[x.c].nodes|
      ensures OwnCovered(x.s, x.ids, Tid(x.c, k), idx)
    {
      BatchHasOwn(x, p, closed, idx, k);
    }
    forall t | t in x.s[x.c].tombs
      ensures HasTomb(idx, x.s, x.ids, x.c, t)
    {
      BatchHasTomb(x, p, closed, idx, t);
    }
  }

  /** The streams after the fold are the old ones grown by the commit's record. */
  lemma FoldAppends(w: Weave, w': Weave, s: State, ids: seq<nat>, c: nat, r: Rec, p: Pen, closed: set<nat>)
    requires Represents(w, s, ids) && Arrives(s, ids, c, r)
    requires Finished(TargetOf(w, s, ids, c, r), p, closed)
    requires w'.body == p.body && w'.ign == w.ign + Unseen(ids, |ids|, r.anc)
    requires |w'.cmts| == |w.cmts| + 1 && w'.cmts[..|w.cmts|] == w.cmts
    requires LastIs(w'.cmts[|w.cmts|], c, |w.body|, |w'.body|, |w.ign|, |w'.ign|)
    requires Sorted(w'.idx) && forall e :: e in w'.idx <==> e in w.idx || e in p.batch
    ensures Appended(w, w', s, ids, c, r)
  {
    hide Represents, Finished, BatchCovers, Sorted, LastIs;
    forall e | e in w'.idx
      ensures Known(s[c := r], ids + [c], e, w.idx)
    {
      if e !in w.idx {
        BatchApart(w, s, ids, c, r, p, closed, e);
      }
    }
    BatchCoversAll(TargetOf(w, s, ids, c, r), p, closed, w'.idx);
    FinishedBody(TargetOf(w, s, ids, c, r), p, closed);
  }

  lemma FinishedBody(x: Target, p: Pen, closed: set<nat>)
    requires Finished(x, p, closed)
    ensures p.body == x.w.body + Written(NodesIn(x)) && |p.body| <= OFF_MASK
    ensures Sound(x.s) && NoDup(p.batch)
  {
  }

  // ---------- one fold ----------

  /** What one fold did to the streams. */
  datatype FoldStat = FoldStat(entriesOld: nat, entriesNew: nat, mergeSteps: nat, bodyBefore: nat, bodyAfter: nat)

  /** The body the fold would need is past the offset cap. */
  ghost predicate Overflows(w: Weave, r: Rec) {
    |w.body| + Len(r.nodes, |r.nodes|) > OFF_MASK
  }

  lemma TooBigIs(w: Weave, s: State, ids: seq<nat>, c: nat, r: Rec)
    requires Represents(w, s, ids) && Arrives(s, ids, c, r)
    ensures Arrived(s[c := r], ids + [c])
    ensures TooBig(TargetOf(w, s, ids, c, r)) <==> Overflows(w, r)
  {
    GrowTotal(s, ids, c, r);
  }

  lemma FinishedFits(w: Weave, s: State, ids: seq<nat>, c: nat, r: Rec, p: Pen, closed: set<nat>)
    requires Finished(TargetOf(w, s, ids, c, r), p, closed)
    ensures !Overflows(w, r)
  {
    WrittenLen(r.nodes);
  }

  /** The ghost side of a write: the state before, and the commit being folded. */
  datatype Job = Job(s: State, ids: seq<nat>, c: nat, anc: set<nat>, content: Option<seq<Token>>, diff: Diff)

  ghost predicate JobOk(w: Weave, j: Job) {
    CanWrite(w, j.s, j.ids, j.c, j.anc, j.content, j.diff)
  }

  ghost function JobRec(w: Weave, j: Job): (r: Rec)
    requires JobOk(w, j)
    ensures r.anc == j.anc
  {
    Contribute(j.s, j.c, j.anc, j.content, j.diff)
  }

  ghost function JobTarget(w: Weave, j: Job): Target
    requires JobOk(w, j)
  {
    TargetOf(w, j.s, j.ids, j.c, JobRec(w, j))
  }

  lemma JobFacts(w: Weave, j: Job)
    requires JobOk(w, j)
    ensures Represents(w, j.s, j.ids) && IsDag(Graph(j.s)) && j.anc <= j.s.Keys
    ensures JobRec(w, j) == Contribute(j.s, j.c, j.anc, j.content, j.diff)
    ensures Arrives(j.s, j.ids, j.c, JobRec(w, j))
    ensures TargetOk(JobTarget(w, j)) && Arrived(JobTarget(w, j).s, JobTarget(w, j).ids)
    ensures |JobTarget(w, j).ids| == |j.ids| + 1 && |w.cmts| == |j.ids|
    ensures TooBig(JobTarget(w, j)) <==> Overflows(w, JobRec(w, j))
  {
    WriteArrives(w, j.s, j.ids, j.c, j.anc, j.content, j.diff);
    TargetReady(w, j.s, j.ids, j.c, j.anc, j.content, j.diff);
    TooBigIs(w, j.s, j.ids, j.c, JobRec(w, j));
  }

  lemma JobStep(w: Weave, j: Job, u: seq<Op>, before: seq<Tid>, toks: seq<Token>)
    requires JobOk(w, j) && IsDag(Graph(j.s)) && j.anc <= j.s.Keys
    requires j.content.None? ==> NothingYet(u, before, toks)
    requires j.content.Some? ==>
      before == Visible(j.s, j.anc) && toks == j.content.value && u == Plan(j.diff, TokensOf(j.s, before), toks)
    ensures Step(JobTarget(w, j), NewPen(w.body), NEW_ACC, {}, u, before, toks)
  {
    StepReady(w, j.s, j.ids, j.c, j.anc, j.content, j.diff, u, before, toks);
  }

  lemma JobOffsets(w: Weave, j: Job, d: seq<Tid>, offs: seq<nat>)
    requires JobOk(w, j) && Offsets(j.s, j.ids, d, offs)
    ensures Offsets(JobTarget(w, j).s, JobTarget(w, j).ids, d, offs)
  {
    JobFacts(w, j);
    GrowOffsets(j.s, j.ids, j.c, JobRec(w, j), d, offs);
  }

  lemma JobFits(w: Weave, j: Job, p: Pen, closed: set<nat>)
    requires JobOk(w, j) && Finished(JobTarget(w, j), p, closed)
    ensures !Overflows(w, JobRec(w, j))
  {
    FinishedFits(w, j.s, j.ids, j.c, JobRec(w, j), p, closed);
  }

  lemma OffsetsLength(s: State, ids: seq<nat>, d: seq<Tid>, offs: seq<nat>)
    requires Offsets(s, ids, d, offs)
    ensures |offs| == |d|
  {
  }

  lemma PlanAdds(diff: Diff, base: seq<Token>, toks: seq<Token>)
    requires base == []
    ensures Plan(diff, base, toks) == Repeat(INS, |toks|) + [] && toks[0..] == toks
  {
    assert Repeat(INS, |toks|) + [] == Repeat(INS, |toks|);
  }

  lemma PlanDrops(diff: Diff, base: seq<Token>, toks: seq<Token>)
    requires base != [] && toks == []
    ensures Plan(diff, base, toks) == Repeat(DEL, |base|) + []
  {
    assert Repeat(DEL, |base|) + [] == Repeat(DEL, |base|);
  }

  lemma StepEnds(x: Target, p: Pen, acc: Acc, closed: set<nat>, before: seq<Tid>, toks: seq<Token>)
    ensures Step(x, p, acc, closed, [], before, toks) ==> before == [] && toks == []
  {
  }

  /** What is written are the bytes of the tokens that no pair of the diff keeps. */
  lemma JobWrites(w: Weave, j: Job, p: Pen, closed: set<nat>)
    requires JobOk(w, j) && Finished(JobTarget(w, j), p, closed) && j.content.Some?
    ensures IsDag(Graph(j.s)) && j.anc <= j.s.Keys && p.body == w.body + Written(JobRec(w, j).nodes)
    ensures p.body == w.body + Flatten(Unmatched(KeptPairs(j.diff, TokensOf(j.s, Visible(j.s, j.anc)), j.content.value),
                                                 j.content.value, 0))
  {
    hide Finished, Represents, Visible, TokensOf, Unmatched, KeptPairs, Written, Contribute, ToksOf, GoodDiff, Sound;
    JobFacts(w, j);
    FinishedBody(JobTarget(w, j), p, closed);
    FoldKeepsPairs(j.s, j.c, j.anc, j.content.value, j.diff);
    WrittenIs(JobRec(w, j).nodes);
  }

  /** The empty, all-new, all-dropped and diffed cases of the write, then the last chain closed. */
  method WriteBatch(w: Weave, content: Option<seq<Token>>, offs: seq<nat>, base: seq<Token>, diff: Diff,
        ghost j: Job, ghost before: seq<Tid>)
      returns (st: Status, p: Pen, ghost closed: set<nat>)
    requires JobOk(w, j) && j.content == content && j.diff == diff
    requires IsDag(Graph(j.s)) && j.anc <= j.s.Keys
    requires before == Visible(j.s, j.anc) && base == TokensOf(j.s, before) && Offsets(j.s, j.ids, before, offs)
    ensures st == if Overflows(w, JobRec(w, j)) then BIG else OK
    ensures st == OK ==> Finished(JobTarget(w, j), p, closed)
    ensures content.None? ==> p == NewPen(w.body)
    ensures st == OK && content.Some? ==>
      p.body == w.body + Flatten(Unmatched(KeptPairs(diff, base, content.value), content.value, 0))
  {
    hide JobOk, JobTarget, Offsets, Visible, TokensOf, TooBig, Overflows, Step, Finished, GoodDiff, Unmatched,
      KeptPairs, Flatten, JobRec;
    JobFacts(w, j);
    ghost var x, acc := JobTarget(w, j), NEW_ACC;
    p, closed := NewPen(w.body), {};
    st := OK;
    if content.Some? {
      var toks := content.value;
      ghost var u := Plan(diff, base, toks);
      JobStep(w, j, u, before, toks);
      JobOffsets(w, j, before, offs);
      TokensOfLength(j.s, before);
      OffsetsLength(j.s, j.ids, before, offs);
      if |offs| == 0 {
        PlanAdds(diff, base, toks);
        st, p, acc := AddRun(p, toks, 0, |toks|, x, acc, closed, [], before);
        StepEnds(x, p, acc, closed, before, toks[|toks|..]);
      } else if |toks| == 0 {
        PlanDrops(diff, base, toks);
        p, acc, closed := DropRun(p, offs, 0, |offs|, |w.cmts|, x, acc, closed, [], before, toks);
        StepEnds(x, p, acc, closed, before[|offs|..], toks);
      } else {
        st, p, acc, closed := PlayScript(p, diff(base, toks), offs, toks, |w.cmts|, x, acc, closed, before);
      }
      if st != OK {
        return;
      }
    } else {
      JobStep(w, j, [], [], []);
    }
    closed := Finish(x, p, acc, closed);
    p := CloseChain(p);
    JobFits(w, j, p, closed);
    if content.Some? {
      JobWrites(w, j, p, closed);
    }
  }

  // ---------- the commit record ----------

  /** The materialized length plays no part in the representation. */
  lemma PlenIrrelevant(w: Weave, w': Weave, s: State, ids: seq<nat>)
    requires Represents(w, s, ids) && w' == w.(cmts := w'.cmts)
    requires |w'.cmts| == |w.cmts| && forall i | 0 <= i < |w.cmts| :: w'.cmts[i] == w.cmts[i].(plen := w'.cmts[i].plen)
    ensures Represents(w', s, ids)
  {
    hide Sorted, Sound, Caps;
    forall i | 0 <= i < |ids|
      ensures RepCommit(w', s, ids, i)
    {
      assert RepCommit(w, s, ids, i);
    }
    forall t | Has(s, t)
      ensures RepToken(w', s, ids, t)
    {
      assert RepToken(w, s, ids, t);
    }
    forall c, t | c in s && t in s[c].tombs
      ensures HasTomb(w'.idx, s, ids, c, t)
    {
      assert HasTomb(w.idx, s, ids, c, t);
    }
    forall i | 0 <= i < |w'.idx|
      ensures EntryAt(w'.idx, s, ids, i)
    {
      assert EntryAt(w.idx, s, ids, i);
    }
  }

  /** An older commit shows in the grown state what it showed before. */
  lemma OlderShows(w: Weave, j: Job, x: nat)
    requires JobOk(w, j) && x in j.s
    ensures var s' := j.s[j.c := JobRec(w, j)];
      && IsDag(Graph(j.s)) && IsDag(Graph(s')) && x in s'
      && SeenBy(j.s, x) == SeenBy(s', x) && SeenBy(s', x) <= s'.Keys && SeenBy(j.s, x) <= j.s.Keys
      && Visible(j.s, SeenBy(j.s, x)) == Visible(s', SeenBy(s', x))
      && Render(j.s, SeenBy(j.s, x)) == Render(s', SeenBy(s', x))
  {
    hide Doc, Alive, Text, Visible, Render;
    var s' := j.s[j.c := JobRec(w, j)];
    WriteArrives(w, j.s, j.ids, j.c, j.anc, j.content, j.diff);
    assert DagAt(Graph(j.s), x);
    ScopeFrame(j.s, s', SeenBy(j.s, x));
  }

  lemma GrownRecorded(w: Weave, w': Weave, j: Job, out: seq<Byte>)
    requires JobOk(w, j) && Recorded(w, j.s, j.ids)
    requires var s', ids' := j.s[j.c := JobRec(w, j)], j.ids + [j.c];
      && Represents(w', s', ids') && |w.cmts| + 1 == |w'.cmts| && w'.cmts[..|w.cmts|] == w.cmts
      && SeenBy(s', j.c) <= s'.Keys && IsDag(Graph(s')) && out == Render(s', SeenBy(s', j.c))
      && w'.cmts[|w.cmts|].plen == |out|
    ensures Recorded(w', j.s[j.c := JobRec(w, j)], j.ids + [j.c])
  {
    hide Render, Represents, JobOk, JobRec;
    var s', ids' := j.s[j.c := JobRec(w, j)], j.ids + [j.c];
    JobFacts(w, j);
    forall i | 0 <= i < |ids'|
      ensures RecordedAt(w', s', ids', i)
    {
      if i < |j.ids| {
        assert RecordedAt(w, j.s, j.ids, i);
        OlderShows(w, j, j.ids[i]);
        assert w'.cmts[i] == w.cmts[i];
      }
    }
  }

  /** What the fold keeps stays where it is. */
  lemma JobKeeps(w: Weave, w': Weave, j: Job, p: Pen, closed: set<nat>)
    requires JobOk(w, j) && Finished(JobTarget(w, j), p, closed) && w'.body == p.body
    requires Represents(w', j.s[j.c := JobRec(w, j)], j.ids + [j.c])
    ensures IsDag(Graph(j.s)) && j.anc <= j.s.Keys
    ensures j.content.Some? ==> KeepsPlace(w, w', j.s, j.ids, j.c, j.anc, j.content.value, j.diff)
  {
    hide Finished, Represents, KeepsPlace, Contribute, GoodDiff, Sound;
    JobFacts(w, j);
    if j.content.Some? {
      JobWrites(w, j, p, closed);
      FoldKeepsTokens(w, w', j.s, j.ids, j.c, j.anc, j.content.value, j.diff);
    }
  }

  lemma PastView(w: Weave, j: Job)
    requires JobOk(w, j)
    ensures |w.body| == Start(j.s, j.ids, |j.ids|)
    ensures OneView(View(j.s, j.ids, [j.anc]), w, Scope(|w.body|, |j.ids|, Unseen(j.ids, |j.ids|, j.anc)), j.anc)
  {
    PastSees(j.s, j.ids, j.anc);
  }

  lemma NoBaseline(w: Weave, j: Job)
    requires JobOk(w, j) && w.idx == []
    ensures IsDag(Graph(j.s)) && j.anc <= j.s.Keys && Visible(j.s, j.anc) == []
    ensures TokensOf(j.s, []) == [] && Offsets(j.s, j.ids, [], [])
  {
    if Visible(j.s, j.anc) != [] {
      VisibleStored(w, j, Visible(j.s, j.anc)[0]);
    }
  }

  lemma VisibleStored(w: Weave, j: Job, t: Tid)
    requires JobOk(w, j) && IsDag(Graph(j.s)) && j.anc <= j.s.Keys && t in Visible(j.s, j.anc)
    ensures w.idx != []
  {
    DocElements(j.s, j.anc);
    FilterElements(Doc(j.s, j.anc), Alive(j.s, j.anc));
    assert RepToken(w, j.s, j.ids, t);
  }

  /** The merged streams represent the grown state. */
  lemma JobRepresents(w: Weave, w': Weave, j: Job, p: Pen, closed: set<nat>)
    requires JobOk(w, j) && Finished(JobTarget(w, j), p, closed)
    requires w'.body == p.body && w'.ign == w.ign + Unseen(j.ids, |j.ids|, j.anc)
    requires |w'.cmts| == |w.cmts| + 1 && w'.cmts[..|w.cmts|] == w.cmts
    requires LastIs(w'.cmts[|w.cmts|], j.c, |w.body|, |w'.body|, |w.ign|, |w'.ign|)
    requires Sorted(w'.idx) && forall e :: e in w'.idx <==> e in w.idx || e in p.batch
    ensures Represents(w', j.s[j.c := JobRec(w, j)], j.ids + [j.c])
  {
    hide Represents, Sorted, LastIs, Finished, Sound, GoodDiff;
    JobFacts(w, j);
    FinishedBody(JobTarget(w, j), p, closed);
    FoldAppends(w, w', j.s, j.ids, j.c, JobRec(w, j), p, closed);
    GrownRepresents(w, w', j.s, j.ids, j.c, JobRec(w, j));
  }

  lemma JobBatch(w: Weave, j: Job, p: Pen, closed: set<nat>)
    requires JobOk(w, j) && Finished(JobTarget(w, j), p, closed)
    ensures NoDup(p.batch) && forall e | e in p.batch :: e !in w.idx
    ensures Sorted(SortedBatch(p.batch)) && Same(SortedBatch(p.batch), p.batch)
    ensures Sorted(w.idx) && w.body <= p.body && |p.body| <= OFF_MASK
  {
    FinishedBody(JobTarget(w, j), p, closed);
    forall e | e in p.batch
      ensures e !in w.idx
    {
      BatchApart(w, j.s, j.ids, j.c, JobRec(w, j), p, closed, e);
    }
    BatchSorted(p.batch);
  }

  /** The file as the new commit's parents saw it. */
  method ReadPast(w: Weave, ign: seq<nat>, ghost j: Job) returns (st: Status, offs: seq<nat>, base: seq<Token>)
    requires JobOk(w, j) && ign == Unseen(j.ids, |j.ids|, j.anc)
    ensures IsDag(Graph(j.s)) && j.anc <= j.s.Keys && st == OK
    ensures base == TokensOf(j.s, Visible(j.s, j.anc)) && Offsets(j.s, j.ids, Visible(j.s, j.anc), offs)
  {
    hide JobOk, OneView, Offsets, TokensOf, Visible, Represents;
    JobFacts(w, j);
    st, offs, base := OK, [], [];
    if |w.idx| > 0 {
      PastView(w, j);
      st, offs, base := Baseline(w, Scope(|w.body|, |w.cmts|, ign), View(j.s, j.ids, [j.anc]), j.anc);
    } else {
      NoBaseline(w, j);
    }
  }

  /** Folds one commit in.  The body, the records and the pool are appended to; the index is rewritten in
    * one merge of exactly old + new steps. */
  method Fold(w: Weave, content: Option<seq<Token>>, c: nat, ancestors: seq<nat>, diff: Diff, ghost s: State,
          ghost ids: seq<nat>)
      returns (st: Status, w': Weave, stat: FoldStat)
    requires Recorded(w, s, ids) && CanWrite(w, s, ids, c, PastOf(s, ancestors), content, diff)
    ensures IsDag(Graph(s))
    ensures st == if Overflows(w, Contribute(s, c, PastOf(s, ancestors), content, diff)) then BIG else OK
    ensures st == OK ==> Recorded(w', CfoldHistory.Fold(s, c, PastOf(s, ancestors), content, diff), ids + [c])
    ensures st == OK ==>
      w.body <= w'.body && w.ign <= w'.ign && w.cmts <= w'.cmts && forall e | e in w.idx :: e in w'.idx
    ensures st == OK ==> stat.entriesOld == |w.idx| && stat.mergeSteps == stat.entriesOld + stat.entriesNew == |w'.idx|
    ensures st == OK ==> stat.bodyBefore == |w.body| && stat.bodyAfter == |w'.body|
    ensures st == OK && content.None? ==> w'.body == w.body && w'.idx == w.idx
    ensures st == OK && content.Some? ==>
      KeepsPlace(w, w', s, ids, c, PastOf(s, ancestors), content.value, diff)
  {
    hide Represents, Recorded, Finished, Sorted, JobTarget, GoodDiff, Overflows, OneView, Render, Offsets, TokensOf,
      Visible, IgnOf, RepCommit, KeepsPlace, Unmatched, KeptPairs, Flatten;
    ghost var j := Job(s, ids, c, PastOf(s, ancestors), content, diff);
    JobFacts(w, j);
    w', stat := w, FoldStat(0, 0, 0, 0, 0);
    var ign := NewIgnores(w, ancestors, s, ids);
    var offs: seq<nat>, base: seq<Token>;
    st, offs, base := ReadPast(w, ign, j);
    if st != OK {
      return;
    }
    var p: Pen;
    ghost var closed: set<nat>;
    st, p, closed := WriteBatch(w, content, offs, base, diff, j, Visible(s, j.anc));
    if st != OK {
      return;
    }
    FinishedBody(JobTarget(w, j), p, closed);
    if |p.body| > OFF_MASK {
      st := BIG;
      return;
    }
    var w1, batch, steps := Assemble(w, p, ign, c, j, closed);
    var out: seq<Byte>;
    st, out := RenderLast(w1, s[c := JobRec(w, j)], ids + [c]);
    var n := |w.cmts|;
    w' := w1.(cmts := w1.cmts[n := w1.cmts[n].(plen := |out|)]);
    PlenIrrelevant(w1, w', s[c := JobRec(w, j)], ids + [c]);
    GrownRecorded(w, w', j, out);
    JobKeeps(w, w', j, p, closed);
    stat := FoldStat(|w.idx|, |batch|, steps, |w.body|, |p.body|);
  }

  /** Sorts the batch, merges it into the index, and appends the record with its length still open. */
  method Assemble(w: Weave, p: Pen, ign: seq<nat>, c: nat, ghost j: Job, ghost closed: set<nat>)
      returns (w': Weave, batch: seq<Entry>, steps: nat)
    requires JobOk(w, j) && Finished(JobTarget(w, j), p, closed) && c == j.c
    requires ign == Unseen(j.ids, |j.ids|, j.anc)
    ensures Represents(w', j.s[j.c := JobRec(w, j)], j.ids + [j.c])
    ensures w.body <= w'.body == p.body && w.ign <= w'.ign
    ensures |w'.cmts| == |w.cmts| + 1 && w'.cmts[..|w.cmts|] == w.cmts
    ensures (forall e | e in w.idx :: e in w'.idx) && steps == |w.idx| + |batch| == |w'.idx|
    ensures p.batch == [] ==> w'.idx == w.idx
  {
    hide Represents, Finished, Sorted, JobTarget, JobRec, JobOk;
    JobBatch(w, j, p, closed);
    batch := SortedBatch(p.batch);
    var idx: seq<Entry>;
    idx, steps := MergeIndex(w.idx, batch);
    var rec := CRec(c, |w.body|, |p.body|, |p.body|, 0, |w.ign|, |ign|);
    w' := Weave(p.body, idx, w.cmts + [rec], w.ign + ign);
    JobRepresents(w, w', j, p, closed);
  }

  /** Renders the newest commit's own view. */
  method RenderLast(w: Weave, ghost s: State, ghost ids: seq<nat>) returns (st: Status, out: seq<Byte>)
    requires Represents(w, s, ids) && ids != []
    ensures ids[|ids| - 1] in s && SeenBy(s, ids[|ids| - 1]) <= s.Keys && IsDag(Graph(s))
    ensures st == OK && out == Render(s, SeenBy(s, ids[|ids| - 1]))
  {
    hide Represents, OneView, Render;
    ghost var c := ids[|ids| - 1];
    LastCommit(w, s, ids);
    CommitView(w, s, ids, |w.cmts| - 1);
    st, out := RenderScope(w, ScopeOf(w, |w.cmts| - 1), View(s, ids, [SeenBy(s, c)]), SeenBy(s, c));
  }

  lemma LastCommit(w: Weave, s: State, ids: seq<nat>)
    requires Represents(w, s, ids) && ids != []
    ensures |w.cmts| == |ids|
  {
  }
}
