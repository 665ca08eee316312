/** Folding one commit into a stored weave. */
module WeaveWrite {
  import opened Common
  import opened TopoOrder
  import opened Rga
  import opened Script
  import opened CfoldModel
  import opened CfoldFold
  import opened CfoldHistory
  import opened Weave
  import opened WeaveRep
  import opened WeaveFacts
  import opened WalkOrder
  import opened WeaveRead
  import opened WeaveGrow
  import opened WeavePen
  import opened IndexMerge

  // ---------- a run of changes is its insertions, then its deletions ----------

  ghost function InsIn(u: seq<Op>): nat {
    if u == [] then 0 else (if u[0] == INS then 1 else 0) + InsIn(u[1..])
  }

  ghost function DelIn(u: seq<Op>): nat {
    if u == [] then 0 else (if u[0] == DEL then 1 else 0) + DelIn(u[1..])
  }

  /** Two scripts that both fit and do the same. */
  ghost predicate SameEdit(c: nat, u: seq<Op>, v: seq<Op>, before: seq<Tid>, toks: seq<Token>, acc: Acc) {
    && Fits(u, |before|, |toks|) && Fits(v, |before|, |toks|)
    && Patch(c, u, before, toks, acc) == Patch(c, v, before, toks, acc)
  }

  lemma RepeatPeel(op: Op, n: nat, v: seq<Op>)
    requires n > 0
    ensures Repeat(op, n) + v == [op] + (Repeat(op, n - 1) + v)
  {
  }

  lemma RepeatNone(op: Op, v: seq<Op>)
    ensures Repeat(op, 0) + v == v
  {
  }

  lemma OneStep(c: nat, op: Op, v: seq<Op>, before: seq<Tid>, toks: seq<Token>, acc: Acc)
    requires op != EQ && Fits([op] + v, |before|, |toks|)
    ensures op == INS ==> toks != [] && Fits(v, |before|, |toks[1..]|)
    ensures op == INS ==>
      Patch(c, [op] + v, before, toks, acc) == Patch(c, v, before, toks[1..], Added(c, toks[0], acc))
    ensures op == DEL ==> before != [] && Fits(v, |before[1..]|, |toks|)
    ensures op == DEL ==>
      Patch(c, [op] + v, before, toks, acc) == Patch(c, v, before[1..], toks, acc.(tombs := acc.tombs + {before[0]}))
  {
    assert ([op] + v)[1..] == v;
  }

  lemma OneStepFits(op: Op, v: seq<Op>, a: nat, b: nat)
    ensures op == INS ==> Fits([op] + v, a, b + 1) == Fits(v, a, b)
    ensures op == DEL ==> Fits([op] + v, a + 1, b) == Fits(v, a, b)
  {
    assert ([op] + v)[1..] == v;
  }

  lemma {:induction false} BringIns(c: nat, n: nat, v: seq<Op>, before: seq<Tid>, toks: seq<Token>, acc: Acc)
    requires Fits([DEL] + (Repeat(INS, n) + v), |before|, |toks|)
    ensures SameEdit(c, [DEL] + (Repeat(INS, n) + v), Repeat(INS, n) + ([DEL] + v), before, toks, acc)
    decreases n
  {
    hide Fits, Patch, Repeat;
    OneStep(c, DEL, Repeat(INS, n) + v, before, toks, acc);
    if n == 0 {
      RepeatNone(INS, v);
      RepeatNone(INS, [DEL] + v);
    } else {
      var w := Repeat(INS, n - 1) + v;
      var acc' := acc.(tombs := acc.tombs + {before[0]});
      RepeatPeel(INS, n, v);
      RepeatPeel(INS, n, [DEL] + v);
      OneStep(c, INS, w, before[1..], toks, acc');
      OneStepFits(DEL, w, |before| - 1, |toks| - 1);
      BringIns(c, n - 1, v, before, toks[1..], Added(c, toks[0], acc));
      OneStep(c, DEL, w, before, toks[1..], Added(c, toks[0], acc));
      OneStepFits(INS, Repeat(INS, n - 1) + ([DEL] + v), |before|, |toks| - 1);
      OneStep(c, INS, Repeat(INS, n - 1) + ([DEL] + v), before, toks, acc);
    }
  }

  ghost function Normal(u: seq<Op>, v: seq<Op>): seq<Op> {
    Repeat(INS, InsIn(u)) + (Repeat(DEL, DelIn(u)) + v)
  }

  lemma CountCons(op: Op, u: seq<Op>)
    ensures InsIn([op] + u) == (if op == INS then 1 else 0) + InsIn(u)
    ensures DelIn([op] + u) == (if op == DEL then 1 else 0) + DelIn(u)
  {
    assert ([op] + u)[1..] == u;
  }

  lemma NormalCons(op: Op, u: seq<Op>, v: seq<Op>)
    ensures op == INS ==> Normal([op] + u, v) == [INS] + Normal(u, v)
    ensures op == DEL ==> Normal([op] + u, v) == Repeat(INS, InsIn(u)) + ([DEL] + (Repeat(DEL, DelIn(u)) + v))
  {
    hide InsIn, DelIn, Repeat;
    CountCons(op, u);
    if op == INS {
      RepeatPeel(INS, InsIn(u) + 1, Repeat(DEL, DelIn(u)) + v);
    } else if op == DEL {
      RepeatPeel(DEL, DelIn(u) + 1, v);
    }
  }

  /** A run without kept tokens does what its insertions and then its deletions do. */
  lemma {:induction false} NormalSame(c: nat, u: seq<Op>, v: seq<Op>, before: seq<Tid>, toks: seq<Token>, acc: Acc)
    requires EQ !in u && Fits(u + v, |before|, |toks|)
    ensures SameEdit(c, u + v, Normal(u, v), before, toks, acc)
    decreases |u|
  {
    hide Fits, Patch, Normal, Repeat;
    if u == [] {
      NormalNone(v);
    } else {
      var op, u' := u[0], u[1..];
      assert op in u;
      assert u == [op] + u';
      assert u + v == [op] + (u' + v);
      NormalCons(op, u', v);
      OneStep(c, op, u' + v, before, toks, acc);
      if op == INS {
        NormalSame(c, u', v, before, toks[1..], Added(c, toks[0], acc));
        OneStepFits(INS, Normal(u', v), |before|, |toks| - 1);
        OneStep(c, INS, Normal(u', v), before, toks, acc);
      } else {
        NormalSame(c, u', v, before[1..], toks, acc.(tombs := acc.tombs + {before[0]}));
        OneStepFits(DEL, Normal(u', v), |before| - 1, |toks|);
        OneStep(c, DEL, Normal(u', v), before, toks, acc);
        NormalIs(u', v);
        BringIns(c, InsIn(u'), Repeat(DEL, DelIn(u')) + v, before, toks, acc);
      }
    }
  }

  lemma NormalIs(u: seq<Op>, v: seq<Op>)
    ensures Normal(u, v) == Repeat(INS, InsIn(u)) + (Repeat(DEL, DelIn(u)) + v)
  {
  }

  lemma NormalNone(v: seq<Op>)
    ensures Normal([], v) == v == [] + v
  {
  }

  // ---------- edit steps ----------

  /** Midway through the script: what is left of it completes the commit's record. */
  ghost predicate Step(x: Target, p: Pen, acc: Acc, closed: set<nat>, u: seq<Op>, before: seq<Tid>, toks: seq<Token>) {
    && PenOk(x, p, acc, closed)
    && Fits(u, |before|, |toks|)
    && Patch(x.c, u, before, toks, acc).nodes == NodesIn(x)
    && Patch(x.c, u, before, toks, acc).tombs == x.s[x.c].tombs
    && NoDup(before) && forall t | t in before :: t !in acc.tombs
  }

  ghost predicate TooBig(x: Target)
    requires Arrived(x.s, x.ids)
  {
    Start(x.s, x.ids, |x.ids|) > OFF_MASK
  }

  lemma AddStays(x: Target, p: Pen, acc: Acc, closed: set<nat>, u: seq<Op>, before: seq<Tid>, toks: seq<Token>)
    requires Step(x, p, acc, closed, [INS] + u, before, toks)
    ensures toks != [] && Arrived(x.s, x.ids)
    ensures HasRoom(p, toks[0]) ==> Step(x, Add(p, toks[0]), Added(x.c, toks[0], acc), closed, u, before, toks[1..])
    ensures !HasRoom(p, toks[0]) ==> TooBig(x)
  {
    hide Patch, Fits, PenOk, TargetOk, Start, Len;
    OneStep(x.c, INS, u, before, toks, acc);
    var acc' := Added(x.c, toks[0], acc);
    PatchGrows(x.c, u, before, toks[1..], acc');
    PenTarget(x, p, acc, closed);
    if HasRoom(p, toks[0]) {
      AddOk(x, p, acc, closed, toks[0]);
    } else {
      NoRoom(x, p, acc, closed, toks[0]);
    }
  }

  lemma PenTarget(x: Target, p: Pen, acc: Acc, closed: set<nat>)
    requires PenOk(x, p, acc, closed)
    ensures TargetOk(x) && x.c in x.s && Arrived(x.s, x.ids)
  {
  }

  lemma NoRoom(x: Target, p: Pen, acc: Acc, closed: set<nat>, tok: Token)
    requires PenOk(x, p, acc, closed) && !HasRoom(p, tok) && Added(x.c, tok, acc).nodes <= NodesIn(x)
    ensures TooBig(x)
  {
    hide Holds, Wanted, Written, Sound;
    var n := |acc.nodes|;
    BodyAt(x, p, acc, closed);
    assert NodesIn(x)[n] == Added(x.c, tok, acc).nodes[n];
    LenMono(NodesIn(x), n + 1, |NodesIn(x)|);
  }

  lemma DropStays(x: Target, p: Pen, acc: Acc, closed: set<nat>, u: seq<Op>, before: seq<Tid>, toks: seq<Token>,
          off: nat)
      returns (closed': set<nat>)
    requires Step(x, p, acc, closed, [DEL] + u, before, toks)
    requires before != [] ==> OffsetAt(x.s, x.ids, before[0], off)
    ensures before != []
    ensures Step(x, Drop(p, off, |x.ids| - 1), acc.(tombs := acc.tombs + {before[0]}), closed', u, before[1..], toks)
  {
    hide Patch, Fits, PenOk, OffsetAt, Start, Len;
    PenTarget(x, p, acc, closed);
    OneStep(x.c, DEL, u, before, toks, acc);
    var acc' := acc.(tombs := acc.tombs + {before[0]});
    PatchGrows(x.c, u, before[1..], toks, acc');
    closed' := DropOk(x, p, acc, closed, before[0], off);
    assert before[0] !in before[1..];
  }

  lemma KeepStays(x: Target, p: Pen, acc: Acc, closed: set<nat>, u: seq<Op>, before: seq<Tid>, toks: seq<Token>,
          off: nat)
      returns (closed': set<nat>)
    requires Step(x, p, acc, closed, [EQ] + u, before, toks)
    requires before != [] ==> OffsetAt(x.s, x.ids, before[0], off)
    ensures before != [] && toks != []
    ensures Step(x, Keep(p, off), acc.(anchor := After(before[0])), closed', u, before[1..], toks[1..])
  {
    hide PenOk, OffsetAt, Start, Len;
    assert ([EQ] + u)[1..] == u;
    KeepStep(x.c, [EQ] + u, before, toks, acc);
    closed' := KeepOk(x, p, acc, closed, before[0], off);
  }

  // ---------- runs of steps ----------

  lemma DropMore<T>(s: seq<T>, k: nat)
    requires k <= |s|
    ensures s[k..] != [] ==> k < |s| && s[k..][0] == s[k] && s[k..][1..] == s[k + 1..]
  {
  }

  method AddRun(p0: Pen, toks: seq<Token>, ni: nat, n: nat,
        ghost x: Target, ghost acc0: Acc, ghost closed: set<nat>, ghost u: seq<Op>, ghost before: seq<Tid>)
      returns (st: Status, p: Pen, ghost acc: Acc)
    requires ni <= |toks| && Step(x, p0, acc0, closed, Repeat(INS, n) + u, before, toks[ni..])
    ensures Arrived(x.s, x.ids) && (st == OK || (st == BIG && TooBig(x)))
    ensures st == OK ==> ni + n <= |toks| && Step(x, p, acc, closed, u, before, toks[ni + n..])
  {
    hide Step, TooBig;
    p, acc := p0, acc0;
    StepTarget(x, p, acc, closed, Repeat(INS, n) + u, before, toks[ni..]);
    for k := 0 to n
      invariant ni + k <= |toks| && Step(x, p, acc, closed, Repeat(INS, n - k) + u, before, toks[ni + k..])
    {
      RepeatPeel(INS, n - k, u);
      AddStays(x, p, acc, closed, Repeat(INS, n - k - 1) + u, before, toks[ni + k..]);
      DropMore(toks, ni + k);
      var tok := toks[ni + k];
      if |p.body| + |tok.bytes| > OFF_MASK {
        st := BIG;
        return;
      }
      acc := Added(x.c, tok, acc);
      p := Add(p, tok);
    }
    RepeatNone(INS, u);
    st := OK;
  }

  lemma StepTarget(x: Target, p: Pen, acc: Acc, closed: set<nat>, u: seq<Op>, before: seq<Tid>, toks: seq<Token>)
    requires Step(x, p, acc, closed, u, before, toks)
    ensures TargetOk(x) && Arrived(x.s, x.ids) && x.ids != []
  {
  }

  method DropRun(p0: Pen, offs: seq<nat>, oi: nat, n: nat, cidx: nat,
        ghost x: Target, ghost acc0: Acc, ghost closed0: set<nat>, ghost u: seq<Op>, ghost before: seq<Tid>,
        ghost toks: seq<Token>)
      returns (p: Pen, ghost acc: Acc, ghost closed: set<nat>)
    requires oi <= |before| && Step(x, p0, acc0, closed0, Repeat(DEL, n) + u, before[oi..], toks)
    requires Offsets(x.s, x.ids, before, offs) && cidx == |x.ids| - 1
    ensures oi + n <= |before| && Step(x, p, acc, closed, u, before[oi + n..], toks)
    ensures p.body == p0.body && p.prevpar == p0.prevpar && (n > 0 ==> !p.chain)
    ensures |p.batch| == |p0.batch| + n + if n > 0 && p0.chain then 1 else 0
  {
    hide Step, OffsetAt;
    p, acc, closed := p0, acc0, closed0;
    for k := 0 to n
      invariant oi + k <= |before| && Step(x, p, acc, closed, Repeat(DEL, n - k) + u, before[oi + k..], toks)
      invariant p.body == p0.body && p.prevpar == p0.prevpar && (if k > 0 then !p.chain else p == p0)
      invariant |p.batch| == |p0.batch| + k + if k > 0 && p0.chain then 1 else 0
    {
      RepeatPeel(DEL, n - k, u);
      StepFits(x, p, acc, closed, DEL, Repeat(DEL, n - k - 1) + u, before[oi + k..], toks);
      DropMore(before, oi + k);
      assert OffsetAt(x.s, x.ids, before[oi + k], offs[oi + k]);
      closed := DropStays(x, p, acc, closed, Repeat(DEL, n - k - 1) + u, before[oi + k..], toks, offs[oi + k]);
      acc := acc.(tombs := acc.tombs + {before[oi + k]});
      p := Drop(p, offs[oi + k], cidx);
    }
    RepeatNone(DEL, u);
  }

  lemma StepFits(x: Target, p: Pen, acc: Acc, closed: set<nat>, op: Op, u: seq<Op>, before: seq<Tid>, toks: seq<Token>)
    requires Step(x, p, acc, closed, [op] + u, before, toks)
    ensures op == DEL || op == EQ ==> before != []
  {
  }

  method KeepRun(p0: Pen, offs: seq<nat>, oi: nat, ni: nat, n: nat,
        ghost x: Target, ghost acc0: Acc, ghost closed0: set<nat>, ghost u: seq<Op>, ghost before: seq<Tid>,
        ghost toks: seq<Token>)
      returns (p: Pen, ghost acc: Acc, ghost closed: set<nat>)
    requires oi <= |before| && ni <= |toks| && Step(x, p0, acc0, closed0, Repeat(EQ, n) + u, before[oi..], toks[ni..])
    requires Offsets(x.s, x.ids, before, offs)
    ensures oi + n <= |before| && ni + n <= |toks| && Step(x, p, acc, closed, u, before[oi + n..], toks[ni + n..])
    ensures oi + n <= |offs| && p == if n > 0 then Keep(p0, offs[oi + n - 1]) else p0
  {
    hide Step, OffsetAt;
    p, acc, closed := p0, acc0, closed0;
    for k := 0 to n
      invariant oi + k <= |before| && ni + k <= |toks| && p == if k > 0 then Keep(p0, offs[oi + k - 1]) else p0
      invariant Step(x, p, acc, closed, Repeat(EQ, n - k) + u, before[oi + k..], toks[ni + k..])
    {
      RepeatPeel(EQ, n - k, u);
      StepFits(x, p, acc, closed, EQ, Repeat(EQ, n - k - 1) + u, before[oi + k..], toks[ni + k..]);
      DropMore(before, oi + k);
      DropMore(toks, ni + k);
      assert OffsetAt(x.s, x.ids, before[oi + k], offs[oi + k]);
      closed := KeepStays(x, p, acc, closed, Repeat(EQ, n - k - 1) + u, before[oi + k..], toks[ni + k..], offs[oi + k]);
      acc := acc.(anchor := After(before[oi + k]));
      p := Keep(p, offs[oi + k]);
    }
    RepeatNone(EQ, u);
  }

  // ---------- the script ----------

  lemma {:induction false} CountConcat(u: seq<Op>, v: seq<Op>)
    ensures InsIn(u + v) == InsIn(u) + InsIn(v) && DelIn(u + v) == DelIn(u) + DelIn(v)
  {
    if u == [] {
      assert u + v == v;
    } else {
      assert (u + v)[1..] == u[1..] + v;
      CountConcat(u[1..], v);
    }
  }

  lemma {:induction false} CountRepeat(op: Op, n: nat)
    ensures InsIn(Repeat(op, n)) == (if op == INS then n else 0)
    ensures DelIn(Repeat(op, n)) == (if op == DEL then n else 0)
    ensures forall x | x in Repeat(op, n) :: x == op
  {
    if n > 0 {
      CountRepeat(op, n - 1);
      CountCons(op, Repeat(op, n - 1));
    }
  }

  /** What a run of non-kept edits adds up to. */
  ghost predicate RunSums(run: seq<Edit>, ins: nat, del: nat) {
    EQ !in Units(run) && InsIn(Units(run)) == ins && DelIn(Units(run)) == del
  }

  lemma RunSumsSnoc(run: seq<Edit>, ins: nat, del: nat, d: Edit)
    requires RunSums(run, ins, del) && d.op != EQ
    ensures d.op == INS ==> RunSums(run + [d], ins + d.len, del)
    ensures d.op == DEL ==> RunSums(run + [d], ins, del + d.len)
  {
    UnitsConcat(run, [d]);
    UnitsOne(d);
    CountConcat(Units(run), Repeat(d.op, d.len));
    CountRepeat(d.op, d.len);
  }

  /** Totals of the maximal run of changes starting at `ep`. */
  method SumRun(e: seq<Edit>, ep: nat) returns (ins: nat, del: nat, end: nat)
    requires ep < |e| && e[ep].op != EQ
    ensures ep < end <= |e| && RunSums(e[ep..end], ins, del)
    ensures end < |e| ==> e[end].op == EQ
  {
    hide RunSums;
    ins, del, end := 0, 0, ep;
    NoSums(e[ep..ep]);
    while end < |e| && e[end].op != EQ
      invariant ep <= end <= |e| && RunSums(e[ep..end], ins, del)
      invariant end == ep ==> end < |e| && e[end].op != EQ
      decreases |e| - end
    {
      RunSumsSnoc(e[ep..end], ins, del, e[end]);
      assert e[ep..end + 1] == e[ep..end] + [e[end]];
      if e[end].op == INS {
        ins := ins + e[end].len;
      } else {
        del := del + e[end].len;
      }
      end := end + 1;
    }
  }

  lemma NoSums(run: seq<Edit>)
    requires run == []
    ensures RunSums(run, 0, 0)
  {
  }

  /** The run at the head of the script, insertions first. */
  lemma RunFirst(x: Target, p: Pen, acc: Acc, closed: set<nat>, e: seq<Edit>, ep: nat, end: nat, ins: nat, del: nat,
        before: seq<Tid>, toks: seq<Token>)
    requires ep <= end <= |e| && RunSums(e[ep..end], ins, del)
    requires Step(x, p, acc, closed, Units(e[ep..]), before, toks)
    ensures Step(x, p, acc, closed, Repeat(INS, ins) + (Repeat(DEL, del) + Units(e[end..])), before, toks)
  {
    hide PenOk, Fits, Patch, Units, Repeat, Normal;
    assert e[ep..] == e[ep..end] + e[end..];
    UnitsConcat(e[ep..end], e[end..]);
    NormalSame(x.c, Units(e[ep..end]), Units(e[end..]), before, toks, acc);
    NormalIs(Units(e[ep..end]), Units(e[end..]));
  }

  lemma EditFirst(e: seq<Edit>, ep: nat)
    requires ep < |e|
    ensures Units(e[ep..]) == Repeat(e[ep].op, e[ep].len) + Units(e[ep + 1..])
  {
    assert e[ep..][1..] == e[ep + 1..];
  }

  lemma EditsDone(x: Target, p: Pen, acc: Acc, closed: set<nat>, e: seq<Edit>, before: seq<Tid>, toks: seq<Token>)
    requires Step(x, p, acc, closed, Units(e[|e|..]), before, toks)
    ensures Step(x, p, acc, closed, [], [], [])
  {
  }

  /** Plays a script: kept tokens move the parent, every maximal run of changes adds, then drops. */
  method PlayScript(p0: Pen, e: seq<Edit>, offs: seq<nat>, toks: seq<Token>, cidx: nat,
        ghost x: Target, ghost acc0: Acc, ghost closed0: set<nat>, ghost before: seq<Tid>)
      returns (st: Status, p: Pen, ghost acc: Acc, ghost closed: set<nat>)
    requires Step(x, p0, acc0, closed0, Units(e), before, toks)
    requires Offsets(x.s, x.ids, before, offs) && cidx == |x.ids| - 1
    ensures Arrived(x.s, x.ids) && (st == OK || (st == BIG && TooBig(x)))
    ensures st == OK ==> Step(x, p, acc, closed, [], [], [])
  {
    hide Step, Offsets, TooBig, RunSums, Units, Repeat;
    p, acc, closed := p0, acc0, closed0;
    StepTarget(x, p, acc, closed, Units(e), before, toks);
    var ep: nat, oi: nat, ni: nat := 0, 0, 0;
    assert e[0..] == e && before[0..] == before && toks[0..] == toks;
    while ep < |e|
      invariant ep <= |e| && oi <= |before| && ni <= |toks|
      invariant Step(x, p, acc, closed, Units(e[ep..]), before[oi..], toks[ni..])
      decreases |e| - ep
    {
      if e[ep].op == EQ {
        EditFirst(e, ep);
        p, acc, closed := KeepRun(p, offs, oi, ni, e[ep].len, x, acc, closed, Units(e[ep + 1..]), before, toks);
        oi, ni, ep := oi + e[ep].len, ni + e[ep].len, ep + 1;
        continue;
      }
      var ins, del, end := SumRun(e, ep);
      RunFirst(x, p, acc, closed, e, ep, end, ins, del, before[oi..], toks[ni..]);
      st, p, acc := AddRun(p, toks, ni, ins, x, acc, closed, Repeat(DEL, del) + Units(e[end..]), before[oi..]);
      if st != OK {
        return;
      }
      ni := ni + ins;
      p, acc, closed := DropRun(p, offs, oi, del, cidx, x, acc, closed, Units(e[end..]), before, toks[ni..]);
      oi, ep := oi + del, end;
    }
    EditsDone(x, p, acc, closed, e, before[oi..], toks[ni..]);
    st := OK;
  }
}
