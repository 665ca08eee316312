/** What a fold keeps: the tokens its diff pairs are the tokens the new commit shows, and only the others are new. */
module CfoldKeeps {
  import opened Common
  import opened TopoOrder
  import opened Rga
  import opened Script
  import opened EditLists
  import opened CfoldModel
  import opened CfoldFold
  import opened CfoldHistory

  // ---------- the pairs of a diff ----------

  /** The pairs of old and new positions that the diff keeps; an empty side has none to keep. */
  ghost function KeptPairs(diff: Diff, a: seq<Token>, b: seq<Token>): seq<(nat, nat)> {
    if a == [] || b == [] then [] else Pairs(diff(a, b), 0, 0)
  }

  ghost predicate OldKept(ps: seq<(nat, nat)>, x: nat) {
    exists y: nat :: (x, y) in ps
  }

  ghost predicate NewKept(ps: seq<(nat, nat)>, y: nat) {
    exists x: nat :: (x, y) in ps
  }

  /** The tokens from new position `j` on that are in no pair, in order. */
  ghost function Unmatched(ps: seq<(nat, nat)>, toks: seq<Token>, j: nat): seq<Token>
    decreases |toks|
  {
    if toks == [] then [] else (if NewKept(ps, j) then [] else [toks[0]]) + Unmatched(ps, toks[1..], j + 1)
  }

  /** Pairs behind `j` are all that counts. */
  lemma {:induction false} UnmatchedSame(ps: seq<(nat, nat)>, qs: seq<(nat, nat)>, toks: seq<Token>, j: nat)
    requires forall y: nat | y >= j :: NewKept(ps, y) <==> NewKept(qs, y)
    ensures Unmatched(ps, toks, j) == Unmatched(qs, toks, j)
    decreases |toks|
  {
    hide NewKept;
    if toks != [] {
      UnmatchedSame(ps, qs, toks[1..], j + 1);
    }
  }

  // ---------- pairs step by step ----------

  /** The pairs of a script's steps, run from old position `i` and new position `j`. */
  ghost function StepPairs(u: seq<Op>, i: nat, j: nat): seq<(nat, nat)>
    decreases |u|
  {
    if u == [] then []
    else match u[0]
      case EQ => [(i, j)] + StepPairs(u[1..], i + 1, j + 1)
      case DEL => StepPairs(u[1..], i + 1, j)
      case INS => StepPairs(u[1..], i, j + 1)
  }

  lemma StepsOne(op: Op, u: seq<Op>, i: nat, j: nat)
    ensures var i', j' := i + (if op == INS then 0 else 1), j + (if op == DEL then 0 else 1);
      StepPairs([op] + u, i, j) == (if op == EQ then [(i, j)] else []) + StepPairs(u, i', j')
  {
    assert ([op] + u)[1..] == u;
  }

  lemma {:induction false} StepsRepeat(op: Op, n: nat, u: seq<Op>, i: nat, j: nat)
    ensures var i', j' := i + (if op == INS then 0 else n), j + (if op == DEL then 0 else n);
      StepPairs(Repeat(op, n) + u, i, j) == (if op == EQ then Diagonal(i, j, n) else []) + StepPairs(u, i', j')
    decreases n
  {
    hide StepPairs;
    if n == 0 {
      assert Repeat(op, n) + u == u;
    } else {
      var w := Repeat(op, n - 1) + u;
      var x, y := i + (if op == INS then 0 else 1), j + if op == DEL then 0 else 1;
      assert Repeat(op, n) + u == [op] + w;
      StepsOne(op, w, i, j);
      StepsRepeat(op, n - 1, u, x, y);
      if op == EQ {
        Assoc([(i, j)], Diagonal(x, y, n - 1), StepPairs(u, i + n, j + n));
      }
    }
  }

  /** Entry by entry or step by step, the pairs are the same. */
  lemma {:induction false} UnitsPairs(e: seq<Edit>, i: nat, j: nat)
    ensures StepPairs(Units(e), i, j) == Pairs(e, i, j)
    decreases |e|
  {
    hide StepPairs, Repeat;
    if e == [] {
      StepsNone(i, j);
    } else {
      StepsRepeat(e[0].op, e[0].len, Units(e[1..]), i, j);
      UnitsPairs(e[1..], i + (if e[0].op == INS then 0 else e[0].len), j + if e[0].op == DEL then 0 else e[0].len);
    }
  }

  lemma StepsNone(i: nat, j: nat)
    ensures StepPairs([], i, j) == []
  {
  }

  /** The steps the writer takes keep the pairs of its diff. */
  lemma PlanPairs(diff: Diff, a: seq<Token>, b: seq<Token>)
    ensures StepPairs(Plan(diff, a, b), 0, 0) == KeptPairs(diff, a, b)
  {
    hide StepPairs, Pairs, Repeat;
    StepsNone(0, |b|);
    StepsNone(|a|, 0);
    StepsRepeat(INS, |b|, [], 0, 0);
    StepsRepeat(DEL, |a|, [], 0, 0);
    assert Repeat(INS, |b|) + [] == Repeat(INS, |b|) && Repeat(DEL, |a|) + [] == Repeat(DEL, |a|);
    if a != [] && b != [] {
      UnitsPairs(diff(a, b), 0, 0);
    }
  }

  lemma {:induction false} StepsRange(u: seq<Op>, i: nat, j: nat, a: nat, b: nat)
    requires Fits(u, a, b)
    ensures forall p | p in StepPairs(u, i, j) :: i <= p.0 < i + a && j <= p.1 < j + b
    decreases |u|
  {
    if u != [] {
      match u[0]
      case EQ => StepsRange(u[1..], i + 1, j + 1, a - 1, b - 1);
      case DEL => StepsRange(u[1..], i + 1, j, a - 1, b);
      case INS => StepsRange(u[1..], i, j + 1, a, b - 1);
    }
  }

  /** One kept pair in front: the old token and the new one at its place are kept, the others as before. */
  lemma KeptFirst(ps: seq<(nat, nat)>, i: nat, j: nat)
    requires forall p | p in ps :: p.0 > i && p.1 > j
    ensures var qs := [(i, j)] + ps;
      && OldKept(qs, i) && NewKept(qs, j)
      && (forall x: nat | x > i :: OldKept(qs, x) <==> OldKept(ps, x))
      && (forall y: nat | y > j :: NewKept(qs, y) <==> NewKept(ps, y))
  {
    var qs := [(i, j)] + ps;
    assert (i, j) in qs;
    forall x: nat | x > i
      ensures OldKept(qs, x) <==> OldKept(ps, x)
    {
      if y: nat :| (x, y) in ps {
        assert (x, y) in qs;
      }
    }
    forall y: nat | y > j
      ensures NewKept(qs, y) <==> NewKept(ps, y)
    {
      if x: nat :| (x, y) in ps {
        assert (x, y) in qs;
      }
    }
  }

  // ---------- the merged document ----------

  /** Place `y` of the merged document, from old position `i` and new position `j` on, `k` tokens added before: the
    * old token paired with it, or the next new one. */
  ghost predicate Placed(c: nat, before: seq<Tid>, m: seq<Tid>, ps: seq<(nat, nat)>, toks: seq<Token>, j: nat, k: nat,
          y: nat)
    requires y < |m| == |toks|
  {
    && (forall x: nat | (x, j + y) in ps :: x < |before| && m[y] == before[x])
    && (!NewKept(ps, j + y) ==> m[y] == Tid(c, k + |Unmatched(ps, toks[..y], j)|))
  }

  ghost predicate AllPlaced(c: nat, before: seq<Tid>, m: seq<Tid>, ps: seq<(nat, nat)>, toks: seq<Token>, j: nat,
          k: nat)
  {
    |m| == |toks| && forall y: nat | y < |m| :: Placed(c, before, m, ps, toks, j, k, y)
  }

  lemma PlacedKept(c: nat, before: seq<Tid>, m: seq<Tid>, ps: seq<(nat, nat)>, toks: seq<Token>, i: nat, j: nat, k: nat)
    requires toks != [] && AllPlaced(c, before, m, ps, toks[1..], j + 1, k) && i < |before|
    requires forall p | p in ps :: p.0 > i && p.1 > j
    ensures AllPlaced(c, before, [before[i]] + m, [(i, j)] + ps, toks, j, k)
  {
    hide Unmatched, NewKept;
    var qs, m' := [(i, j)] + ps, [before[i]] + m;
    KeptFirst(ps, i, j);
    forall y: nat | y < |m'|
      ensures Placed(c, before, m', qs, toks, j, k, y)
    {
      if y > 0 {
        var z: nat := y - 1;
        assert Placed(c, before, m, ps, toks[1..], j + 1, k, z);
        UnmatchedFirst(qs, toks[..y], j);
        assert toks[..y][1..] == toks[1..][..z];
        UnmatchedSame(qs, ps, toks[1..][..z], j + 1);
      }
    }
  }

  lemma UnmatchedFirst(ps: seq<(nat, nat)>, toks: seq<Token>, j: nat)
    requires toks != []
    ensures Unmatched(ps, toks, j) == (if NewKept(ps, j) then [] else [toks[0]]) + Unmatched(ps, toks[1..], j + 1)
  {
  }

  lemma PlacedAdded(c: nat, before: seq<Tid>, m: seq<Tid>, ps: seq<(nat, nat)>, toks: seq<Token>, j: nat, k: nat)
    requires toks != [] && AllPlaced(c, before, m, ps, toks[1..], j + 1, k + 1)
    requires forall p | p in ps :: p.1 > j
    ensures AllPlaced(c, before, [Tid(c, k)] + m, ps, toks, j, k)
  {
    hide Unmatched, NewKept;
    var m' := [Tid(c, k)] + m;
    NotKept(ps, j);
    forall y: nat | y < |m'|
      ensures Placed(c, before, m', ps, toks, j, k, y)
    {
      if y > 0 {
        var z: nat := y - 1;
        assert Placed(c, before, m, ps, toks[1..], j + 1, k + 1, z);
        UnmatchedFirst(ps, toks[..y], j);
        assert toks[..y][1..] == toks[1..][..z];
        assert j + 1 + z == j + y && m'[y] == m[z];
      } else {
        UnmatchedNone(ps, j);
        assert toks[..y] == [] && j + y == j;
      }
    }
  }

  lemma UnmatchedNone(ps: seq<(nat, nat)>, j: nat)
    ensures Unmatched(ps, [], j) == []
  {
  }

  /** The merged document holds at each place the token paired with it, or the next new one. */
  lemma {:induction false} MergedPlaced(c: nat, u: seq<Op>, before: seq<Tid>, toks: seq<Token>, i: nat, j: nat, k: nat)
    requires i <= |before| && Fits(u, |before| - i, |toks|)
    ensures AllPlaced(c, before, Merged(c, u, before[i..], k), StepPairs(u, i, j), toks, j, k)
    decreases |u|
  {
    hide AllPlaced, Unmatched;
    if u == [] {
      NothingPlaced(c, before, toks, j, k);
    } else if u[0] == EQ {
      StepsRange(u[1..], i + 1, j + 1, |before| - i - 1, |toks| - 1);
      MergedPlaced(c, u[1..], before, toks[1..], i + 1, j + 1, k);
      assert before[i..][1..] == before[i + 1..];
      PlacedKept(c, before, Merged(c, u[1..], before[i + 1..], k), StepPairs(u[1..], i + 1, j + 1), toks, i, j, k);
    } else if u[0] == DEL {
      MergedPlaced(c, u[1..], before, toks, i + 1, j, k);
      assert before[i..][1..] == before[i + 1..];
    } else {
      StepsRange(u[1..], i, j + 1, |before| - i, |toks| - 1);
      MergedPlaced(c, u[1..], before, toks[1..], i, j + 1, k + 1);
      PlacedAdded(c, before, Merged(c, u[1..], before[i..], k + 1), StepPairs(u[1..], i, j + 1), toks, j, k);
    }
  }

  lemma NothingPlaced(c: nat, before: seq<Tid>, toks: seq<Token>, j: nat, k: nat)
    requires toks == []
    ensures AllPlaced(c, before, [], [], toks, j, k)
  {
  }

  // ---------- what is dropped, and what is written ----------

  ghost function OldUnmatched(ps: seq<(nat, nat)>, before: seq<Tid>, i: nat): set<Tid> {
    set x: nat | i <= x < |before| && !OldKept(ps, x) :: before[x]
  }

  lemma {:induction false} DroppedPairs(u: seq<Op>, before: seq<Tid>, n: nat, i: nat, j: nat)
    requires i <= |before| && Fits(u, |before| - i, n)
    ensures Dropped(u, before[i..]) == OldUnmatched(StepPairs(u, i, j), before, i)
    decreases |u|
  {
    if u == [] {
    } else if u[0] == EQ {
      StepsRange(u[1..], i + 1, j + 1, |before| - i - 1, n - 1);
      DroppedPairs(u[1..], before, n - 1, i + 1, j + 1);
      assert before[i..][1..] == before[i + 1..];
      DroppedKept(StepPairs(u[1..], i + 1, j + 1), before, i, j);
    } else if u[0] == DEL {
      StepsRange(u[1..], i + 1, j, |before| - i - 1, n);
      DroppedPairs(u[1..], before, n, i + 1, j);
      assert before[i..][1..] == before[i + 1..];
      DroppedNext(StepPairs(u[1..], i + 1, j), before, i);
    } else {
      DroppedPairs(u[1..], before, n - 1, i, j + 1);
    }
  }

  lemma DroppedKept(ps: seq<(nat, nat)>, before: seq<Tid>, i: nat, j: nat)
    requires i < |before| && forall p | p in ps :: p.0 > i && p.1 > j
    ensures OldUnmatched([(i, j)] + ps, before, i) == OldUnmatched(ps, before, i + 1)
  {
    hide OldKept;
    KeptFirst(ps, i, j);
    var qs := [(i, j)] + ps;
    forall t
      ensures t in OldUnmatched(qs, before, i) <==> t in OldUnmatched(ps, before, i + 1)
    {
      if x: nat :| i <= x < |before| && !OldKept(qs, x) && before[x] == t {
        assert x != i && !OldKept(ps, x);
      }
      if x: nat :| i + 1 <= x < |before| && !OldKept(ps, x) && before[x] == t {
        assert !OldKept(qs, x);
      }
    }
  }

  lemma DroppedNext(ps: seq<(nat, nat)>, before: seq<Tid>, i: nat)
    requires i < |before| && forall p | p in ps :: p.0 > i
    ensures OldUnmatched(ps, before, i) == {before[i]} + OldUnmatched(ps, before, i + 1)
  {
    assert !OldKept(ps, i);
    forall t
      ensures t in OldUnmatched(ps, before, i) <==> t in {before[i]} + OldUnmatched(ps, before, i + 1)
    {
      if x: nat :| i <= x < |before| && !OldKept(ps, x) && before[x] == t {
        assert x == i || x >= i + 1;
      }
    }
  }

  ghost function ToksOf(nodes: seq<Node>): (r: seq<Token>)
    ensures |r| == |nodes|
  {
    if nodes == [] then [] else ToksOf(nodes[..|nodes| - 1]) + [nodes[|nodes| - 1].tok]
  }

  lemma ToksOfMore(nodes: seq<Node>, d: Node)
    ensures ToksOf(nodes + [d]) == ToksOf(nodes) + [d.tok]
  {
    assert (nodes + [d])[..|nodes|] == nodes;
  }

  /** What a commit writes are the unmatched tokens, in order. */
  lemma {:induction false} PatchWrites(c: nat, u: seq<Op>, before: seq<Tid>, toks: seq<Token>, acc: Acc, i: nat, j: nat)
    requires Fits(u, |before|, |toks|)
    ensures ToksOf(Patch(c, u, before, toks, acc).nodes)
         == ToksOf(acc.nodes) + Unmatched(StepPairs(u, i, j), toks, j)
    decreases |u|
  {
    hide ToksOf, Unmatched, NewKept;
    if u == [] {
      UnmatchedNone([], j);
      assert ToksOf(acc.nodes) + [] == ToksOf(acc.nodes);
    } else if u[0] == EQ {
      var ps, acc' := StepPairs(u[1..], i + 1, j + 1), acc.(anchor := After(before[0]));
      KeepStep(c, u, before, toks, acc);
      PatchWrites(c, u[1..], before[1..], toks[1..], acc', i + 1, j + 1);
      StepsRange(u[1..], i + 1, j + 1, |before| - 1, |toks| - 1);
      KeptFirst(ps, i, j);
      UnmatchedFirst([(i, j)] + ps, toks, j);
      UnmatchedSame([(i, j)] + ps, ps, toks[1..], j + 1);
      assert [] + Unmatched(ps, toks[1..], j + 1) == Unmatched(ps, toks[1..], j + 1);
    } else if u[0] == DEL {
      DropStep(c, u, before, toks, acc);
      PatchWrites(c, u[1..], before[1..], toks, acc.(tombs := acc.tombs + {before[0]}), i + 1, j);
    } else {
      var ps := StepPairs(u[1..], i, j + 1);
      AddStep(c, u, before, toks, acc);
      PatchWrites(c, u[1..], before, toks[1..], Added(c, toks[0], acc), i, j + 1);
      StepsRange(u[1..], i, j + 1, |before|, |toks| - 1);
      NotKept(ps, j);
      UnmatchedFirst(ps, toks, j);
      ToksOfMore(acc.nodes, Node(acc.anchor, toks[0]));
      Assoc(ToksOf(acc.nodes), [toks[0]], Unmatched(ps, toks[1..], j + 1));
    }
  }

  lemma NotKept(ps: seq<(nat, nat)>, j: nat)
    requires forall p | p in ps :: p.1 > j
    ensures !NewKept(ps, j)
  {
  }

  // ---------- one fold ----------

  /** What one fold does, said with the pairs of its diff: a paired token of the past is the token shown in its new
    * place; every other token shown is the commit's own, in order; tombed are the tokens in no pair, and no others. */
  ghost predicate FoldedBy(s: State, s': State, c: nat, anc: set<nat>, toks: seq<Token>, diff: Diff)
    requires IsDag(Graph(s)) && anc <= s.Keys && IsDag(Graph(s')) && anc + {c} <= s'.Keys
  {
    var before, now := Visible(s, anc), Visible(s', anc + {c});
    var ps := KeptPairs(diff, TokensOf(s, before), toks);
    && |now| == |toks|
    && (forall p | p in ps :: p.0 < |before| && p.1 < |toks| && now[p.1] == before[p.0])
    && (forall y: nat | y < |toks| && !NewKept(ps, y) :: now[y] == Tid(c, |Unmatched(ps, toks[..y], 0)|))
    && ToksOf(s'[c].nodes) == Unmatched(ps, toks, 0)
    && s'[c].tombs == OldUnmatched(ps, before, 0)
  }

  lemma FoldKeepsPairs(s: State, c: nat, anc: set<nat>, toks: seq<Token>, diff: Diff)
    requires CanFold(s, c, anc, Some(toks), diff)
    ensures var s' := Fold(s, c, anc, Some(toks), diff);
      IsDag(Graph(s')) && anc + {c} <= s'.Keys && FoldedBy(s, s', c, anc, toks, diff)
  {
    hide Visible, Plan, Patch, Merged, Unmatched, OldKept, NewKept, StepPairs, TokensOf, BytesOf, Aligns, Fits,
      KeptPairs, ToksOf, Dropped, Doc;
    var s' := Fold(s, c, anc, Some(toks), diff);
    var before := Visible(s, anc);
    var a := TokensOf(s, before);
    var u, ps, acc := Plan(diff, a, toks), KeptPairs(diff, a, toks), Acc(Top, [], {});
    BeforeFacts(s, c, anc, toks, diff);
    FoldShows(s, c, anc, toks, diff);
    PlanPairs(diff, a, toks);
    assert before[0..] == before;
    MergedPlaced(c, u, before, toks, 0, 0, 0);
    StepsRange(u, 0, 0, |before|, |toks|);
    DroppedPairs(u, before, |toks|, 0, 0);
    PatchGrows(c, u, before, toks, acc);
    PatchWrites(c, u, before, toks, acc, 0, 0);
    NoToks();
    PlacedPairs(c, before, Visible(s', anc + {c}), ps, toks);
  }

  lemma NoToks()
    ensures ToksOf([]) == []
  {
  }

  lemma PlacedPairs(c: nat, before: seq<Tid>, m: seq<Tid>, ps: seq<(nat, nat)>, toks: seq<Token>)
    requires AllPlaced(c, before, m, ps, toks, 0, 0) && forall p | p in ps :: p.0 < |before| && p.1 < |toks|
    ensures forall p | p in ps :: m[p.1] == before[p.0]
    ensures forall y: nat | y < |toks| && !NewKept(ps, y) :: m[y] == Tid(c, |Unmatched(ps, toks[..y], 0)|)
  {
    hide Unmatched, NewKept;
    assert |m| == |toks|;
    forall p | p in ps
      ensures m[p.1] == before[p.0]
    {
      var y: nat := p.1;
      assert Placed(c, before, m, ps, toks, 0, 0, y);
      assert (p.0, 0 + y) == p;
    }
    forall y: nat | y < |toks| && !NewKept(ps, y)
      ensures m[y] == Tid(c, |Unmatched(ps, toks[..y], 0)|)
    {
      assert Placed(c, before, m, ps, toks, 0, 0, y);
    }
  }
}
