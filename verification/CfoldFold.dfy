/** What one commit adds to the weave, and why reading it back gives the folded file. */
module CfoldFold {
  import opened Common
  import opened TopoOrder
  import opened Rga
  import opened Script
  import opened CfoldModel

  /** The writer's running state: where the next insertion anchors, and what was written. */
  datatype Acc = Acc(anchor: Anchor, nodes: seq<Node>, tombs: set<Tid>)

  /** One commit's edit: kept tokens move the anchor, added ones hang off it and become it,
    * dropped ones get a tomb and leave the anchor alone. */
  ghost function Patch(c: nat, u: seq<Op>, before: seq<Tid>, new_: seq<Token>, acc: Acc): Acc {
    if u == [] then acc
    else match u[0]
      case EQ =>
        if before == [] || new_ == [] then acc
        else Patch(c, u[1..], before[1..], new_[1..], acc.(anchor := After(before[0])))
      case DEL =>
        if before == [] then acc
        else Patch(c, u[1..], before[1..], new_, acc.(tombs := acc.tombs + {before[0]}))
      case INS =>
        if new_ == [] then acc
        else Patch(c, u[1..], before, new_[1..], Added(c, new_[0], acc))
  }

  ghost function Added(c: nat, tok: Token, acc: Acc): Acc {
    Acc(After(Tid(c, |acc.nodes|)), acc.nodes + [Node(acc.anchor, tok)], acc.tombs)
  }

  /** The steps consume exactly `a` old and `b` new tokens. */
  ghost predicate Fits(u: seq<Op>, a: nat, b: nat) {
    if u == [] then a == 0 && b == 0
    else match u[0]
      case EQ => a > 0 && b > 0 && Fits(u[1..], a - 1, b - 1)
      case DEL => a > 0 && Fits(u[1..], a - 1, b)
      case INS => b > 0 && Fits(u[1..], a, b - 1)
  }

  /** The tokens of `before` the script keeps. */
  ghost function Kept(u: seq<Op>, before: seq<Tid>): seq<Tid> {
    if u == [] || before == [] then []
    else match u[0]
      case EQ => [before[0]] + Kept(u[1..], before[1..])
      case DEL => Kept(u[1..], before[1..])
      case INS => Kept(u[1..], before)
  }

  /** The new document: kept tokens and added ones in script order; `k` counts the added ones. */
  ghost function Merged(c: nat, u: seq<Op>, before: seq<Tid>, k: nat): seq<Tid> {
    if u == [] then []
    else match u[0]
      case EQ => if before == [] then [] else [before[0]] + Merged(c, u[1..], before[1..], k)
      case DEL => if before == [] then [] else Merged(c, u[1..], before[1..], k)
      case INS => [Tid(c, k)] + Merged(c, u[1..], before, k + 1)
  }

  ghost function InsertOwn(d: seq<Tid>, c: nat, nodes: seq<Node>): seq<Tid> {
    if nodes == [] then d
    else
      var n := |nodes| - 1;
      Insert(InsertOwn(d, c, nodes[..n]), nodes[n].anchor, Tid(c, n))
  }

  ghost function BytesOf(toks: seq<Token>): seq<seq<Byte>> {
    if toks == [] then [] else [toks[0].bytes] + BytesOf(toks[1..])
  }

  ghost function TokensOf(s: State, d: seq<Tid>): seq<Token> {
    if d == [] then [] else [Tok(s, d[0])] + TokensOf(s, d[1..])
  }

  ghost function Tok(s: State, t: Tid): Token {
    if Has(s, t) then s[t.cid].nodes[t.ord].tok else Token(0, [])
  }

  // ---------- the patch, replayed ----------

  /** The writer is at the end of `m`, which is where its anchor points. */
  ghost predicate AtEnd(m: seq<Tid>, a: Anchor) {
    a == if m == [] then Top else After(m[|m| - 1])
  }

  lemma InsertAtEnd(m: seq<Tid>, rest: seq<Tid>, a: Anchor, t: Tid)
    requires AtEnd(m, a) && NoDup(m + rest)
    ensures Insert(m + rest, a, t) == m + [t] + rest
  {
    if m != [] {
      var p, front := m[|m| - 1], m[..|m| - 1];
      var all := m + rest;
      assert all == front + ([p] + rest);
      assert p !in front && p !in rest by {
        assert all[|m| - 1] == p;
        forall x | x in front
          ensures x != p
        {
          var i :| 0 <= i < |front| && front[i] == x;
          assert all[i] == x;
        }
        forall x | x in rest
          ensures x != p
        {
          var i :| 0 <= i < |rest| && rest[i] == x;
          assert all[|m| + i] == x;
        }
      }
      InsertAfterConcat(front, [p] + rest, p, t);
      InsertAfterAbsent(front, p, t);
      InsertAfterAbsent(rest, p, t);
      assert InsertAfter([p] + rest, p, t) == [p, t] + rest by {
        assert ([p] + rest)[1..] == rest;
      }
      assert Insert(m + rest, a, t) == front + ([p, t] + rest);
    }
  }

  ghost predicate Fresh(c: nat, k: nat, d: seq<Tid>) {
    forall x | x in d && x.cid == c :: x.ord < k
  }

  lemma NoDupMiddle(m: seq<Tid>, t: Tid, rest: seq<Tid>)
    requires NoDup(m + rest) && t !in m && t !in rest
    ensures NoDup(m + [t] + rest)
  {
    var all, d := m + [t] + rest, m + rest;
    forall i, j | 0 <= i < j < |all|
      ensures all[i] != all[j]
    {
      if i != |m| && j != |m| {
        assert all[i] == d[if i < |m| then i else i - 1];
        assert all[j] == d[if j < |m| then j else j - 1];
      }
    }
  }

  /** Halfway through a script: `m` is the new document so far, the kept rest follows it. */
  ghost predicate Midway(c: nat, acc: Acc, base: seq<Tid>, m: seq<Tid>, rest: seq<Tid>) {
    && InsertOwn(base, c, acc.nodes) == m + rest
    && AtEnd(m, acc.anchor)
    && NoDup(m + rest)
    && Fresh(c, |acc.nodes|, m + rest)
  }

  lemma MidwayAdd(c: nat, acc: Acc, base: seq<Tid>, m: seq<Tid>, rest: seq<Tid>, tok: Token)
    requires Midway(c, acc, base, m, rest)
    ensures Midway(c, Added(c, tok, acc), base, m + [Tid(c, |acc.nodes|)], rest)
  {
    var k := |acc.nodes|;
    var t := Tid(c, k);
    var acc' := Added(c, tok, acc);
    assert forall x | x in m || x in rest :: x in m + rest;
    InsertAtEnd(m, rest, acc.anchor, t);
    assert acc'.nodes[..k] == acc.nodes;
    NoDupMiddle(m, t, rest);
    forall x | x in m + [t] + rest
      ensures x in m + rest || x == t
    {
    }
  }

  lemma MidwayKeep(c: nat, acc: Acc, base: seq<Tid>, m: seq<Tid>, x: Tid, rest: seq<Tid>)
    requires Midway(c, acc, base, m, [x] + rest)
    ensures Midway(c, acc.(anchor := After(x)), base, m + [x], rest)
  {
    assert m + ([x] + rest) == m + [x] + rest;
  }

  lemma SnocAssoc(m: seq<Tid>, x: Tid, rest: seq<Tid>)
    ensures m + [x] + rest == m + ([x] + rest)
  {
  }

  lemma KeepStep(c: nat, u: seq<Op>, before: seq<Tid>, new_: seq<Token>, acc: Acc)
    requires Fits(u, |before|, |new_|) && u != [] && u[0] == EQ
    ensures before != [] && new_ != [] && Fits(u[1..], |before[1..]|, |new_[1..]|)
    ensures Patch(c, u, before, new_, acc) == Patch(c, u[1..], before[1..], new_[1..], acc.(anchor := After(before[0])))
    ensures Kept(u, before) == [before[0]] + Kept(u[1..], before[1..])
    ensures forall k: nat :: Merged(c, u, before, k) == [before[0]] + Merged(c, u[1..], before[1..], k)
  {
  }

  lemma DropStep(c: nat, u: seq<Op>, before: seq<Tid>, new_: seq<Token>, acc: Acc)
    requires Fits(u, |before|, |new_|) && u != [] && u[0] == DEL
    ensures before != [] && Fits(u[1..], |before[1..]|, |new_|)
    ensures Patch(c, u, before, new_, acc)
         == Patch(c, u[1..], before[1..], new_, acc.(tombs := acc.tombs + {before[0]}))
    ensures Kept(u, before) == Kept(u[1..], before[1..])
    ensures forall k: nat :: Merged(c, u, before, k) == Merged(c, u[1..], before[1..], k)
  {
  }

  lemma AddStep(c: nat, u: seq<Op>, before: seq<Tid>, new_: seq<Token>, acc: Acc)
    requires Fits(u, |before|, |new_|) && u != [] && u[0] == INS
    ensures new_ != [] && Fits(u[1..], |before|, |new_[1..]|)
    ensures Patch(c, u, before, new_, acc) == Patch(c, u[1..], before, new_[1..], Added(c, new_[0], acc))
    ensures Kept(u, before) == Kept(u[1..], before)
    ensures forall k: nat :: Merged(c, u, before, k) == [Tid(c, k)] + Merged(c, u[1..], before, k + 1)
  {
  }

  lemma PatchDone(c: nat, before: seq<Tid>, new_: seq<Token>, acc: Acc, base: seq<Tid>, m: seq<Tid>)
    requires Midway(c, acc, base, m, Kept([], before))
    ensures InsertOwn(base, c, Patch(c, [], before, new_, acc).nodes) == m + Merged(c, [], before, |acc.nodes|)
  {
    assert m + [] == m;
  }

  /** Replaying the commit's own tokens over the kept ones gives the script's new document. */
  lemma {:induction false} PatchReplay(c: nat, u: seq<Op>, before: seq<Tid>, new_: seq<Token>, acc: Acc,
          base: seq<Tid>, m: seq<Tid>)
    requires Fits(u, |before|, |new_|)
    requires Midway(c, acc, base, m, Kept(u, before))
    ensures InsertOwn(base, c, Patch(c, u, before, new_, acc).nodes) == m + Merged(c, u, before, |acc.nodes|)
    decreases |u|
  {
    hide Midway, InsertOwn, Patch, Kept, Merged, Fits;
    var k := |acc.nodes|;
    if u == [] {
      PatchDone(c, before, new_, acc, base, m);
    } else if u[0] == EQ {
      KeepStep(c, u, before, new_, acc);
      MidwayKeep(c, acc, base, m, before[0], Kept(u[1..], before[1..]));
      PatchReplay(c, u[1..], before[1..], new_[1..], acc.(anchor := After(before[0])), base, m + [before[0]]);
      SnocAssoc(m, before[0], Merged(c, u[1..], before[1..], k));
    } else if u[0] == DEL {
      DropStep(c, u, before, new_, acc);
      MidwayDrop(c, acc, base, m, Kept(u, before), before[0]);
      PatchReplay(c, u[1..], before[1..], new_, acc.(tombs := acc.tombs + {before[0]}), base, m);
    } else {
      AddStep(c, u, before, new_, acc);
      MidwayAdd(c, acc, base, m, Kept(u, before), new_[0]);
      PatchReplay(c, u[1..], before, new_[1..], Added(c, new_[0], acc), base, m + [Tid(c, k)]);
      SnocAssoc(m, Tid(c, k), Merged(c, u[1..], before, k + 1));
    }
  }

  lemma MidwayDrop(c: nat, acc: Acc, base: seq<Tid>, m: seq<Tid>, rest: seq<Tid>, x: Tid)
    requires Midway(c, acc, base, m, rest)
    ensures Midway(c, acc.(tombs := acc.tombs + {x}), base, m, rest)
  {
  }

  // ---------- the shape of a patch ----------

  ghost function Dropped(u: seq<Op>, before: seq<Tid>): set<Tid> {
    if u == [] || before == [] then {}
    else match u[0]
      case EQ => Dropped(u[1..], before[1..])
      case DEL => {before[0]} + Dropped(u[1..], before[1..])
      case INS => Dropped(u[1..], before)
  }

  /** A patch extends what was written and tombs exactly the dropped tokens. */
  lemma {:induction false} PatchGrows(c: nat, u: seq<Op>, before: seq<Tid>, new_: seq<Token>, acc: Acc)
    requires Fits(u, |before|, |new_|)
    ensures acc.nodes <= Patch(c, u, before, new_, acc).nodes
    ensures Patch(c, u, before, new_, acc).tombs == acc.tombs + Dropped(u, before)
    decreases |u|
  {
    if u != [] {
      match u[0]
      case EQ =>
        PatchGrows(c, u[1..], before[1..], new_[1..], acc.(anchor := After(before[0])));
      case DEL =>
        PatchGrows(c, u[1..], before[1..], new_, acc.(tombs := acc.tombs + {before[0]}));
      case INS =>
        PatchGrows(c, u[1..], before, new_[1..], Added(c, new_[0], acc));
    }
  }

  /** An anchor inside the new document: the top, a kept token, or an earlier own token. */
  ghost predicate AnchorIn(a: Anchor, c: nat, k: nat, kept: set<Tid>) {
    a.After? ==> a.t in kept || (a.t.cid == c && a.t.ord < k)
  }

  ghost predicate AnchorsIn(nodes: seq<Node>, c: nat, kept: set<Tid>) {
    forall k | 0 <= k < |nodes| :: AnchorIn(nodes[k].anchor, c, k, kept)
  }

  lemma {:induction false} PatchAnchors(c: nat, u: seq<Op>, before: seq<Tid>, new_: seq<Token>, acc: Acc,
          kept: set<Tid>)
    requires Fits(u, |before|, |new_|)
    requires forall x | x in Kept(u, before) :: x in kept
    requires AnchorsIn(acc.nodes, c, kept) && AnchorIn(acc.anchor, c, |acc.nodes|, kept)
    ensures AnchorsIn(Patch(c, u, before, new_, acc).nodes, c, kept)
    decreases |u|
  {
    if u != [] {
      match u[0]
      case EQ =>
        assert Kept(u, before)[0] == before[0];
        PatchAnchors(c, u[1..], before[1..], new_[1..], acc.(anchor := After(before[0])), kept);
      case DEL =>
        PatchAnchors(c, u[1..], before[1..], new_, acc.(tombs := acc.tombs + {before[0]}), kept);
      case INS =>
        PatchAnchors(c, u[1..], before, new_[1..], Added(c, new_[0], acc), kept);
    }
  }

  ghost predicate Distinct(nodes: seq<Node>) {
    forall j, k | 0 <= j < k < |nodes| :: nodes[j].anchor != nodes[k].anchor
  }

  /** An anchor already behind the writer: not among the tokens to come. */
  ghost predicate Behind(a: Anchor, c: nat, k: nat, before: seq<Tid>) {
    a.After? ==> a.t !in before && (a.t.cid == c ==> a.t.ord < k)
  }

  ghost predicate AllBehind(acc: Acc, c: nat, before: seq<Tid>) {
    && Behind(acc.anchor, c, |acc.nodes|, before)
    && (forall k | 0 <= k < |acc.nodes| :: Behind(acc.nodes[k].anchor, c, |acc.nodes|, before))
    && (forall k | 0 <= k < |acc.nodes| :: acc.nodes[k].anchor != acc.anchor)
    && Distinct(acc.nodes)
  }

  /** No two tokens of one commit hang off the same anchor. */
  lemma {:induction false} PatchDistinct(c: nat, u: seq<Op>, before: seq<Tid>, new_: seq<Token>, acc: Acc)
    requires Fits(u, |before|, |new_|)
    requires NoDup(before) && forall x | x in before :: x.cid != c
    requires AllBehind(acc, c, before)
    ensures Distinct(Patch(c, u, before, new_, acc).nodes)
    decreases |u|
  {
    if u != [] {
      match u[0]
      case EQ =>
        assert before[0] !in before[1..];
        PatchDistinct(c, u[1..], before[1..], new_[1..], acc.(anchor := After(before[0])));
      case DEL =>
        PatchDistinct(c, u[1..], before[1..], new_, acc.(tombs := acc.tombs + {before[0]}));
      case INS =>
        PatchDistinct(c, u[1..], before, new_[1..], Added(c, new_[0], acc));
    }
  }

  lemma {:induction false} PatchTokens(c: nat, u: seq<Op>, before: seq<Tid>, new_: seq<Token>, acc: Acc, j: nat)
    requires Fits(u, |before|, |new_|)
    requires |acc.nodes| <= j < |Patch(c, u, before, new_, acc).nodes|
    ensures Patch(c, u, before, new_, acc).nodes[j].tok in new_
    decreases |u|
  {
    if u != [] {
      match u[0]
      case EQ =>
        PatchTokens(c, u[1..], before[1..], new_[1..], acc.(anchor := After(before[0])), j);
      case DEL =>
        PatchTokens(c, u[1..], before[1..], new_, acc.(tombs := acc.tombs + {before[0]}), j);
      case INS =>
        var acc' := Added(c, new_[0], acc);
        PatchGrows(c, u[1..], before, new_[1..], acc');
        if j == |acc.nodes| {
          assert Patch(c, u, before, new_, acc).nodes[j] == acc'.nodes[j];
        } else {
          PatchTokens(c, u[1..], before, new_[1..], acc', j);
        }
    }
  }

  lemma {:induction false} KeptElements(u: seq<Op>, before: seq<Tid>)
    ensures forall x | x in Kept(u, before) :: x in before
    ensures forall x | x in Dropped(u, before) :: x in before
    ensures NoDup(before) ==> NoDup(Kept(u, before))
    decreases |u|
  {
    if u != [] && before != [] {
      match u[0]
      case EQ =>
        KeptElements(u[1..], before[1..]);
        assert NoDup(before) ==> before[0] !in before[1..];
      case DEL =>
        KeptElements(u[1..], before[1..]);
      case INS =>
        KeptElements(u[1..], before);
    }
  }

  /** Keeping is filtering out the dropped ones. */
  lemma {:induction false} KeptIsFilter(u: seq<Op>, before: seq<Tid>, n: nat, keep: set<Tid>)
    requires Fits(u, |before|, n) && NoDup(before)
    requires forall x | x in before :: x in keep <==> x !in Dropped(u, before)
    ensures Filter(before, keep) == Kept(u, before)
    decreases |u|
  {
    if u != [] && before != [] {
      KeptElements(u[1..], before[1..]);
      match u[0]
      case EQ =>
        assert before[0] !in before[1..];
        KeptIsFilter(u[1..], before[1..], n - 1, keep);
      case DEL =>
        assert before[0] !in before[1..];
        KeptIsFilter(u[1..], before[1..], n, keep);
      case INS =>
        KeptIsFilter(u[1..], before, n - 1, keep);
    }
  }
}
