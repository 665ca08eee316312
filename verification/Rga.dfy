/** The replicated growable array: a document as the replay of insertions.
  *
  * Every token is inserted right after its anchor, which is another token or the top of
  * the file.  Replaying tokens in the canonical order of their commits gives the document;
  * a preorder walk of the anchor tree that visits later siblings first gives the same.
  */
module Rga {
  import opened Common

  /** A token's canonical name: the commit that inserted it, and its ordinal in that commit. */
  datatype Tid = Tid(cid: nat, ord: nat)

  datatype Anchor = Top | After(t: Tid)

  /** `d` with `t` put right after every occurrence of `p`. */
  ghost function InsertAfter(d: seq<Tid>, p: Tid, t: Tid): seq<Tid> {
    if d == [] then []
    else if d[0] == p then [p, t] + InsertAfter(d[1..], p, t)
    else [d[0]] + InsertAfter(d[1..], p, t)
  }

  ghost function Insert(d: seq<Tid>, a: Anchor, t: Tid): seq<Tid> {
    match a
    case Top => [t] + d
    case After(p) => InsertAfter(d, p, t)
  }

  lemma {:induction false} InsertAfterConcat(d: seq<Tid>, e: seq<Tid>, p: Tid, t: Tid)
    ensures InsertAfter(d + e, p, t) == InsertAfter(d, p, t) + InsertAfter(e, p, t)
  {
    if d == [] {
      assert d + e == e;
    } else {
      assert (d + e)[1..] == d[1..] + e;
      InsertAfterConcat(d[1..], e, p, t);
    }
  }

  lemma {:induction false} InsertAfterAbsent(d: seq<Tid>, p: Tid, t: Tid)
    requires p !in d
    ensures InsertAfter(d, p, t) == d
  {
    if d != [] {
      InsertAfterAbsent(d[1..], p, t);
    }
  }

  lemma {:induction false} InsertElements(d: seq<Tid>, a: Anchor, t: Tid)
    ensures forall x | x in Insert(d, a, t) :: x in d || x == t
    ensures forall x | x in d :: x in Insert(d, a, t)
    ensures a.Top? || a.t in d ==> t in Insert(d, a, t)
    decreases |d|
  {
    if a.After? && d != [] {
      InsertElements(d[1..], a, t);
    }
  }

  lemma {:induction false} InsertNoDup(d: seq<Tid>, a: Anchor, t: Tid)
    requires NoDup(d) && t !in d
    ensures NoDup(Insert(d, a, t))
    decreases |d|
  {
    if a.After? && d != [] {
      var x, rest := d[0], d[1..];
      assert x !in rest;
      InsertElements(rest, a, t);
      InsertNoDup(rest, a, t);
      if x == a.t {
        InsertAfterAbsent(rest, a.t, t);
        assert Insert(d, a, t) == [x, t] + rest;
      } else {
        assert Insert(d, a, t) == [x] + Insert(rest, a, t);
      }
    }
  }

  /** Filtering commutes with insertion when a kept token has a kept anchor. */
  lemma {:induction false} FilterInsert(d: seq<Tid>, a: Anchor, t: Tid, keep: set<Tid>)
    requires t in keep && a.After? ==> a.t in keep
    ensures Filter(Insert(d, a, t), keep)
         == if t in keep then Insert(Filter(d, keep), a, t) else Filter(d, keep)
    decreases |d|
  {
    if a.Top? {
      FilterCons(t, d, keep);
    } else if d != [] {
      var rest := InsertAfter(d[1..], a.t, t);
      FilterInsert(d[1..], a, t, keep);
      if d[0] == a.t {
        assert Insert(d, a, t) == [d[0]] + ([t] + rest);
        FilterCons(d[0], [t] + rest, keep);
        FilterCons(t, rest, keep);
      } else {
        FilterCons(d[0], rest, keep);
      }
    }
  }

  // ---------- replay and preorder ----------

  /** The anchor of every token. */
  type Anchors = Tid -> Anchor

  ghost function Replay(n: seq<Tid>, am: Anchors): seq<Tid>
  {
    if n == [] then []
    else Insert(Replay(n[..|n| - 1], am), am(n[|n| - 1]), n[|n| - 1])
  }

  /** The largest index in [lo, hi) anchored at `q`, or -1. */
  ghost function Latest(n: seq<Tid>, am: Anchors, q: Anchor, lo: nat, hi: nat): (i: int)
    requires lo <= hi <= |n|
    ensures i == -1 || lo <= i < hi
    decreases hi
  {
    if hi == lo then -1
    else if am(n[hi - 1]) == q then hi - 1
    else Latest(n, am, q, lo, hi - 1)
  }

  /** Preorder walk of the children of `q` with index in [lo, hi), later index first. */
  ghost function Walk(n: seq<Tid>, am: Anchors, q: Anchor, lo: nat, hi: nat): seq<Tid>
    requires lo <= hi <= |n|
    decreases |n| - lo, hi
  {
    var i := Latest(n, am, q, lo, hi);
    if i < 0 then []
    else [n[i]] + Walk(n, am, After(n[i]), i + 1, |n|) + Walk(n, am, q, lo, i)
  }

  lemma {:induction false} LatestIsLargest(n: seq<Tid>, am: Anchors, q: Anchor, lo: nat, hi: nat, i: nat)
    requires lo <= i < hi <= |n| && am(n[i]) == q
    ensures i <= Latest(n, am, q, lo, hi)
    decreases hi
  {
    if am(n[hi - 1]) != q {
      LatestIsLargest(n, am, q, lo, hi - 1, i);
    }
  }

  lemma {:induction false} LatestHolds(n: seq<Tid>, am: Anchors, q: Anchor, lo: nat, hi: nat)
    requires lo <= hi <= |n|
    ensures var i := Latest(n, am, q, lo, hi); i >= 0 ==> am(n[i]) == q
    decreases hi
  {
    if hi > lo && am(n[hi - 1]) != q {
      LatestHolds(n, am, q, lo, hi - 1);
    }
  }

  lemma {:induction false} LatestExtend(n: seq<Tid>, am: Anchors, t: Tid, q: Anchor, lo: nat, hi: nat)
    requires lo <= hi <= |n|
    ensures Latest(n + [t], am, q, lo, hi) == Latest(n, am, q, lo, hi)
    decreases hi
  {
    if hi > lo && am(n[hi - 1]) != q {
      LatestExtend(n, am, t, q, lo, hi - 1);
    }
  }

  /** The last token in replay order is the first child of its anchor, and has no child. */
  lemma WalkTail(n: seq<Tid>, am: Anchors, t: Tid, q: Anchor, lo: nat)
    requires lo <= |n|
    ensures Walk(n + [t], am, q, lo, |n| + 1)
         == (if am(t) == q then [t] else []) + Walk(n + [t], am, q, lo, |n|)
  {
    var n' := n + [t];
    assert n'[|n|] == t;
    if am(t) == q {
      assert Latest(n', am, q, lo, |n| + 1) == |n|;
      assert Walk(n', am, After(t), |n| + 1, |n'|) == [];
    }
  }

  /** One more token, replayed last, is walked right after its anchor. */
  lemma {:induction false} WalkInsert(n: seq<Tid>, am: Anchors, t: Tid, q: Anchor, lo: nat, hi: nat)
    requires lo <= hi <= |n|
    requires am(t).After?
    ensures Walk(n + [t], am, q, lo, hi) == InsertAfter(Walk(n, am, q, lo, hi), am(t).t, t)
    decreases |n| - lo, hi
  {
    hide Walk, Latest, InsertAfter;
    LatestExtend(n, am, t, q, lo, hi);
    var i := Latest(n, am, q, lo, hi);
    if i < 0 {
      WalkNone(n, am, q, lo, hi);
      WalkNone(n + [t], am, q, lo, hi);
      InsertAfterAbsent([], am(t).t, t);
    } else {
      WalkInsert(n, am, t, After(n[i]), i + 1, |n|);
      WalkInsert(n, am, t, q, lo, i);
      WalkTail(n, am, t, After(n[i]), i + 1);
      var kids, rest := Walk(n, am, After(n[i]), i + 1, |n|), Walk(n, am, q, lo, i);
      WalkStep(n, am, q, lo, hi, i);
      WalkStep(n + [t], am, q, lo, hi, i);
      InsertSpliced(n[i], kids, rest, am(t).t, t);
    }
  }

  lemma InsertSpliced(x: Tid, kids: seq<Tid>, rest: seq<Tid>, p: Tid, t: Tid)
    ensures InsertAfter([x] + kids + rest, p, t)
         == [x] + ((if p == x then [t] else []) + InsertAfter(kids, p, t)) + InsertAfter(rest, p, t)
  {
    InsertAfterConcat([x] + kids, rest, p, t);
    InsertAfterConcat([x], kids, p, t);
    assert InsertAfter([x], p, t) == if p == x then [x, t] else [x];
  }

  lemma WalkNone(n: seq<Tid>, am: Anchors, q: Anchor, lo: nat, hi: nat)
    requires lo <= hi <= |n| && Latest(n, am, q, lo, hi) < 0
    ensures Walk(n, am, q, lo, hi) == []
  {
  }

  lemma WalkStep(n: seq<Tid>, am: Anchors, q: Anchor, lo: nat, hi: nat, i: nat)
    requires lo <= hi <= |n| && i == Latest(n, am, q, lo, hi)
    ensures Walk(n, am, q, lo, hi) == [n[i]] + Walk(n, am, After(n[i]), i + 1, |n|) + Walk(n, am, q, lo, i)
  {
  }

  /** A token at the top of the file leaves every other token where it was. */
  lemma {:induction false} WalkUnchanged(n: seq<Tid>, am: Anchors, t: Tid, q: Anchor, lo: nat, hi: nat)
    requires lo <= hi <= |n|
    requires am(t) == Top
    ensures Walk(n + [t], am, q, lo, hi) == Walk(n, am, q, lo, hi)
    decreases |n| - lo, hi
  {
    hide Walk, Latest;
    LatestExtend(n, am, t, q, lo, hi);
    var i := Latest(n, am, q, lo, hi);
    if i < 0 {
      WalkNone(n, am, q, lo, hi);
      WalkNone(n + [t], am, q, lo, hi);
    } else {
      WalkUnchanged(n, am, t, After(n[i]), i + 1, |n|);
      WalkUnchanged(n, am, t, q, lo, i);
      WalkTail(n, am, t, After(n[i]), i + 1);
      WalkStep(n, am, q, lo, hi, i);
      WalkStep(n + [t], am, q, lo, hi, i);
    }
  }

  /** The preorder walk is the replay. */
  lemma {:induction false} WalkIsReplay(n: seq<Tid>, am: Anchors)
    ensures Walk(n, am, Top, 0, |n|) == Replay(n, am)
  {
    if n != [] {
      var m, t := n[..|n| - 1], n[|n| - 1];
      assert n == m + [t];
      WalkIsReplay(m, am);
      if am(t).Top? {
        WalkUnchanged(m, am, t, Top, 0, |m|);
        WalkTail(m, am, t, Top, 0);
      } else {
        WalkInsert(m, am, t, Top, 0, |m|);
        WalkTail(m, am, t, Top, 0);
      }
    }
  }

  // ---------- facts about replay ----------

  /** Each token comes after its anchor. */
  ghost predicate AnchoredEarlier(n: seq<Tid>, am: Anchors)
  {
    forall i | 0 <= i < |n| :: EarlierAt(n, am, i)
  }

  ghost predicate EarlierAt(n: seq<Tid>, am: Anchors, i: nat)
    requires i < |n|
  {
    am(n[i]).After? ==> am(n[i]).t in n[..i]
  }

  lemma AnchoredAppend(a: seq<Tid>, b: seq<Tid>, am: Anchors)
    requires AnchoredEarlier(a, am)
    requires forall k | 0 <= k < |b| && am(b[k]).After? :: am(b[k]).t in a || am(b[k]).t in b[..k]
    ensures AnchoredEarlier(a + b, am)
  {
    var n := a + b;
    forall i | 0 <= i < |n|
      ensures EarlierAt(n, am, i)
    {
      if i < |a| {
        assert EarlierAt(a, am, i);
        assert n[..i] == a[..i];
      } else {
        assert n[i] == b[i - |a|];
        assert n[..i] == a + b[..i - |a|];
      }
    }
  }

  lemma AnchoredPrefix(n: seq<Tid>, am: Anchors)
    requires AnchoredEarlier(n, am) && NoDup(n) && n != []
    ensures var m := n[..|n| - 1];
      AnchoredEarlier(m, am) && NoDup(m) && n[|n| - 1] !in m
      && (am(n[|n| - 1]).After? ==> am(n[|n| - 1]).t in m)
  {
    var m := n[..|n| - 1];
    forall i | 0 <= i < |m|
      ensures EarlierAt(m, am, i)
    {
      assert EarlierAt(n, am, i);
      assert m[i] == n[i] && m[..i] == n[..i];
    }
    assert EarlierAt(n, am, |m|);
    assert n[..|m|] == m;
  }

  lemma {:induction false} ReplayElements(n: seq<Tid>, am: Anchors)
    requires AnchoredEarlier(n, am) && NoDup(n)
    ensures forall t | t in Replay(n, am) :: t in n
    ensures forall t | t in n :: t in Replay(n, am)
    ensures NoDup(Replay(n, am))
  {
    if n != [] {
      AnchoredPrefix(n, am);
      var m, t := n[..|n| - 1], n[|n| - 1];
      ReplayElements(m, am);
      var d := Replay(m, am);
      InsertElements(d, am(t), t);
      InsertNoDup(d, am(t), t);
      assert forall x | x in n :: x in m || x == t;
    }
  }

  /** Kept tokens with kept anchors: filtering the document is replaying the kept ones alone. */
  lemma {:induction false} ReplayFilter(n: seq<Tid>, am: Anchors, keep: set<Tid>)
    requires forall t | t in n && t in keep && am(t).After? :: am(t).t in keep
    ensures Filter(Replay(n, am), keep) == Replay(Filter(n, keep), am)
  {
    if n != [] {
      var m, t := n[..|n| - 1], n[|n| - 1];
      assert n == m + [t];
      FilterSnoc(m, t, keep);
      ReplayFilter(m, am, keep);
      FilterInsert(Replay(m, am), am(t), t, keep);
      if t in keep {
        assert Filter(n, keep)[..|Filter(m, keep)|] == Filter(m, keep);
      }
    }
  }

  lemma {:induction false} ReplayFrame(n: seq<Tid>, am: Anchors, am': Anchors)
    requires forall t | t in n :: am(t) == am'(t)
    ensures Replay(n, am) == Replay(n, am')
  {
    if n != [] {
      ReplayFrame(n[..|n| - 1], am, am');
    }
  }
}
