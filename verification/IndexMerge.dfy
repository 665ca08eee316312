/** The per-commit index rewrite: sort the new batch, merge it in, one sequential pass. */
module IndexMerge {
  import opened Common
  import opened Weave

  // ---------- the entry order ----------

  lemma LessTotal(a: Entry, b: Entry)
    ensures a == b || Less(a, b) || Less(b, a)
    ensures !(Less(a, b) && Less(b, a)) && !Less(a, a)
  {
  }

  lemma LessTrans(a: Entry, b: Entry, c: Entry)
    requires Less(a, b) && Less(b, c)
    ensures Less(a, c)
  {
  }

  ghost predicate Same(a: seq<Entry>, b: seq<Entry>) {
    |a| == |b| && forall e :: e in a <==> e in b
  }

  ghost predicate Above(a: seq<Entry>, e: Entry) {
    forall x | x in a :: Less(x, e)
  }

  lemma SortedSnoc(a: seq<Entry>, e: Entry)
    requires Sorted(a) && Above(a, e)
    ensures Sorted(a + [e])
  {
    var b := a + [e];
    forall i, j | 0 <= i < j < |b|
      ensures Less(b[i], b[j])
    {
      if j == |a| {
        assert a[i] in a;
      }
    }
  }

  lemma SortedAbove(a: seq<Entry>, k: nat)
    requires Sorted(a) && k < |a|
    ensures Above(a[..k], a[k])
  {
  }

  // ---------- the batch ----------

  /** `e` put in its place of a sorted batch. */
  function Place(a: seq<Entry>, e: Entry): seq<Entry> {
    if a == [] then [e]
    else if Less(e, a[|a| - 1]) then Place(a[..|a| - 1], e) + [a[|a| - 1]]
    else a + [e]
  }

  /** The sorted arrangement of a batch (any sort gives this one). */
  function SortedBatch(batch: seq<Entry>): seq<Entry> {
    if batch == [] then [] else Place(SortedBatch(batch[..|batch| - 1]), batch[|batch| - 1])
  }

  lemma {:induction false} PlaceElements(a: seq<Entry>, e: Entry)
    ensures |Place(a, e)| == |a| + 1
    ensures forall x :: x in Place(a, e) <==> x in a || x == e
  {
    if a != [] {
      var m, l := a[..|a| - 1], a[|a| - 1];
      assert a == m + [l];
      PlaceElements(m, e);
    }
  }

  lemma {:induction false} PlaceSorted(a: seq<Entry>, e: Entry)
    requires Sorted(a) && e !in a
    ensures Sorted(Place(a, e))
  {
    if a != [] {
      var m, l := a[..|a| - 1], a[|a| - 1];
      LessTotal(e, l);
      if Less(e, l) {
        PlaceSorted(m, e);
        PlaceElements(m, e);
        SortedAbove(a, |a| - 1);
        SortedSnoc(Place(m, e), l);
      } else {
        assert l in a;
        forall x | x in a
          ensures Less(x, e)
        {
          if x != l {
            SortedAbove(a, |a| - 1);
            assert a == m + [l];
            LessTrans(x, l, e);
          }
        }
        SortedSnoc(a, e);
      }
    }
  }

  lemma {:induction false} BatchSorted(batch: seq<Entry>)
    requires NoDup(batch)
    ensures Sorted(SortedBatch(batch)) && Same(SortedBatch(batch), batch)
  {
    if batch != [] {
      var m, e := batch[..|batch| - 1], batch[|batch| - 1];
      assert batch == m + [e];
      assert e !in m;
      BatchSorted(m);
      PlaceElements(SortedBatch(m), e);
      PlaceSorted(SortedBatch(m), e);
    }
  }

  // ---------- the merge ----------

  /** The merge so far: `out` holds the first `a` of the index and the first `b` of the batch, in order. */
  ghost predicate MergedTo(idx: seq<Entry>, batch: seq<Entry>, a: nat, b: nat, out: seq<Entry>) {
    && a <= |idx| && b <= |batch| && |out| == a + b
    && Sorted(out)
    && (forall e :: e in out <==> e in idx[..a] || e in batch[..b])
    && (a < |idx| ==> Above(out, idx[a]))
    && (b < |batch| ==> Above(out, batch[b]))
  }

  lemma TakeOld(idx: seq<Entry>, batch: seq<Entry>, a: nat, b: nat, out: seq<Entry>)
    requires Sorted(idx) && Sorted(batch) && MergedTo(idx, batch, a, b, out)
    requires a < |idx| && (b < |batch| ==> Less(idx[a], batch[b]))
    ensures MergedTo(idx, batch, a + 1, b, out + [idx[a]])
  {
    SortedSnoc(out, idx[a]);
    assert idx[..a + 1] == idx[..a] + [idx[a]];
    if a + 1 < |idx| {
      forall x | x in out + [idx[a]]
        ensures Less(x, idx[a + 1])
      {
        if x in out {
          LessTrans(x, idx[a], idx[a + 1]);
        }
      }
    }
  }

  lemma TakeNew(idx: seq<Entry>, batch: seq<Entry>, a: nat, b: nat, out: seq<Entry>)
    requires Sorted(idx) && Sorted(batch) && MergedTo(idx, batch, a, b, out)
    requires b < |batch| && (a < |idx| ==> Less(batch[b], idx[a]))
    ensures MergedTo(idx, batch, a, b + 1, out + [batch[b]])
  {
    SortedSnoc(out, batch[b]);
    assert batch[..b + 1] == batch[..b] + [batch[b]];
    if b + 1 < |batch| {
      forall x | x in out + [batch[b]]
        ensures Less(x, batch[b + 1])
      {
        if x in out {
          LessTrans(x, batch[b], batch[b + 1]);
        }
      }
    }
  }

  /** One sequential pass over both: every element is touched exactly once. */
  method MergeIndex(idx: seq<Entry>, batch: seq<Entry>) returns (out: seq<Entry>, steps: nat)
    requires Sorted(idx) && Sorted(batch) && forall e | e in batch :: e !in idx
    ensures steps == |idx| + |batch| == |out|
    ensures Sorted(out) && forall e :: e in out <==> e in idx || e in batch
    ensures batch == [] ==> out == idx
  {
    hide Sorted, Less;
    var a, b := 0, 0;
    out, steps := [], 0;
    MergeStart(idx, batch);
    while a < |idx| || b < |batch|
      invariant MergedTo(idx, batch, a, b, out) && steps == a + b
      invariant batch == [] ==> out == idx[..a]
      decreases |idx| - a + |batch| - b
    {
      steps := steps + 1;
      var takea: bool;
      if a >= |idx| {
        takea := false;
      } else if b >= |batch| {
        takea := true;
      } else {
        assert batch[b] in batch && idx[a] in idx;
        LessTotal(idx[a], batch[b]);
        takea := !Less(batch[b], idx[a]);
      }
      if takea {
        TakeOld(idx, batch, a, b, out);
        out := out + [idx[a]];
        a := a + 1;
      } else {
        TakeNew(idx, batch, a, b, out);
        out := out + [batch[b]];
        b := b + 1;
      }
    }
    assert idx[..a] == idx && batch[..b] == batch;
  }

  lemma MergeStart(idx: seq<Entry>, batch: seq<Entry>)
    ensures MergedTo(idx, batch, 0, 0, [])
  {
  }

  lemma SortedAt(a: seq<Entry>, i: nat, j: nat)
    requires Sorted(a) && i < j < |a|
    ensures Less(a[i], a[j])
  {
  }

  /** Merging leaves the old entries in their old order. */
  lemma MergeKeepsOrder(idx: seq<Entry>, out: seq<Entry>, i: nat, j: nat, p: nat, q: nat)
    requires Sorted(idx) && Sorted(out) && i < j < |idx| && p < |out| && q < |out|
    requires out[p] == idx[i] && out[q] == idx[j]
    ensures p < q
  {
    hide Sorted;
    SortedAt(idx, i, j);
    LessTotal(idx[i], idx[j]);
    if q < p {
      SortedAt(out, q, p);
    }
  }
}
