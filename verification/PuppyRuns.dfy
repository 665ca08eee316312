/** Records in runs: what a run stands for, the lane's two roles, and the dictionary of runs with the memtable last. */
module PuppyRuns {
  import opened Common

  datatype Rec = Rec(key: nat, val: nat)

  /** A mapped file: what is sorted already, and what was put since. */
  datatype Buf = Buf(past: seq<Rec>, data: seq<Rec>)

  /** Run keys in order, the memtable past them all. */
  datatype Key = Run(k: nat) | Mem

  datatype Ent = Ent(key: Key, fd: nat)

  /** The typed roles: tidy a memtable, merge some runs, oldest first. */
  datatype Lane = Lane(sync: (Buf, bool) -> Buf, merge: seq<seq<Rec>> -> seq<Rec>)

  // ---------- last write wins ----------

  /** What some records stand for, oldest first: the last value of every key. */
  function Puts(rs: seq<Rec>): map<nat, nat> {
    if rs == [] then map[] else Puts(rs[..|rs| - 1])[rs[|rs| - 1].key := rs[|rs| - 1].val]
  }

  lemma {:induction false} PutsConcat(a: seq<Rec>, b: seq<Rec>)
    ensures Puts(a + b) == Puts(a) + Puts(b)
  {
    if b == [] {
      assert a + b == a;
    } else {
      assert (a + b)[..|a + b| - 1] == a + b[..|b| - 1];
      PutsConcat(a, b[..|b| - 1]);
    }
  }

  /** Records may be replaced by others that stand for the same, in the middle of anything. */
  lemma PutsReplace(a: seq<Rec>, x: seq<Rec>, y: seq<Rec>, b: seq<Rec>)
    requires Puts(x) == Puts(y)
    ensures Puts(a + x + b) == Puts(a + y + b)
  {
    hide Puts;
    PutsConcat(a + x, b);
    PutsConcat(a + y, b);
    PutsConcat(a, x);
    PutsConcat(a, y);
  }

  ghost predicate Sorted(rs: seq<Rec>) {
    forall i, j | 0 <= i < j < |rs| :: rs[i].key < rs[j].key
  }

  // ---------- the lane ----------

  function Flat(srcs: seq<seq<Rec>>): seq<Rec> {
    if srcs == [] then [] else Flat(srcs[..|srcs| - 1]) + srcs[|srcs| - 1]
  }

  lemma {:induction false} FlatConcat(a: seq<seq<Rec>>, b: seq<seq<Rec>>)
    ensures Flat(a + b) == Flat(a) + Flat(b)
  {
    if b == [] {
      assert a + b == a;
    } else {
      assert (a + b)[..|a + b| - 1] == a + b[..|b| - 1];
      FlatConcat(a, b[..|b| - 1]);
    }
  }

  function All(b: Buf): seq<Rec> {
    b.past + b.data
  }

  /** A sync leaves sorted data that stands for the same; a collapse folds it into what is sorted already. */
  ghost predicate SyncOk(b: Buf, r: Buf, collapse: bool) {
    && Puts(All(r)) == Puts(All(b)) && |All(r)| <= |All(b)| && Sorted(r.data)
    && (Sorted(b.past) ==> Sorted(r.past)) && (if collapse then r.data == [] else r.past == b.past)
  }

  /** A merge of sorted runs is one sorted run, the last write winning. */
  ghost predicate MergeOk(srcs: seq<seq<Rec>>, r: seq<Rec>) {
    (forall s | s in srcs :: Sorted(s)) ==> Sorted(r) && Puts(r) == Puts(Flat(srcs)) && |r| <= |Flat(srcs)|
  }

  ghost predicate GoodLane(lane: Lane) {
    && (forall b: Buf, c: bool :: SyncOk(b, lane.sync(b, c), c))
    && (forall srcs: seq<seq<Rec>> :: MergeOk(srcs, lane.merge(srcs)))
  }

  // ---------- the dictionary ----------

  function RunsOf(pups: seq<Ent>): seq<Ent> {
    if pups == [] then []
    else
      var m := RunsOf(pups[..|pups| - 1]);
      if pups[|pups| - 1].key.Mem? then m else m + [pups[|pups| - 1]]
  }

  function MemsOf(pups: seq<Ent>): seq<Ent> {
    if pups == [] then []
    else
      var m := MemsOf(pups[..|pups| - 1]);
      if pups[|pups| - 1].key.Mem? then m + [pups[|pups| - 1]] else m
  }

  lemma {:induction false} SplitConcat(a: seq<Ent>, b: seq<Ent>)
    ensures RunsOf(a + b) == RunsOf(a) + RunsOf(b) && MemsOf(a + b) == MemsOf(a) + MemsOf(b)
  {
    if b == [] {
      assert a + b == a;
    } else {
      assert (a + b)[..|a + b| - 1] == a + b[..|b| - 1];
      SplitConcat(a, b[..|b| - 1]);
    }
  }

  lemma {:induction false} OnlyRuns(a: seq<Ent>)
    requires forall e | e in a :: e.key.Run?
    ensures RunsOf(a) == a && MemsOf(a) == []
  {
    if a != [] {
      OnlyRuns(a[..|a| - 1]);
      assert a[|a| - 1] in a;
    }
  }

  lemma {:induction false} OnlyMems(a: seq<Ent>)
    requires forall e | e in a :: e.key.Mem?
    ensures RunsOf(a) == [] && MemsOf(a) == a
  {
    if a != [] {
      OnlyMems(a[..|a| - 1]);
      assert a[|a| - 1] in a;
    }
  }

  lemma OneMem(e: Ent)
    requires e.key.Mem?
    ensures RunsOf([e]) == [] && MemsOf([e]) == [e]
  {
    OnlyMems([e]);
  }

  /** Moving the only memtable entry back changes no order. */
  lemma Rotated(a: seq<Ent>, t: Ent, b: seq<Ent>, z: seq<Ent>)
    requires t.key.Mem? && |MemsOf(a + [t] + b + z)| <= 1
    ensures RunsOf(a + b + [t] + z) == RunsOf(a + [t] + b + z) && MemsOf(a + b + [t] + z) == MemsOf(a + [t] + b + z)
  {
    hide RunsOf, MemsOf;
    OneMem(t);
    SplitConcat(a + [t] + b, z);
    SplitConcat(a + [t], b);
    SplitConcat(a, [t]);
    SplitConcat(a + b + [t], z);
    SplitConcat(a + b, [t]);
    SplitConcat(a, b);
  }

  /** Moves the memtable's entry to the end; the runs keep their order. */
  method Tail(pups: seq<Ent>) returns (r: seq<Ent>)
    requires |MemsOf(pups)| <= 1
    ensures r == RunsOf(pups) + MemsOf(pups)
  {
    hide RunsOf, MemsOf;
    r := pups;
    var n, i := |r|, 0;
    while i < n
      invariant 0 <= i <= n <= |r|
      invariant RunsOf(r) == RunsOf(pups) && MemsOf(r) == MemsOf(pups)
      invariant forall e | e in r[..i] :: e.key.Run?
      invariant forall e | e in r[n..] :: e.key.Mem?
      decreases n - i
    {
      if r[i].key.Run? {
        assert r[..i + 1] == r[..i] + [r[i]];
        i := i + 1;
        continue;
      }
      ghost var a, t, b, z := r[..i], r[i], r[i + 1..n], r[n..];
      assert r == a + [t] + b + z;
      Rotated(a, t, b, z);
      r := r[..i] + r[i + 1..n] + [r[i]] + r[n..];
      n := n - 1;
      assert r[..i] == a && r[n..] == [t] + z;
    }
    assert r == r[..i] + r[i..];
    SplitConcat(r[..i], r[i..]);
    OnlyRuns(r[..i]);
    OnlyMems(r[i..]);
  }

  /** Contents in order, the memtable's last. */
  function Held(pups: seq<Ent>, bufs: map<nat, Buf>): seq<seq<Rec>> {
    if pups == [] then []
    else
      var e := pups[|pups| - 1];
      Held(pups[..|pups| - 1], bufs) + [if e.fd in bufs then All(bufs[e.fd]) else []]
  }

  lemma {:induction false} HeldConcat(a: seq<Ent>, b: seq<Ent>, bufs: map<nat, Buf>)
    ensures Held(a + b, bufs) == Held(a, bufs) + Held(b, bufs) && |Held(a, bufs)| == |a|
  {
    if b == [] {
      assert a + b == a;
      HeldSize(a, bufs);
    } else {
      assert (a + b)[..|a + b| - 1] == a + b[..|b| - 1];
      HeldConcat(a, b[..|b| - 1], bufs);
    }
  }

  lemma {:induction false} HeldSize(a: seq<Ent>, bufs: map<nat, Buf>)
    ensures |Held(a, bufs)| == |a|
  {
    if a != [] {
      HeldSize(a[..|a| - 1], bufs);
    }
  }

  /** Only the files named matter. */
  lemma {:induction false} HeldSame(a: seq<Ent>, x: map<nat, Buf>, y: map<nat, Buf>)
    requires forall e | e in a :: e.fd in x && e.fd in y && x[e.fd] == y[e.fd]
    ensures Held(a, x) == Held(a, y)
  {
    if a != [] {
      HeldSame(a[..|a| - 1], x, y);
      assert a[|a| - 1] in a;
    }
  }
}
