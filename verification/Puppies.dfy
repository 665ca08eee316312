/** The stack of runs with a memtable on top: whatever is put, committed or laddered, it stands for the last write of
  * every key. */
module Puppies {
  import opened Common
  import opened PuppyRuns

  const MEM_BYTES := 4096
  const COLLAPSE := 512

  ghost predicate Before(a: Ent, b: Ent) {
    a.key.Run? && (b.key.Run? ==> a.key.k < b.key.k) && a.fd != b.fd
  }

  /** Runs first, their keys ascending, at most one memtable and that last; every entry with a file of its own. */
  ghost predicate Ordered(pups: seq<Ent>) {
    forall i, j | 0 <= i < j < |pups| :: Before(pups[i], pups[j])
  }

  ghost predicate FileOk(bufs: map<nat, Buf>, e: Ent, fds: nat, recSize: nat) {
    && e.fd in bufs && e.fd < fds
    && (e.key.Run? ==> Sorted(All(bufs[e.fd])))
    && (e.key.Mem? ==> Sorted(bufs[e.fd].past) && |All(bufs[e.fd])| * recSize <= MEM_BYTES)
  }

  ghost predicate FilesOk(pups: seq<Ent>, bufs: map<nat, Buf>, fds: nat, recSize: nat) {
    forall e | e in pups :: FileOk(bufs, e, fds, recSize)
  }

  /** A file name is composed by keys up to some last one only. */
  ghost predicate NamesEnd(name: nat -> nat, last: nat -> nat) {
    forall k: nat :: k <= last(name(k))
  }

  lemma {:induction false} NamesBound(disk: set<nat>, last: nat -> nat) returns (b: nat)
    ensures forall n | n in disk :: last(n) < b
  {
    if disk == {} {
      b := 0;
    } else {
      var n :| n in disk;
      b := NamesBound(disk - {n}, last);
      if last(n) >= b {
        b := last(n) + 1;
      }
    }
  }

  /** Does the stack end in a memtable? */
  predicate HasMem(pups: seq<Ent>) {
    pups != [] && pups[|pups| - 1].key.Mem?
  }

  /** How many entries are runs. */
  function Count(pups: seq<Ent>): (c: nat)
    ensures c <= |pups|
  {
    if HasMem(pups) then |pups| - 1 else |pups|
  }

  /** Every run's key is below `key`. */
  ghost predicate PastRuns(pups: seq<Ent>, key: nat) {
    forall e | e in pups && e.key.Run? :: e.key.k < key
  }

  /** A run pushed under the memtable. */
  function Pushed(pups: seq<Ent>, e: Ent): seq<Ent> {
    pups[..Count(pups)] + [e] + pups[Count(pups)..]
  }

  ghost function View(pups: seq<Ent>, bufs: map<nat, Buf>): map<nat, nat> {
    Puts(Flat(Held(pups, bufs)))
  }

  class Stack {
    const lane: Lane
    const policy: seq<nat> -> nat                // how many of the youngest runs to merge, by their sizes
    const clock: nat -> nat
    const name: nat -> nat                       // the file name a key composes, letter case folded
    const recSize: nat
    var pups: seq<Ent>
    var bufs: map<nat, Buf>
    var fds: nat
    var disk: set<nat>
    var tick: nat
    ghost const last: nat -> nat

    constructor (lane: Lane, policy: seq<nat> -> nat, clock: nat -> nat, name: nat -> nat, recSize: nat,
            disk: set<nat>, ghost last: nat -> nat)
      requires GoodLane(lane) && 0 < recSize <= MEM_BYTES && NamesEnd(name, last)
      ensures Valid() && View(pups, bufs) == map[] && this.lane == lane && this.recSize == recSize
    {
      this.lane, this.policy, this.clock, this.name := lane, policy, clock, name;
      this.recSize, this.last := recSize, last;
      pups, bufs, fds, this.disk, tick := [], map[], 0, disk, 0;
    }

    ghost predicate Valid()
      reads this
    {
      && GoodLane(lane) && 0 < recSize <= MEM_BYTES && NamesEnd(name, last)
      && Ordered(pups) && FilesOk(pups, bufs, fds, recSize) && forall f | f in bufs :: f < fds
    }

    method Now() returns (t: nat)
      modifies this`tick
      ensures t == clock(old(tick)) && tick == old(tick) + 1
    {
      t, tick := clock(tick), tick + 1;
    }

    // ---------- run keys ----------

    /** The time now, or one past the largest run key. */
    method NextKey() returns (key: nat)
      modifies this`tick
      ensures key > 0 && forall e | e in pups && e.key.Run? :: e.key.k < key
      ensures key == (if clock(old(tick)) > 0 then clock(old(tick)) else 1)
        || exists e :: e in pups && e.key == Run(key - 1)
      ensures key >= clock(old(tick))
    {
      key := Now();
      for i := 0 to |pups|
        invariant forall e | e in pups[..i] && e.key.Run? :: e.key.k < key
        invariant key == clock(old(tick)) || (key > clock(old(tick)) && exists e :: e in pups && e.key == Run(key - 1))
      {
        if pups[i].key.Run? && pups[i].key.k >= key {
          key := pups[i].key.k + 1;
        }
        assert pups[..i + 1] == pups[..i] + [pups[i]];
      }
      assert pups[..|pups|] == pups;
      if key == 0 {
        key := 1;
      }
    }

    /** Is a key spoken for, by an entry or by a file on the name it composes? */
    method Taken(key: nat) returns (b: bool)
      ensures b <==> name(key) in disk || exists e :: e in pups && e.key == Run(key)
    {
      b := false;
      for i := 0 to |pups|
        invariant !b && forall e | e in pups[..i] :: e.key != Run(key)
      {
        if pups[i].key == Run(key) {
          return true;
        }
        assert pups[..i + 1] == pups[..i] + [pups[i]];
      }
      assert pups[..|pups|] == pups;
      b := name(key) in disk;
    }

    /** The next key whose name is free. */
    method FreeKey() returns (key: nat)
      requires NamesEnd(name, last)
      modifies this`tick
      ensures key > 0 && name(key) !in disk && forall e | e in pups && e.key.Run? :: e.key.k < key
    {
      key := NextKey();
      ghost var bound := NamesBound(disk, last);
      var taken := Taken(key);
      while taken
        invariant key > 0 && forall e | e in pups && e.key.Run? :: e.key.k < key
        invariant taken <==> name(key) in disk
        decreases bound - key
      {
        assert key <= last(name(key));
        key := key + 1;
        taken := Taken(key);
      }
    }

    // ---------- runs ----------

    /** Writes a run under a key of the caller's, unless that is taken; the runs stay in order if and only if the key
      * is past all of theirs. */
    method CreateAt(bytes: seq<Rec>, key: nat) returns (ok: bool)
      requires Valid() && Sorted(bytes)
      modifies this`pups, this`bufs, this`fds, this`disk
      ensures ok <==> name(key) !in old(disk) && forall e | e in old(pups) :: e.key != Run(key)
      ensures !ok ==> pups == old(pups) && bufs == old(bufs) && fds == old(fds) && disk == old(disk)
      ensures ok ==> disk == old(disk) + {name(key)} && fds == old(fds) + 1
      ensures ok ==> pups == Pushed(old(pups), Ent(Run(key), old(fds))) && bufs == old(bufs)[old(fds) := Buf(bytes, [])]
      ensures ok ==> (Valid() <==> PastRuns(old(pups), key))
    {
      hide GoodLane, NamesEnd, Sorted, Ordered, FilesOk, RunsOf, MemsOf, Pushed;
      var taken := Taken(key);
      if taken {
        return false;
      }
      disk := disk + {name(key)};
      var e := Ent(Run(key), fds);
      FilesMore(pups, bufs, fds, recSize, bytes, key);
      OrderedInsert(pups, bufs, fds, recSize, e);
      PushedTail(pups, e);
      bufs := bufs[fds := Buf(bytes, [])];
      fds := fds + 1;
      pups := Tail(pups + [e]);
      ok := true;
    }

    /** Writes a run under the next free key. */
    method Create(bytes: seq<Rec>)
      requires Valid() && Sorted(bytes)
      modifies this`pups, this`bufs, this`fds, this`disk, this`tick
      ensures Valid() && exists key :: pups == Pushed(old(pups), Ent(Run(key), old(fds)))
      ensures bufs == old(bufs)[old(fds) := Buf(bytes, [])]
    {
      hide GoodLane, NamesEnd, Sorted, Ordered, FilesOk, Pushed;
      var key := FreeKey();
      var ok := CreateAt(bytes, key);
    }

    /** Drops one run: its mapping, its file, its entry. */
    method DropAt(i: nat) returns (ok: bool)
      requires Valid()
      modifies this`pups, this`bufs, this`disk
      ensures ok <==> i < Count(old(pups))
      ensures Valid() && (!ok ==> pups == old(pups) && bufs == old(bufs))
      ensures ok ==> pups == old(pups)[..i] + old(pups)[i + 1..] && SameFiles(pups, old(bufs), bufs)
    {
      hide GoodLane, NamesEnd, Sorted, Ordered, FilesOk;
      if i >= Count(pups) {
        return false;
      }
      OrderedRuns(pups);
      var e := pups[i];
      Dropped(pups, bufs, fds, recSize, i);
      bufs := map f | f in bufs && f != e.fd :: bufs[f];
      disk := disk - {name(e.key.k)};
      pups := pups[..i] + pups[i + 1..];
      ok := true;
    }

    /** Drops the youngest runs. */
    method ThinTail(m: nat)
      requires Valid()
      modifies this`pups, this`bufs, this`disk
      ensures Valid()
      ensures var c := Count(old(pups));
        var k := if m > c then 0 else c - m;
        pups == old(pups)[..k] + old(pups)[c..] && SameFiles(pups, old(bufs), bufs)
    {
      hide GoodLane, NamesEnd, Sorted, Ordered, FilesOk, SameFiles, Count;
      ghost var all := pups;
      var c := Count(pups);
      var left := if m > c then c else m;
      ghost var k: nat := c;
      assert pups == all[..c] + all[c..];
      FilesThere(pups, bufs, fds, recSize);
      while left > 0
        invariant Valid() && 0 <= left <= k <= c && k - left == if m > c then 0 else c - m
        invariant pups == all[..k] + all[c..] && SameFiles(pups, old(bufs), bufs) && Count(pups) == k
      {
        ghost var was, files := pups, bufs;
        Thinned(all, c, k);
        CountThin(all, k - 1, c);
        var ok := DropAt(Count(pups) - 1);
        SameTrans(was, old(bufs), files, pups, bufs);
        left, k := left - 1, k - 1;
      }
    }

    // ---------- the memtable ----------

    /** A fresh memtable on top. */
    method MemOpen()
      requires Valid() && !HasMem(pups)
      modifies this`pups, this`bufs, this`fds
      ensures Valid() && HasMem(pups) && View(pups, bufs) == View(old(pups), old(bufs)) && MemBytes() == 0
      ensures Count(pups) == |old(pups)| && pups[..Count(pups)] == old(pups) && SameFiles(old(pups), old(bufs), bufs)
    {
      hide GoodLane, NamesEnd, Ordered, FilesOk, View;
      FilesThere(pups, bufs, fds, recSize);
      Opened(pups, bufs, fds, recSize);
      pups := pups + [Ent(Mem, fds)];
      bufs := bufs[fds := Buf([], [])];
      fds := fds + 1;
    }

    function MemBuf(): Buf
      requires HasMem(pups)
      reads this
    {
      var f := pups[|pups| - 1].fd;
      if f in bufs then bufs[f] else Buf([], [])
    }

    function MemBytes(): nat
      requires HasMem(pups)
      reads this
    {
      |All(MemBuf())| * recSize
    }

    /** Tidies the memtable; collapses it when forced, or when enough was put since. */
    method Sync(force: bool)
      requires Valid() && HasMem(pups)
      modifies this`bufs
      ensures Valid() && View(pups, bufs) == View(pups, old(bufs)) && MemBytes() <= old(MemBytes())
      ensures Sorted(MemBuf().data) && (force ==> MemBuf().data == [])
      ensures SameFiles(pups[..Count(pups)], old(bufs), bufs)
      ensures old(MemBuf()).data == [] ==> bufs == old(bufs)
    {
      hide GoodLane, NamesEnd, Ordered, FilesOk, View, SyncOk;
      var f := pups[|pups| - 1].fd;
      MemFile(pups, bufs, fds, recSize);
      var b := bufs[f];
      RunsApart(pups, bufs, fds, recSize, b);
      if |b.data| == 0 {
        return;
      }
      var r := lane.sync(b, force || |b.data| * recSize > COLLAPSE);
      Synced(lane, pups, bufs, fds, recSize, force || |b.data| * recSize > COLLAPSE);
      RunsApart(pups, bufs, fds, recSize, r);
      bufs := bufs[f := r];
    }

    /** The collapsed memtable becomes the youngest run. */
    method Seal()
      requires Valid() && HasMem(pups) && MemBuf().data == []
      modifies this`pups, this`disk, this`tick
      ensures Valid() && !HasMem(pups) && View(pups, bufs) == View(old(pups), bufs)
      ensures exists key :: pups == old(pups)[|old(pups)| - 1 := Ent(Run(key), old(pups)[|old(pups)| - 1].fd)]
    {
      hide GoodLane, NamesEnd, Ordered, FilesOk, View, Held, RunsOf, MemsOf;
      MemFile(pups, bufs, fds, recSize);
      var key := FreeKey();
      disk := disk + {name(key)};
      Sealed(pups, bufs, fds, recSize, key);
      pups := Tail(pups[|pups| - 1 := Ent(Run(key), pups[|pups| - 1].fd)]);
    }

    // ---------- the ladder ----------

    /** Merges the youngest `m` runs into one. */
    method Collapse(m: nat)
      requires Valid() && 2 <= m <= Count(pups)
      modifies this`pups, this`bufs, this`fds, this`disk, this`tick
      ensures Valid() && View(pups, bufs) == View(old(pups), old(bufs)) && Count(pups) == Count(old(pups)) - m + 1
      ensures HasMem(pups) <==> HasMem(old(pups))
      ensures var c := Count(old(pups));
        pups[..c - m] == old(pups)[..c - m] && pups[c - m + 1..] == old(pups)[c..]
    {
      hide GoodLane, NamesEnd, Ordered, FilesOk, View, Held, Sorted, Pushed, MergeOk;
      ghost var all, files := pups, bufs;
      var c := Count(pups);
      var srcs := Held(pups[c - m..c], bufs);
      var merged := lane.merge(srcs);
      MergedRun(lane, pups, bufs, fds, recSize, c - m, c);
      ThinTail(m);
      ghost var was, f := pups, fds;
      CountThin(all, c - m, c);
      Create(merged);
      CollapsedView(all, files, was, pups, bufs, c - m, c, merged, f);
    }

    /** Merges while the policy finds runs to merge. */
    method Ladder()
      requires Valid()
      modifies this`pups, this`bufs, this`fds, this`disk, this`tick
      ensures Valid() && View(pups, bufs) == View(old(pups), old(bufs)) && (HasMem(pups) <==> HasMem(old(pups)))
      ensures Count(pups) <= Count(old(pups)) && Settled(policy, pups, bufs, recSize)
      ensures Settled(policy, old(pups), old(bufs), recSize) ==> pups == old(pups) && bufs == old(bufs)
    {
      hide GoodLane, NamesEnd, Ordered, FilesOk, View, Held;
      while true
        invariant Valid() && View(pups, bufs) == View(old(pups), old(bufs)) && (HasMem(pups) <==> HasMem(old(pups)))
        invariant Count(pups) <= Count(old(pups))
        invariant Settled(policy, old(pups), old(bufs), recSize) ==> pups == old(pups) && bufs == old(bufs)
        decreases Count(pups)
      {
        var lens := Lengths(pups[..Count(pups)], bufs, recSize);
        var m := policy(lens);
        if m < 2 || m > Count(pups) {
          return;
        }
        Collapse(m);
      }
    }

    // ---------- putting, committing, reading ----------

    /** A full memtable is sealed, the ladder is run, a fresh memtable is opened. */
    method Flush()
      requires Valid() && HasMem(pups) && MemBuf().data == []
      modifies this
      ensures Valid() && View(pups, bufs) == View(old(pups), old(bufs))
      ensures HasMem(pups) && MemBytes() == 0 && Settled(policy, pups, bufs, recSize)
    {
      hide GoodLane, NamesEnd, Ordered, FilesOk, View, Settled;
      Seal();
      Ladder();
      ghost var p, b := pups, bufs;
      MemOpen();
      SettledStays(policy, p, b, pups, bufs, recSize);
    }

    /** One more record: into the memtable, flushed first when it is full and stays full. */
    method Put(rec: Rec)
      requires Valid()
      modifies this
      ensures Valid() && View(pups, bufs) == View(old(pups), old(bufs))[rec.key := rec.val]
      ensures HasMem(pups) && MemBuf().data != [] && MemBuf().data[|MemBuf().data| - 1] == rec
      ensures old(HasMem(pups) && MemBytes() + recSize <= MEM_BYTES) ==>
        pups == old(pups) && MemBuf().past == old(MemBuf()).past
      ensures Settled(policy, pups, bufs, recSize)
              || (pups[..Count(pups)] == old(pups[..Count(pups)]) && SameFiles(pups[..Count(pups)], old(bufs), bufs))
    {
      hide GoodLane, NamesEnd, Ordered, FilesOk, View, Held, Sorted, Settled;
      ghost var flushed := false;
      FilesThere(pups, bufs, fds, recSize);
      if !HasMem(pups) {
        MemOpen();
      }
      if MEM_BYTES - MemBytes() < recSize {
        Sync(true);
        if MEM_BYTES - MemBytes() < recSize {
          Flush();
          flushed := true;
        }
      }
      var f := pups[|pups| - 1].fd;
      MemFile(pups, bufs, fds, recSize);
      ghost var r := Buf(bufs[f].past, bufs[f].data + [rec]);
      RunsApart(pups, bufs, fds, recSize, r);
      if flushed {
        SettledStays(policy, pups, bufs, pups, bufs[f := r], recSize);
      }
      Fed(pups, bufs, fds, recSize, rec);
      bufs := bufs[f := Buf(bufs[f].past, bufs[f].data + [rec])];
    }

    /** Everything put so far becomes a run. */
    method Commit()
      requires Valid()
      modifies this
      ensures Valid() && View(pups, bufs) == View(old(pups), old(bufs))
      ensures if !HasMem(old(pups)) || old(MemBytes()) == 0 then pups == old(pups) && bufs == old(bufs)
              else !HasMem(pups) && Settled(policy, pups, bufs, recSize)
    {
      hide GoodLane, NamesEnd, Ordered, FilesOk, View, Held, Sorted, Settled;
      if !HasMem(pups) || MemBytes() == 0 {
        return;
      }
      Sync(true);
      Seal();
      Ladder();
    }

    /** The sources of a query, oldest first, each sorted: merged, they are the map of all puts. */
    method AllRuns() returns (out: seq<seq<Rec>>)
      requires Valid()
      modifies this`bufs
      ensures Valid() && View(pups, bufs) == View(pups, old(bufs))
      ensures Puts(Flat(out)) == View(pups, bufs) && forall s | s in out :: Sorted(s)
    {
      hide GoodLane, NamesEnd, Ordered, FilesOk, View, Held, Sorted, Puts, Flat;
      var c := Count(pups);
      if !HasMem(pups) || MemBytes() == 0 {
        out := Held(pups[..c], bufs);
        if HasMem(pups) {
          MemFile(pups, bufs, fds, recSize);
          NoBytes(|All(MemBuf())|, recSize);
        }
        RunSources(pups, bufs, fds, recSize);
        return;
      }
      Sync(false);
      out := Held(pups[..c], bufs);
      MemFile(pups, bufs, fds, recSize);
      RunSources(pups, bufs, fds, recSize);
      var b := bufs[pups[|pups| - 1].fd];
      MemSources(pups, bufs, out, b);
      if |b.past| > 0 {
        out := out + [b.past];
      }
      if |b.data| > 0 {
        out := out + [b.data];
      }
    }
  }

  function Lengths(pups: seq<Ent>, bufs: map<nat, Buf>, recSize: nat): (r: seq<nat>)
    ensures |r| == |pups|
  {
    seq(|pups|, (i: nat) requires i < |pups| => if pups[i].fd in bufs then |All(bufs[pups[i].fd])| * recSize else 0)
  }

  /** The policy finds no runs to merge. */
  predicate Settled(policy: seq<nat> -> nat, pups: seq<Ent>, bufs: map<nat, Buf>, recSize: nat) {
    var m := policy(Lengths(pups[..Count(pups)], bufs, recSize));
    m < 2 || m > Count(pups)
  }

  lemma SettledStays(policy: seq<nat> -> nat, p: seq<Ent>, a: map<nat, Buf>, q: seq<Ent>, b: map<nat, Buf>,
          recSize: nat)
    requires Settled(policy, p, a, recSize) && p[..Count(p)] == q[..Count(q)] && SameFiles(p[..Count(p)], a, b)
    ensures Settled(policy, q, b, recSize)
  {
    var runs := p[..Count(p)];
    assert forall e | e in runs :: e.fd in a && e.fd in b && a[e.fd] == b[e.fd];
    assert forall i | 0 <= i < |runs| :: runs[i] in runs;
    assert Lengths(runs, a, recSize) == Lengths(runs, b, recSize);
    assert |runs| == Count(p) == Count(q);
  }

  // ---------- facts about the dictionary ----------

  lemma OrderedRuns(pups: seq<Ent>)
    requires Ordered(pups)
    ensures forall i | 0 <= i < Count(pups) :: pups[i].key.Run?
    ensures forall i | Count(pups) <= i < |pups| :: pups[i].key.Mem?
  {
    forall i | 0 <= i < Count(pups)
      ensures pups[i].key.Run?
    {
      assert i < |pups| - 1 ==> Before(pups[i], pups[|pups| - 1]);
    }
  }

  /** Pushed at the end and moved back under the memtable. */
  lemma PushedTail(pups: seq<Ent>, e: Ent)
    requires Ordered(pups) && e.key.Run?
    ensures |MemsOf(pups + [e])| <= 1 && RunsOf(pups + [e]) + MemsOf(pups + [e]) == Pushed(pups, e)
  {
    hide RunsOf, MemsOf, Ordered;
    OrderedRuns(pups);
    var c := Count(pups);
    var a, z := pups[..c], pups[c..];
    assert pups == a + z;
    SplitConcat(pups, [e]);
    SplitConcat(a, z);
    OnlyRuns(a);
    OnlyMems(z);
    OnlyRuns([e]);
    assert a + [] + [e] + ([] + z + []) == a + [e] + z;
  }

  lemma OrderedInsert(pups: seq<Ent>, bufs: map<nat, Buf>, fds: nat, recSize: nat, e: Ent)
    requires Ordered(pups) && FilesOk(pups, bufs, fds, recSize) && e.fd == fds && e.key.Run?
    ensures Ordered(Pushed(pups, e)) <==> PastRuns(pups, e.key.k)
  {
    OrderedRuns(pups);
    var c, r := Count(pups), Pushed(pups, e);
    if PastRuns(pups, e.key.k) {
      forall i, j | 0 <= i < j < |r|
        ensures Before(r[i], r[j])
      {
        var x, y := if i < c then i else i - 1, if j < c then j else j - 1;
        if i == c {
          assert FileOk(bufs, pups[y], fds, recSize);
        } else if j == c {
          assert FileOk(bufs, pups[x], fds, recSize);
          assert pups[x] in pups;
        } else {
          assert Before(pups[x], pups[y]);
        }
      }
    }
    if Ordered(r) {
      forall x | x in pups && x.key.Run?
        ensures x.key.k < e.key.k
      {
        var i :| 0 <= i < |pups| && pups[i] == x;
        assert i < c && r[i] == x && r[c] == e;
        assert Before(r[i], r[c]);
      }
    }
  }

  lemma FilesMore(pups: seq<Ent>, bufs: map<nat, Buf>, fds: nat, recSize: nat, bytes: seq<Rec>, key: nat)
    requires FilesOk(pups, bufs, fds, recSize) && Sorted(bytes)
    ensures FilesOk(Pushed(pups, Ent(Run(key), fds)), bufs[fds := Buf(bytes, [])], fds + 1, recSize)
  {
    hide Sorted;
    assert All(Buf(bytes, [])) == bytes;
    forall e | e in Pushed(pups, Ent(Run(key), fds))
      ensures FileOk(bufs[fds := Buf(bytes, [])], e, fds + 1, recSize)
    {
      if e in pups {
        assert FileOk(bufs, e, fds, recSize);
      }
    }
  }

  /** The files of these entries are what they were. */
  ghost predicate SameFiles(pups: seq<Ent>, a: map<nat, Buf>, b: map<nat, Buf>) {
    forall e | e in pups :: e.fd in a && e.fd in b && a[e.fd] == b[e.fd]
  }

  lemma SameTrans(x: seq<Ent>, a: map<nat, Buf>, b: map<nat, Buf>, y: seq<Ent>, c: map<nat, Buf>)
    requires SameFiles(x, a, b) && SameFiles(y, b, c) && forall e | e in y :: e in x
    ensures SameFiles(y, a, c)
  {
  }

  lemma FilesThere(pups: seq<Ent>, bufs: map<nat, Buf>, fds: nat, recSize: nat)
    requires FilesOk(pups, bufs, fds, recSize)
    ensures SameFiles(pups, bufs, bufs)
  {
    forall e | e in pups
      ensures e.fd in bufs
    {
      assert FileOk(bufs, e, fds, recSize);
    }
  }

  /** One entry less. */
  lemma Dropped(pups: seq<Ent>, bufs: map<nat, Buf>, fds: nat, recSize: nat, i: nat)
    requires Ordered(pups) && FilesOk(pups, bufs, fds, recSize) && i < |pups|
    ensures var r, b := pups[..i] + pups[i + 1..], map f | f in bufs && f != pups[i].fd :: bufs[f];
      Ordered(r) && FilesOk(r, b, fds, recSize) && SameFiles(r, bufs, b)
  {
    hide Sorted;
    var r, b := pups[..i] + pups[i + 1..], map f | f in bufs && f != pups[i].fd :: bufs[f];
    forall x, y | 0 <= x < y < |r|
      ensures Before(r[x], r[y])
    {
      assert Before(pups[if x < i then x else x + 1], pups[if y < i then y else y + 1]);
    }
    forall e | e in r
      ensures FileOk(b, e, fds, recSize) && e.fd in bufs && e.fd in b && bufs[e.fd] == b[e.fd]
    {
      var k :| 0 <= k < |r| && r[k] == e;
      var x := if k < i then k else k + 1;
      assert pups[x] == e && e in pups;
      assert FileOk(bufs, e, fds, recSize);
      assert x < i ==> Before(pups[x], pups[i]);
      assert i < x ==> Before(pups[i], pups[x]);
    }
  }

  lemma Thinned(all: seq<Ent>, c: nat, k: nat)
    requires c == Count(all) && 0 < k <= c && Count(all[..k] + all[c..]) == k
    ensures var p := all[..k] + all[c..];
      p[..k - 1] + p[k..] == all[..k - 1] + all[c..] && forall e | e in all[..k - 1] + all[c..] :: e in p
  {
    var p := all[..k] + all[c..];
    assert p[..k - 1] == all[..k - 1] && p[k..] == all[c..];
  }

  lemma CountThin(all: seq<Ent>, k: nat, c: nat)
    requires Ordered(all) && c == Count(all) && k <= c
    ensures Count(all[..k] + all[c..]) == k
    ensures forall e | e in all[..k] + all[c..] :: e in all
    ensures HasMem(all[..k] + all[c..]) <==> HasMem(all)
  {
    OrderedRuns(all);
    var p := all[..k] + all[c..];
    if c < |all| {
      assert p[|p| - 1] == all[c];
    } else {
      assert p == all[..k];
      assert k > 0 ==> p[k - 1] == all[k - 1];
    }
  }

  /** A fresh memtable holds nothing. */
  lemma Opened(pups: seq<Ent>, bufs: map<nat, Buf>, fds: nat, recSize: nat)
    requires Ordered(pups) && FilesOk(pups, bufs, fds, recSize) && !HasMem(pups)
    ensures var p, b := pups + [Ent(Mem, fds)], bufs[fds := Buf([], [])];
      Ordered(p) && FilesOk(p, b, fds + 1, recSize) && View(p, b) == View(pups, bufs)
  {
    hide Sorted, Held, Flat, Puts;
    var e := Ent(Mem, fds);
    var p, b := pups + [e], bufs[fds := Buf([], [])];
    OrderedRuns(pups);
    forall i, j | 0 <= i < j < |p|
      ensures Before(p[i], p[j])
    {
      if j < |pups| {
        assert Before(pups[i], pups[j]);
      } else {
        assert FileOk(bufs, pups[i], fds, recSize);
      }
    }
    forall x | x in p
      ensures FileOk(b, x, fds + 1, recSize)
    {
      EmptySorted();
      if x in pups {
        assert FileOk(bufs, x, fds, recSize);
      }
    }
    OthersSame(pups, bufs, b, fds, recSize);
    HeldConcat(pups, [e], b);
    HeldOne(e, b);
    FlatConcat(Held(pups, b), [[]]);
    FlatOne([]);
    assert All(Buf([], [])) == [];
    assert Flat(Held(pups, b)) + [] == Flat(Held(pups, b));
  }

  lemma EmptySorted()
    ensures Sorted([])
  {
  }

  lemma HeldOne(e: Ent, bufs: map<nat, Buf>)
    ensures Held([e], bufs) == [if e.fd in bufs then All(bufs[e.fd]) else []]
  {
    assert [e][..0] == [];
    assert Held([], bufs) == [];
  }

  lemma FlatOne(s: seq<Rec>)
    ensures Flat([s]) == s
  {
    assert [s][..0] == [];
    assert Flat([]) == [];
  }

  /** A new file changes no other's contents. */
  lemma OthersSame(pups: seq<Ent>, a: map<nat, Buf>, b: map<nat, Buf>, fds: nat, recSize: nat)
    requires FilesOk(pups, a, fds, recSize) && forall f | f in a && f < fds :: f in b && b[f] == a[f]
    ensures Held(pups, a) == Held(pups, b)
  {
    forall e | e in pups
      ensures e.fd in a && e.fd in b && a[e.fd] == b[e.fd]
    {
      assert FileOk(a, e, fds, recSize);
    }
    HeldSame(pups, a, b);
  }

  /** The memtable's file is no run's. */
  lemma RunsApart(pups: seq<Ent>, bufs: map<nat, Buf>, fds: nat, recSize: nat, r: Buf)
    requires Ordered(pups) && HasMem(pups) && FilesOk(pups, bufs, fds, recSize)
    ensures SameFiles(pups[..Count(pups)], bufs, bufs)
    ensures SameFiles(pups[..Count(pups)], bufs, bufs[pups[|pups| - 1].fd := r])
  {
    forall e | e in pups[..Count(pups)]
      ensures e.fd in bufs && e.fd != pups[|pups| - 1].fd
    {
      var i :| 0 <= i < |pups| - 1 && pups[i] == e;
      assert FileOk(bufs, pups[i], fds, recSize) && Before(pups[i], pups[|pups| - 1]);
    }
  }

  lemma MemFile(pups: seq<Ent>, bufs: map<nat, Buf>, fds: nat, recSize: nat)
    requires HasMem(pups) && FilesOk(pups, bufs, fds, recSize)
    ensures var f := pups[|pups| - 1].fd;
      f in bufs && f < fds && Sorted(bufs[f].past) && |All(bufs[f])| * recSize <= MEM_BYTES
  {
    assert FileOk(bufs, pups[|pups| - 1], fds, recSize);
  }

  /** The stack as what its runs hold and then what the memtable holds. */
  lemma ViewMem(pups: seq<Ent>, bufs: map<nat, Buf>)
    requires pups != [] && pups[|pups| - 1].fd in bufs
    ensures var n := |pups| - 1; View(pups, bufs) == Puts(Flat(Held(pups[..n], bufs)) + All(bufs[pups[n].fd]))
  {
    hide Puts;
    var n := |pups| - 1;
    assert Flat(Held(pups[..n], bufs) + [All(bufs[pups[n].fd])])
        == Flat(Held(pups[..n], bufs)) + All(bufs[pups[n].fd]) by {
      FlatConcat(Held(pups[..n], bufs), [All(bufs[pups[n].fd])]);
      FlatOne(All(bufs[pups[n].fd]));
    }
  }

  /** A rewritten memtable: the runs are what they were. */
  lemma MemRewritten(pups: seq<Ent>, bufs: map<nat, Buf>, fds: nat, recSize: nat, r: Buf)
    requires Ordered(pups) && HasMem(pups) && FilesOk(pups, bufs, fds, recSize)
    requires Sorted(r.past) && |All(r)| * recSize <= MEM_BYTES
    ensures var n := |pups| - 1;
      var b := bufs[pups[n].fd := r];
      FilesOk(pups, b, fds, recSize) && View(pups, b) == Puts(Flat(Held(pups[..n], bufs)) + All(r))
  {
    hide Sorted, Held, Flat, Puts, View;
    var n := |pups| - 1;
    var b := bufs[pups[n].fd := r];
    MemFile(pups, bufs, fds, recSize);
    forall e | e in pups
      ensures FileOk(b, e, fds, recSize)
    {
      assert FileOk(bufs, e, fds, recSize);
      var i :| 0 <= i < |pups| && pups[i] == e;
      assert i < n ==> Before(pups[i], pups[n]);
    }
    forall e | e in pups[..n]
      ensures e.fd in bufs && e.fd in b && bufs[e.fd] == b[e.fd]
    {
      var i :| 0 <= i < n && pups[i] == e;
      assert Before(pups[i], pups[n]);
      assert FileOk(bufs, pups[i], fds, recSize);
    }
    HeldSame(pups[..n], bufs, b);
    ViewMem(pups, b);
  }

  lemma Synced(lane: Lane, pups: seq<Ent>, bufs: map<nat, Buf>, fds: nat, recSize: nat, collapse: bool)
    requires GoodLane(lane) && Ordered(pups) && HasMem(pups) && FilesOk(pups, bufs, fds, recSize)
    ensures var f := pups[|pups| - 1].fd;
      && f in bufs
      && var r := lane.sync(bufs[f], collapse);
      && FilesOk(pups, bufs[f := r], fds, recSize) && View(pups, bufs[f := r]) == View(pups, bufs)
      && |All(r)| * recSize <= |All(bufs[f])| * recSize && Sorted(r.data) && (collapse ==> r.data == [])
  {
    hide Sorted, Held, Flat, Puts, View;
    MemFile(pups, bufs, fds, recSize);
    var n := |pups| - 1;
    var f := pups[n].fd;
    var b, r := bufs[f], lane.sync(bufs[f], collapse);
    assert SyncOk(b, r, collapse);
    Fewer(|All(r)|, |All(b)|, recSize);
    MemRewritten(pups, bufs, fds, recSize, r);
    ViewMem(pups, bufs);
    var runs := Flat(Held(pups[..n], bufs));
    PutsReplace(runs, All(r), All(b), []);
    assert runs + All(r) + [] == runs + All(r) && runs + All(b) + [] == runs + All(b);
  }

  lemma Fewer(a: nat, b: nat, k: nat)
    requires a <= b
    ensures a * k <= b * k
  {
  }

  lemma Fed(pups: seq<Ent>, bufs: map<nat, Buf>, fds: nat, recSize: nat, rec: Rec)
    requires Ordered(pups) && HasMem(pups) && FilesOk(pups, bufs, fds, recSize) && pups[|pups| - 1].fd in bufs
    requires |All(bufs[pups[|pups| - 1].fd])| * recSize + recSize <= MEM_BYTES
    ensures var f := pups[|pups| - 1].fd;
      var r := Buf(bufs[f].past, bufs[f].data + [rec]);
      FilesOk(pups, bufs[f := r], fds, recSize) && View(pups, bufs[f := r]) == View(pups, bufs)[rec.key := rec.val]
  {
    hide Sorted, Held, Flat, View;
    MemFile(pups, bufs, fds, recSize);
    var n := |pups| - 1;
    var f := pups[n].fd;
    var b := bufs[f];
    var r := Buf(b.past, b.data + [rec]);
    assert All(r) == All(b) + [rec];
    OneMore(|All(b)|, recSize);
    MemRewritten(pups, bufs, fds, recSize, r);
    ViewMem(pups, bufs);
    var all := Flat(Held(pups[..n], bufs)) + All(b);
    assert Flat(Held(pups[..n], bufs)) + All(r) == all + [rec];
    assert (all + [rec])[..|all|] == all;
  }

  lemma NoBytes(a: nat, k: nat)
    requires k > 0 && a * k == 0
    ensures a == 0
  {
  }

  lemma OneMore(a: nat, k: nat)
    ensures (a + 1) * k == a * k + k
  {
  }

  /** Re-keyed as a run: the same contents in the same order. */
  lemma Sealed(pups: seq<Ent>, bufs: map<nat, Buf>, fds: nat, recSize: nat, key: nat)
    requires Ordered(pups) && HasMem(pups) && FilesOk(pups, bufs, fds, recSize)
    requires forall e | e in pups && e.key.Run? :: e.key.k < key
    requires pups[|pups| - 1].fd in bufs && bufs[pups[|pups| - 1].fd].data == []
    ensures var p := pups[|pups| - 1 := Ent(Run(key), pups[|pups| - 1].fd)];
      && Ordered(p) && FilesOk(p, bufs, fds, recSize) && View(p, bufs) == View(pups, bufs)
      && !HasMem(p) && |MemsOf(p)| <= 1 && RunsOf(p) + MemsOf(p) == p
  {
    hide Sorted, Flat, Puts, RunsOf, MemsOf;
    var n := |pups| - 1;
    var e := Ent(Run(key), pups[n].fd);
    var p := pups[n := e];
    OrderedRuns(pups);
    forall i, j | 0 <= i < j < |p|
      ensures Before(p[i], p[j])
    {
      assert Before(pups[i], pups[j]);
      assert pups[i] in pups;
    }
    MemFile(pups, bufs, fds, recSize);
    assert All(bufs[e.fd]) == bufs[e.fd].past;
    forall x | x in p
      ensures FileOk(bufs, x, fds, recSize)
    {
      if x in pups {
        assert FileOk(bufs, x, fds, recSize);
      }
    }
    assert p[..n] == pups[..n];
    OnlyRuns(p);
    assert p + [] == p;
  }

  /** The merge of some runs is a run, and stands for them. */
  lemma MergedRun(lane: Lane, pups: seq<Ent>, bufs: map<nat, Buf>, fds: nat, recSize: nat, k: nat, c: nat)
    requires GoodLane(lane) && Ordered(pups) && FilesOk(pups, bufs, fds, recSize) && k <= c == Count(pups)
    ensures var srcs := Held(pups[k..c], bufs);
      Sorted(lane.merge(srcs)) && Puts(lane.merge(srcs)) == Puts(Flat(srcs))
  {
    hide Sorted, Flat, Puts, Held;
    var srcs := Held(pups[k..c], bufs);
    OrderedRuns(pups);
    forall e | e in pups[k..c]
      ensures e.key.Run? && FileOk(bufs, e, fds, recSize)
    {
      var i :| k <= i < c && pups[i] == e;
      assert e in pups;
    }
    HeldSorted(pups[k..c], bufs, fds, recSize);
    assert MergeOk(srcs, lane.merge(srcs));
  }

  lemma {:induction false} HeldSorted(runs: seq<Ent>, bufs: map<nat, Buf>, fds: nat, recSize: nat)
    requires forall e | e in runs :: e.key.Run? && FileOk(bufs, e, fds, recSize)
    ensures forall s | s in Held(runs, bufs) :: Sorted(s)
  {
    hide Sorted;
    if runs != [] {
      var n := |runs| - 1;
      HeldSorted(runs[..n], bufs, fds, recSize);
      assert runs[n] in runs;
      var h := Held(runs[..n], bufs);
      forall s | s in h + [All(bufs[runs[n].fd])]
        ensures Sorted(s)
      {
      }
    }
  }

  /** Some runs replaced by one that stands for them. */
  lemma CollapsedView(all: seq<Ent>, files: map<nat, Buf>, was: seq<Ent>, now: seq<Ent>, bufs: map<nat, Buf>, k: nat,
          c: nat, merged: seq<Rec>, f: nat)
    requires Ordered(all) && c == Count(all) && k <= c && was == all[..k] + all[c..] && Count(was) == k
    requires exists key :: now == Pushed(was, Ent(Run(key), f))
    requires f in bufs && All(bufs[f]) == merged && SameFiles(was, files, bufs)
    requires Puts(merged) == Puts(Flat(Held(all[k..c], files)))
    ensures View(now, bufs) == View(all, files) && Count(now) == k + 1 && (HasMem(now) <==> HasMem(all))
    ensures now[..k] == all[..k] && now[k + 1..] == all[c..]
  {
    hide Held, Flat, Puts;
    var key :| now == Pushed(was, Ent(Run(key), f));
    var e := Ent(Run(key), f);
    OrderedRuns(all);
    var a, t, z := all[..k], all[k..c], all[c..];
    assert was[..k] == a && was[k..] == z;
    assert now == a + [e] + z && all == a + t + z;
    HeldConcat(a + t, z, files);
    HeldConcat(a, t, files);
    HeldConcat(a + [e], z, bufs);
    HeldConcat(a, [e], bufs);
    HeldOne(e, bufs);
    PartSame(a, was, files, bufs);
    PartSame(z, was, files, bufs);
    var ha, ht, hz := Held(a, files), Held(t, files), Held(z, files);
    FlatConcat(ha + ht, hz);
    FlatConcat(ha, ht);
    FlatConcat(ha + [merged], hz);
    FlatConcat(ha, [merged]);
    FlatOne(merged);
    PutsReplace(Flat(ha), merged, Flat(ht), Flat(hz));
  }

  lemma PartSame(part: seq<Ent>, all: seq<Ent>, x: map<nat, Buf>, y: map<nat, Buf>)
    requires SameFiles(all, x, y) && forall e | e in part :: e in all
    ensures Held(part, x) == Held(part, y)
  {
    HeldSame(part, x, y);
  }

  /** The runs alone, when the memtable is absent or empty. */
  lemma RunSources(pups: seq<Ent>, bufs: map<nat, Buf>, fds: nat, recSize: nat)
    requires Ordered(pups) && FilesOk(pups, bufs, fds, recSize)
    ensures var out := Held(pups[..Count(pups)], bufs);
      && (forall s | s in out :: Sorted(s))
      && (!HasMem(pups) || (pups[|pups| - 1].fd in bufs && All(bufs[pups[|pups| - 1].fd]) == [])
          ==> Puts(Flat(out)) == View(pups, bufs))
  {
    hide Sorted, Held, Flat, Puts, View;
    var c := Count(pups);
    OrderedRuns(pups);
    forall e | e in pups[..c]
      ensures e.key.Run? && FileOk(bufs, e, fds, recSize)
    {
      var i :| 0 <= i < c && pups[i] == e;
      assert e in pups;
    }
    HeldSorted(pups[..c], bufs, fds, recSize);
    if !HasMem(pups) {
      assert pups[..c] == pups;
      ViewIs(pups, bufs);
    } else if pups[|pups| - 1].fd in bufs && All(bufs[pups[|pups| - 1].fd]) == [] {
      ViewMem(pups, bufs);
      assert Flat(Held(pups[..c], bufs)) + [] == Flat(Held(pups[..c], bufs));
    }
  }

  lemma ViewIs(pups: seq<Ent>, bufs: map<nat, Buf>)
    ensures View(pups, bufs) == Puts(Flat(Held(pups, bufs)))
  {
  }

  /** The runs, then what the memtable has sorted, then what was put since. */
  lemma MemSources(pups: seq<Ent>, bufs: map<nat, Buf>, runs: seq<seq<Rec>>, b: Buf)
    requires HasMem(pups) && runs == Held(pups[..Count(pups)], bufs) && pups[|pups| - 1].fd in bufs
      && b == bufs[pups[|pups| - 1].fd]
    ensures var past := if |b.past| > 0 then runs + [b.past] else runs;
      var out := if |b.data| > 0 then past + [b.data] else past;
      Puts(Flat(out)) == View(pups, bufs)
  {
    hide Held, Flat, Puts, View;
    ViewMem(pups, bufs);
    FlatConcat(runs, [b.past]);
    FlatOne(b.past);
    var past := if |b.past| > 0 then runs + [b.past] else runs;
    FlatConcat(past, [b.data]);
    FlatOne(b.data);
    assert Flat(runs) + b.past + b.data == Flat(runs) + All(b);
    assert Flat(runs) + [] == Flat(runs);
    assert Flat(past) + [] == Flat(past);
  }
}
