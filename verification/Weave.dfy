/** The stored weave: packed words, the parent-sorted index, commit records, and the reader's
  * lookups over them. */
module Weave {
  import opened Common

  // ---------- packed 32-bit token words ----------

  const OFF_CAP := 0x100_0000          // 24-bit offsets
  const TAG_UNIT := 0x800_0000         // the 5-bit tag sits above bit 27

  /** Tags are counted from 'A'. */
  const ROOT_TAG := 0
  const PAR_TAG := 1
  const TERM_TAG := 4
  const TOMB_TAG := 19

  /** An unpacked word.  Words compare as the packed integers do: by tag, then by offset. */
  datatype Word = Word(tag: nat, off: nat)

  predicate WordLt(a: Word, b: Word) {
    a.tag < b.tag || (a.tag == b.tag && a.off < b.off)
  }

  /** The stored integer: the offset is cut to 24 bits. */
  function Pack(tag: nat, off: nat): nat {
    tag * TAG_UNIT + off % OFF_CAP
  }

  function Unpack(word: nat): Word {
    Word(word / TAG_UNIT, word % OFF_CAP)
  }

  /** What a reader gets back from packing: the tag, and the offset cut to 24 bits. */
  function Tok32(tag: nat, off: nat): (w: Word)
    ensures off < OFF_CAP ==> w == Word(tag, off)
  {
    Word(tag, off % OFF_CAP)
  }

  lemma PackUnpack(tag: nat, off: nat)
    ensures Unpack(Pack(tag, off)) == Tok32(tag, off)
  {
    var low := off % OFF_CAP;
    assert (tag * TAG_UNIT + low) / TAG_UNIT == tag;
    assert TAG_UNIT == 8 * OFF_CAP;
    ModShift(tag * 8, low);
  }

  lemma ModShift(k: nat, off: nat)
    requires off < OFF_CAP
    ensures (k * OFF_CAP + off) % OFF_CAP == off
  {
  }

  /** Packed integers order exactly as the words do. */
  lemma PackOrder(tag: nat, off: nat, tag': nat, off': nat)
    ensures Pack(tag, off) < Pack(tag', off') <==> WordLt(Tok32(tag, off), Tok32(tag', off'))
    ensures Pack(tag, off) == Pack(tag', off') <==> Tok32(tag, off) == Tok32(tag', off')
  {
    var a, b := off % OFF_CAP, off' % OFF_CAP;
    if tag < tag' {
      assert tag * TAG_UNIT + TAG_UNIT <= tag' * TAG_UNIT;
    } else if tag' < tag {
      assert tag' * TAG_UNIT + TAG_UNIT <= tag * TAG_UNIT;
    }
  }

  const ROOT_PAR: Word := Word(ROOT_TAG, 0)

  /** The word naming the token at `off` as a parent. */
  function Par(off: nat): Word {
    Word(PAR_TAG, off)
  }

  // ---------- the three streams ----------

  /** An index entry: a parent word, and the entry itself. */
  datatype Entry = Entry(par: Word, chi: Word)

  /** Parent-major order. */
  predicate Less(a: Entry, b: Entry) {
    if a.par != b.par then WordLt(a.par, b.par) else WordLt(a.chi, b.chi)
  }

  datatype CRec = CRec(id: nat, start: nat, end: nat, len: nat, plen: nat, ignOff: nat, ignLen: nat)

  datatype Weave = Weave(body: seq<Byte>, idx: seq<Entry>, cmts: seq<CRec>, ign: seq<nat>)

  datatype Status = OK | FAIL | BIG | NOCM | TORN | PLEN

  ghost predicate Sorted(idx: seq<Entry>) {
    forall i, j | 0 <= i < j < |idx| :: Less(idx[i], idx[j])
  }

  /** Body ranges tile [0, n) in build order. */
  ghost predicate Tiled(cmts: seq<CRec>, n: nat) {
    && (forall i | 0 <= i < |cmts| :: cmts[i].start <= cmts[i].end <= n)
    && (forall i, j | 0 <= i < j < |cmts| :: cmts[i].end <= cmts[j].start)
    && (forall off: nat | off < n :: Blamable(cmts, off))
  }

  ghost predicate Blamable(cmts: seq<CRec>, off: nat) {
    exists i :: 0 <= i < |cmts| && Covers(cmts[i], off)
  }

  predicate Covers(c: CRec, off: nat) {
    c.start <= off < c.end
  }

  /** The commit whose body range holds `off`. */
  ghost function BlameOf(cmts: seq<CRec>, n: nat, off: nat): (i: nat)
    requires Tiled(cmts, n) && off < n
    ensures i < |cmts| && Covers(cmts[i], off)
  {
    assert Blamable(cmts, off);
    var i :| 0 <= i < |cmts| && Covers(cmts[i], off);
    i
  }

  lemma BlameUnique(cmts: seq<CRec>, n: nat, off: nat, i: nat)
    requires Tiled(cmts, n) && off < n && i < |cmts| && Covers(cmts[i], off)
    ensures BlameOf(cmts, n, off) == i
  {
    var j := BlameOf(cmts, n, off);
    assert Covers(cmts[j], off);
  }

  /** One binary search over the range table answers blame. */
  method Blame(w: Weave, off: nat) returns (st: Status, ci: nat)
    requires Tiled(w.cmts, |w.body|)
    ensures st == if off < |w.body| then OK else NOCM
    ensures st == OK ==> ci < |w.cmts| && Covers(w.cmts[ci], off)
    ensures st == OK ==> off < |w.body| && ci == BlameOf(w.cmts, |w.body|, off)
  {
    var lo, hi := 0, |w.cmts|;
    ci := 0;
    while lo < hi
      invariant lo <= hi <= |w.cmts|
      invariant forall i | 0 <= i < lo :: w.cmts[i].end <= off
      invariant forall i | hi <= i < |w.cmts| :: off < w.cmts[i].start
    {
      var mid := lo + (hi - lo) / 2;
      var c := w.cmts[mid];
      if off < c.start {
        assert forall i | mid < i < |w.cmts| :: c.start <= c.end <= w.cmts[i].start;
        hi := mid;
      } else if off >= c.end {
        assert forall i | 0 <= i < mid :: w.cmts[i].end <= c.start;
        lo := mid + 1;
      } else {
        ci := mid;
        BlameUnique(w.cmts, |w.body|, off, mid);
        return OK, ci;
      }
    }
    assert !Blamable(w.cmts, off);
    st := NOCM;
  }

  // ---------- scopes ----------

  /** What one commit can see: a body bound, its own build index, and the commits it never saw. */
  datatype Scope = Scope(len: nat, cidx: nat, ign: seq<nat>)

  ghost predicate IgnIn(w: Weave, c: CRec) {
    c.ignOff + c.ignLen <= |w.ign|
  }

  function IgnOf(w: Weave, c: CRec): seq<nat>
    requires c.ignOff + c.ignLen <= |w.ign|
  {
    w.ign[c.ignOff..c.ignOff + c.ignLen]
  }

  function ScopeOf(w: Weave, c: nat): Scope
    requires c < |w.cmts| && IgnIn(w, w.cmts[c])
  {
    Scope(w.cmts[c].len, c, IgnOf(w, w.cmts[c]))
  }

  predicate IsToken(e: Entry) {
    e.chi.tag != TERM_TAG && e.chi.tag != TOMB_TAG
  }

  /** Inserted by a commit the scope can see. */
  ghost predicate Present(w: Weave, sc: Scope, e: Entry)
    requires Tiled(w.cmts, |w.body|) && sc.len <= |w.body|
  {
    && IsToken(e)
    && e.chi.off < sc.len
    && BlameOf(w.cmts, |w.body|, e.chi.off) !in sc.ign
  }

  method IsPresent(w: Weave, sc: Scope, e: Entry) returns (st: Status, yes: bool)
    requires Tiled(w.cmts, |w.body|) && sc.len <= |w.body|
    ensures st == OK && yes == Present(w, sc, e)
  {
    var tag := e.chi.tag;
    if tag == TERM_TAG || tag == TOMB_TAG {
      return OK, false;
    }
    var o := e.chi.off;
    if o >= sc.len {
      return OK, false;
    }
    if |sc.ign| > 0 {
      var ci: nat;
      st, ci := Blame(w, o);
      if st != OK {
        return st, false;
      }
      if ci in sc.ign {
        return OK, false;
      }
    }
    return OK, true;
  }

  ghost predicate ScopesIn(w: Weave, scs: seq<Scope>) {
    forall k | 0 <= k < |scs| :: scs[k].len <= |w.body|
  }

  /** One presence bit per scope. */
  ghost function PresentMask(w: Weave, scs: seq<Scope>, e: Entry): (m: seq<bool>)
    requires Tiled(w.cmts, |w.body|) && ScopesIn(w, scs)
    ensures |m| == |scs|
  {
    if scs == [] then []
    else PresentMask(w, scs[..|scs| - 1], e) + [Present(w, scs[|scs| - 1], e)]
  }

  method Mask(w: Weave, scs: seq<Scope>, e: Entry) returns (st: Status, m: seq<bool>)
    requires Tiled(w.cmts, |w.body|) && ScopesIn(w, scs)
    ensures st == OK && m == PresentMask(w, scs, e)
  {
    m := [];
    for k := 0 to |scs|
      invariant m == PresentMask(w, scs[..k], e)
    {
      var yes: bool;
      st, yes := IsPresent(w, scs[k], e);
      assert scs[..k + 1][..k] == scs[..k];
      m := m + [yes];
    }
    assert scs[..|scs|] == scs;
    st := OK;
  }

  // ---------- sibling groups ----------

  ghost predicate IsGroup(idx: seq<Entry>, par: Word, lo: nat, hi: nat) {
    && lo <= hi <= |idx|
    && (forall i | 0 <= i < lo :: WordLt(idx[i].par, par))
    && (forall i | lo <= i < hi :: idx[i].par == par)
    && (forall i | hi <= i < |idx| :: WordLt(par, idx[i].par))
  }

  /** Lower bound of a sibling group.  The hint is taken when it is in the group: then it must be
    * the group's start, because the entry before it belongs to an earlier group. */
  method Group(w: Weave, par: Word, hint: nat) returns (lo: nat)
    requires Sorted(w.idx)
    requires 0 < hint <= |w.idx| ==> WordLt(w.idx[hint - 1].par, par)
    ensures lo <= |w.idx|
    ensures forall i | 0 <= i < lo :: WordLt(w.idx[i].par, par)
    ensures forall i | lo <= i < |w.idx| :: !WordLt(w.idx[i].par, par)
  {
    var n := |w.idx|;
    if hint < n && w.idx[hint].par == par {
      assert forall i | 0 <= i < hint - 1 :: Less(w.idx[i], w.idx[hint - 1]);
      assert forall i | hint < i < n :: Less(w.idx[hint], w.idx[i]);
      return hint;
    }
    lo := 0;
    var hi := n;
    while lo < hi
      invariant lo <= hi <= n
      invariant forall i | 0 <= i < lo :: WordLt(w.idx[i].par, par)
      invariant forall i | hi <= i < n :: !WordLt(w.idx[i].par, par)
    {
      var mid := lo + (hi - lo) / 2;
      if WordLt(w.idx[mid].par, par) {
        assert forall i | 0 <= i < mid :: Less(w.idx[i], w.idx[mid]);
        lo := mid + 1;
      } else {
        assert forall i | mid < i < n :: Less(w.idx[mid], w.idx[i]);
        hi := mid;
      }
    }
  }

  method GroupEnd(w: Weave, par: Word, lo: nat) returns (hi: nat)
    requires Sorted(w.idx) && lo <= |w.idx|
    requires forall i | 0 <= i < lo :: WordLt(w.idx[i].par, par)
    requires forall i | lo <= i < |w.idx| :: !WordLt(w.idx[i].par, par)
    ensures IsGroup(w.idx, par, lo, hi)
  {
    hi := lo;
    while hi < |w.idx| && w.idx[hi].par == par
      invariant lo <= hi <= |w.idx|
      invariant forall i | lo <= i < hi :: w.idx[i].par == par
    {
      hi := hi + 1;
    }
    if hi < |w.idx| {
      assert forall i | hi < i < |w.idx| :: Less(w.idx[hi], w.idx[i]);
    }
  }
}
