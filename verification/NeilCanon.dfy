/** Rewriting an edit list in place into its normal form, and the in-place merge. */
module NeilCanon {
  import opened Common
  import opened Script
  import opened EditLists
  import opened EditCanon

  // ---------- one entry more ----------

  lemma TakeNext(e: seq<Edit>, k: nat)
    requires k < |e|
    ensures e[..k + 1] == e[..k] + [e[k]]
  {
  }

  lemma SameSnoc(o: seq<Edit>, e: seq<Edit>, x: seq<Edit>, d: Edit)
    requires SameFrom(o, e) && SameFrom(x, [d])
    ensures SameFrom(o + x, e + [d])
  {
    SameConcat(o, x, e, [d]);
  }

  lemma SameSkip(o: seq<Edit>, e: seq<Edit>, k: nat)
    requires k < |e| && SameFrom(o, e[..k]) && e[k].len == 0
    ensures SameFrom(o, e[..k + 1])
  {
    hide SameFrom;
    TakeNext(e, k);
    SameZero(e[k]);
    SameSym([e[k]], []);
    SameSnoc(o, e[..k], [], e[k]);
    assert o + [] == o;
  }

  lemma SamePush(o: seq<Edit>, e: seq<Edit>, k: nat)
    requires k < |e| && SameFrom(o, e[..k])
    ensures SameFrom(o + [e[k]], e[..k + 1])
  {
    hide SameFrom;
    TakeNext(e, k);
    SameRefl([e[k]]);
    SameSnoc(o, e[..k], [e[k]], e[k]);
  }

  /** The last entry grown by one of its own kind. */
  lemma SameGrow(o: seq<Edit>, e: seq<Edit>, k: nat)
    requires k < |e| && SameFrom(o, e[..k]) && o != [] && o[|o| - 1].op == e[k].op
    ensures SameFrom(o[|o| - 1 := Edit(e[k].op, o[|o| - 1].len + e[k].len)], e[..k + 1])
  {
    hide SameFrom;
    var m, l, d := o[..|o| - 1], o[|o| - 1], e[k];
    var g := Edit(d.op, l.len + d.len);
    assert o == m + [l] && o[|o| - 1 := g] == m + [g];
    SamePush(o, e, k);
    SameMerge(d.op, l.len, d.len);
    assert l == Edit(d.op, l.len) && d == Edit(d.op, d.len);
    SameSym([l] + [d], [g]);
    SameRefl(m);
    SameConcat(m, [g], m, [l] + [d]);
    Assoc(m, [l], [d]);
    SameTrans(m + [g], o + [d], e[..k + 1]);
  }

  lemma NormalSnoc(o: seq<Edit>, d: Edit)
    requires Normal(o) && d.len > 0 && (o != [] ==> Follows(o[|o| - 1].op, d.op))
    ensures Normal(o + [d])
  {
    var e := o + [d];
    forall k | 0 <= k < |e| - 1
      ensures Follows(e[k].op, e[k + 1].op)
    {
      if k < |o| - 1 {
        assert Follows(o[k].op, o[k + 1].op);
      }
    }
  }

  lemma NormalGrow(o: seq<Edit>, n: nat)
    requires Normal(o) && o != []
    ensures var l := o[|o| - 1]; Normal(o[|o| - 1 := Edit(l.op, l.len + n)])
  {
    var l := o[|o| - 1];
    var e := o[|o| - 1 := Edit(l.op, l.len + n)];
    forall k | 0 <= k < |e| - 1
      ensures Follows(e[k].op, e[k + 1].op)
    {
      assert Follows(o[k].op, o[k + 1].op);
    }
  }

  // ---------- one gap ----------

  /** A stretch of changes adds up to `ins` insertions and `del` deletions. */
  ghost predicate GapIs(run: seq<Edit>, ins: nat, del: nat) {
    SameFrom([Edit(INS, ins)] + [Edit(DEL, del)], run)
  }

  lemma GapNone(run: seq<Edit>)
    requires run == []
    ensures GapIs(run, 0, 0)
  {
    hide SameFrom;
    SameZero(Edit(INS, 0));
    SameZero(Edit(DEL, 0));
    SameConcat([Edit(INS, 0)], [Edit(DEL, 0)], [], []);
    assert [] + run == run;
  }

  lemma GapSnoc(run: seq<Edit>, ins: nat, del: nat, d: Edit)
    requires GapIs(run, ins, del) && (d.op != EQ || d.len == 0)
    ensures GapIs(run + [d], ins + (if d.op == INS then d.len else 0), del + (if d.op == DEL then d.len else 0))
  {
    hide SameFrom;
    var a, b := [Edit(INS, ins)], [Edit(DEL, del)];
    SameRefl([d]);
    SameConcat(a + b, [d], run, [d]);
    if d.op == EQ {
      SameZero(d);
      SameSym([d], []);
      SameRefl(a + b);
      SameConcat(a + b, [], a + b, [d]);
      assert a + b + [] == a + b;
      SameTrans(a + b, a + b + [d], run + [d]);
    } else if d.op == DEL {
      GapDel(ins, del, d.len);
      SameTrans(a + [Edit(DEL, del + d.len)], a + b + [d], run + [d]);
    } else {
      GapIns(ins, del, d.len);
      SameTrans([Edit(INS, ins + d.len)] + b, a + b + [d], run + [d]);
    }
  }

  lemma GapDel(ins: nat, del: nat, n: nat)
    ensures SameFrom([Edit(INS, ins)] + [Edit(DEL, del + n)], [Edit(INS, ins)] + [Edit(DEL, del)] + [Edit(DEL, n)])
  {
    hide SameFrom;
    var a := [Edit(INS, ins)];
    SameMerge(DEL, del, n);
    SameSym([Edit(DEL, del)] + [Edit(DEL, n)], [Edit(DEL, del + n)]);
    SameRefl(a);
    SameConcat(a, [Edit(DEL, del + n)], a, [Edit(DEL, del)] + [Edit(DEL, n)]);
    Assoc(a, [Edit(DEL, del)], [Edit(DEL, n)]);
  }

  lemma GapIns(ins: nat, del: nat, n: nat)
    ensures SameFrom([Edit(INS, ins + n)] + [Edit(DEL, del)], [Edit(INS, ins)] + [Edit(DEL, del)] + [Edit(INS, n)])
  {
    hide SameFrom;
    var a, b, c := [Edit(INS, ins)], [Edit(DEL, del)], [Edit(INS, n)];
    SameMerge(INS, ins, n);
    SameSym(a + c, [Edit(INS, ins + n)]);
    SameRefl(b);
    SameConcat([Edit(INS, ins + n)], b, a + c, b);
    SameSwap(del, n);
    SameSym(b + c, c + b);
    SameRefl(a);
    SameConcat(a, c + b, a, b + c);
    Assoc(a, c, b);
    Assoc(a, b, c);
    SameTrans([Edit(INS, ins + n)] + b, a + (c + b), a + (b + c));
  }

  /** The two entries of a gap, empty ones left out. */
  function GapEntries(ins: nat, del: nat): seq<Edit> {
    (if ins > 0 then [Edit(INS, ins)] else []) + (if del > 0 then [Edit(DEL, del)] else [])
  }

  lemma GapEmit(o: seq<Edit>, e: seq<Edit>, k0: nat, k: nat, ins: nat, del: nat)
    requires k0 <= k <= |e| && SameFrom(o, e[..k0]) && GapIs(e[k0..k], ins, del)
    requires Normal(o) && (o != [] ==> o[|o| - 1].op == EQ)
    ensures SameFrom(o + GapEntries(ins, del), e[..k]) && Normal(o + GapEntries(ins, del))
  {
    hide SameFrom, Normal;
    var i, d := if ins > 0 then [Edit(INS, ins)] else [], if del > 0 then [Edit(DEL, del)] else [];
    EmptyOut(INS, ins);
    EmptyOut(DEL, del);
    SameConcat(i, d, [Edit(INS, ins)], [Edit(DEL, del)]);
    SameTrans(i + d, [Edit(INS, ins)] + [Edit(DEL, del)], e[k0..k]);
    SameConcat(o, i + d, e[..k0], e[k0..k]);
    assert e[..k] == e[..k0] + e[k0..k];
    assert o + (i + d) == o + i + d;
    if ins > 0 {
      NormalSnoc(o, Edit(INS, ins));
    } else {
      assert o + i == o;
    }
    if del > 0 {
      NormalSnoc(o + i, Edit(DEL, del));
    } else {
      assert o + i + d == o + i;
    }
  }

  lemma EmptyOut(op: Op, n: nat)
    ensures SameFrom(if n > 0 then [Edit(op, n)] else [], [Edit(op, n)])
  {
    hide SameFrom;
    if n == 0 {
      SameZero(Edit(op, 0));
      SameSym([Edit(op, 0)], []);
    } else {
      SameRefl([Edit(op, n)]);
    }
  }

  // ---------- the rewriters ----------

  /** Sums one maximal gap from `k` on; empty entries of any kind are transparent. */
  method SumGap(e: seq<Edit>, k0: nat) returns (k: nat, ins: nat, del: nat)
    requires k0 < |e| && e[k0].len > 0 && e[k0].op != EQ
    ensures k0 < k <= |e| && GapIs(e[k0..k], ins, del)
    ensures k == |e| || (e[k].op == EQ && e[k].len > 0)
    ensures |GapEntries(ins, del)| <= k - k0
  {
    hide GapIs;
    k, ins, del := k0, 0, 0;
    GapNone(e[k0..k]);
    while k < |e|
      invariant k0 <= k <= |e| && GapIs(e[k0..k], ins, del)
      invariant (if ins > 0 then 1 else 0) + (if del > 0 then 1 else 0) <= k - k0
      invariant k == k0 ==> e[k].len > 0 && e[k].op != EQ
    {
      if e[k].len > 0 && e[k].op == EQ {
        break;
      }
      GapSnoc(e[k0..k], ins, del, e[k]);
      assert e[k0..k + 1] == e[k0..k] + [e[k]];
      if e[k].len > 0 {
        if e[k].op == INS {
          ins := ins + e[k].len;
        } else {
          del := del + e[k].len;
        }
      }
      k := k + 1;
    }
  }

  method CopyBack(edl: array<Edit>, out: array<Edit>, w: nat)
    requires edl != out && w <= edl.Length && w <= out.Length
    modifies edl
    ensures edl[..w] == out[..w]
  {
    for k := 0 to w
      invariant edl[..k] == out[..k]
    {
      edl[k] := out[k];
      assert edl[..k + 1] == edl[..k] + [edl[k]] && out[..k + 1] == out[..k] + [out[k]];
    }
  }

  /** Puts one entry at the end of the `w` written ones. */
  method Push(out: array<Edit>, w: nat, d: Edit) returns (w': nat)
    requires w < out.Length
    modifies out
    ensures w' == w + 1 && out[..w'] == old(out[..w]) + [d]
  {
    out[w] := d;
    w' := w + 1;
  }

  /** The writer so far holds the normal form of the first `k` entries; a gap is closed only by a kept run. */
  ghost predicate Written(o: seq<Edit>, e: seq<Edit>, k: nat) {
    && k <= |e| && |o| <= k && Normal(o) && SameFrom(o, e[..k])
    && (o == [] || o[|o| - 1].op == EQ || k == |e| || (e[k].op == EQ && e[k].len > 0))
  }

  lemma WrittenSkip(o: seq<Edit>, e: seq<Edit>, k: nat)
    requires Written(o, e, k) && k < |e| && e[k].len == 0
    ensures Written(o, e, k + 1)
  {
    SameSkip(o, e, k);
  }

  lemma WrittenKeep(o: seq<Edit>, e: seq<Edit>, k: nat)
    requires Written(o, e, k) && k < |e| && e[k].op == EQ && e[k].len > 0
    ensures o != [] && o[|o| - 1].op == EQ ==> Written(o[|o| - 1 := Edit(EQ, o[|o| - 1].len + e[k].len)], e, k + 1)
    ensures o == [] || o[|o| - 1].op != EQ ==> Written(o + [e[k]], e, k + 1)
  {
    hide SameFrom, Normal;
    if o != [] && o[|o| - 1].op == EQ {
      SameGrow(o, e, k);
      NormalGrow(o, e[k].len);
    } else {
      SamePush(o, e, k);
      NormalSnoc(o, e[k]);
    }
  }

  lemma WrittenGap(o: seq<Edit>, e: seq<Edit>, k0: nat, k: nat, ins: nat, del: nat)
    requires Written(o, e, k0) && k0 < k <= |e| && GapIs(e[k0..k], ins, del) && |GapEntries(ins, del)| <= k - k0
    requires e[k0].op != EQ && (k == |e| || (e[k].op == EQ && e[k].len > 0))
    ensures Written(o + GapEntries(ins, del), e, k)
  {
    GapEmit(o, e, k0, k, ins, del);
  }

  lemma WrittenAll(o: seq<Edit>, e: seq<Edit>)
    requires Written(o, e, |e|)
    ensures o == Canon(e) && |o| <= |e|
  {
    hide SameFrom, Normal;
    assert e[..|e|] == e;
    SameFromIsSame(o, e);
    CanonUnique(o, e);
    CanonFixed(o);
  }

  /** Rewrites the list in place into its normal form; it never grows. */
  method Canonicalize(edl: array<Edit>, n: nat) returns (n': nat)
    requires n <= edl.Length
    modifies edl
    ensures n' <= n && edl[..n'] == Canon(old(edl[..n]))
  {
    hide Written, Canon, GapIs;
    ghost var e := edl[..n];
    if n == 0 {
      CanonNone(e);
      return 0;
    }
    var out := new Edit[n + 4];
    var w, k: nat := 0, 0;
    WrittenNone(e);
    while k < n
      invariant k <= n && w <= k && edl[..n] == e
      invariant Written(out[..w], e, k)
    {
      var d := edl[k];
      assert d == e[k];
      if d.len == 0 {
        WrittenSkip(out[..w], e, k);
        k := k + 1;
        continue;
      }
      if d.op == EQ {
        WrittenKeep(out[..w], e, k);
        if w > 0 && out[w - 1].op == EQ {
          ghost var o := out[..w];
          out[w - 1] := Edit(EQ, out[w - 1].len + d.len);
          assert out[..w] == o[w - 1 := out[w - 1]];
        } else {
          w := Push(out, w, d);
        }
        k := k + 1;
        continue;
      }
      var k', ins, del := SumGap(edl[..n], k);
      WrittenGap(out[..w], e, k, k', ins, del);
      GapShape(out[..w], ins, del);
      WrittenSize(out[..w] + GapEntries(ins, del), e, k');
      if ins > 0 {
        w := Push(out, w, Edit(INS, ins));
      }
      if del > 0 {
        w := Push(out, w, Edit(DEL, del));
      }
      k := k';
    }
    WrittenAll(out[..w], e);
    n' := if w < edl.Length then w else edl.Length;
    CopyBack(edl, out, n');
  }

  lemma WrittenSize(o: seq<Edit>, e: seq<Edit>, k: nat)
    requires Written(o, e, k)
    ensures |o| <= k <= |e|
  {
  }

  lemma GapShape(o: seq<Edit>, ins: nat, del: nat)
    ensures ins > 0 && del > 0 ==> o + GapEntries(ins, del) == o + [Edit(INS, ins)] + [Edit(DEL, del)]
    ensures ins > 0 && del == 0 ==> o + GapEntries(ins, del) == o + [Edit(INS, ins)]
    ensures ins == 0 && del > 0 ==> o + GapEntries(ins, del) == o + [Edit(DEL, del)]
    ensures ins == 0 && del == 0 ==> o + GapEntries(ins, del) == o
  {
  }

  lemma WrittenNone(e: seq<Edit>)
    ensures Written([], e, 0)
  {
  }

  lemma CanonNone(e: seq<Edit>)
    requires e == []
    ensures Canon(e) == []
  {
  }

  // ---------- the in-place merge ----------

  lemma {:induction false} NonEmptyBound(e: seq<Edit>)
    requires NonEmpty(e)
    ensures |e| <= Olds(e) + News(e)
  {
    if e != [] {
      assert forall k | 0 <= k < |e[1..]| :: e[1..][k] == e[k + 1];
      NonEmptyBound(e[1..]);
    }
  }

  /** Without empty entries, neighbours of one kind made one. */
  ghost function Joined(e: seq<Edit>): seq<Edit>
    decreases |e|
  {
    if e == [] then [] else Join(Joined(e[..|e| - 1]), e[|e| - 1])
  }

  function Join(o: seq<Edit>, d: Edit): seq<Edit> {
    if d.len == 0 then o else AddTo(o, d)
  }

  lemma JoinedNext(e: seq<Edit>, k: nat)
    requires k < |e|
    ensures Joined(e[..k + 1]) == Join(Joined(e[..k]), e[k])
  {
    assert e[..k + 1][..k] == e[..k];
  }

  lemma JoinTight(o: seq<Edit>, d: Edit)
    requires Tight(o)
    ensures Tight(Join(o, d)) && Units(Join(o, d)) == Units(o) + Repeat(d.op, d.len)
  {
    hide Tight;
    AddToUnits(o, d);
    if d.len > 0 {
      AddToTight(o, d);
    } else {
      assert Units(o) + Repeat(d.op, d.len) == Units(o);
    }
  }

  lemma {:induction false} JoinedTight(e: seq<Edit>)
    ensures Tight(Joined(e)) && Units(Joined(e)) == Units(e)
    decreases |e|
  {
    hide Tight;
    if e == [] {
      TightNone(e);
    } else {
      var t, d := e[..|e| - 1], e[|e| - 1];
      JoinedTight(t);
      JoinTight(Joined(t), d);
      UnitsConcat(t, [d]);
      UnitsOne(d);
      assert e == t + [d];
    }
  }

  lemma TightSolid(e: seq<Edit>)
    requires Tight(e)
    ensures NonEmpty(e)
  {
  }

  /** Joining edits the same. */
  lemma {:induction false} JoinedSame(e: seq<Edit>)
    ensures SameFrom(Joined(e), e)
    decreases |e|
  {
    hide SameFrom;
    if e == [] {
      SameRefl(e);
    } else {
      var k := |e| - 1;
      var o := Joined(e[..k]);
      JoinedSame(e[..k]);
      assert e[..k + 1] == e;
      if e[k].len == 0 {
        SameSkip(o, e, k);
      } else if o != [] && o[|o| - 1].op == e[k].op {
        SameGrow(o, e, k);
      } else {
        SamePush(o, e, k);
      }
    }
  }

  lemma TightNone(e: seq<Edit>)
    requires e == []
    ensures Tight(e)
  {
  }

  /** How the steps of a tight list begin. */
  lemma TightLead(e: seq<Edit>)
    requires Tight(e) && e != []
    ensures Tight(e[1..]) && Units(e) == Repeat(e[0].op, e[0].len) + Units(e[1..])
    ensures e[0].len <= |Units(e)| && forall k | 0 <= k < e[0].len :: Units(e)[k] == e[0].op
    ensures e[0].len < |Units(e)| ==> Units(e)[e[0].len] != e[0].op
    ensures Units(e[1..]) == Units(e)[e[0].len..]
  {
    RepeatElements(e[0].op, e[0].len);
    var t := e[1..];
    assert NonEmpty(t) && forall k | 0 <= k < |t| - 1 :: Unlike(t[k], t[k + 1]) by {
      forall k | 0 <= k < |t| - 1
        ensures Unlike(t[k], t[k + 1])
      {
        assert Unlike(e[k + 1], e[k + 2]);
      }
    }
    if t != [] {
      RepeatElements(t[0].op, t[0].len);
      assert Unlike(e[0], e[1]);
      assert Units(e)[e[0].len] == Units(t)[0];
    }
  }

  /** One tight list for one way to step: joining is the only merge there is. */
  lemma {:induction false} TightUnique(e: seq<Edit>, f: seq<Edit>)
    requires Tight(e) && Tight(f) && Units(e) == Units(f)
    ensures e == f
    decreases |e|
  {
    hide Tight, Units;
    UnitsNone(e);
    UnitsNone(f);
    if e != [] && f != [] {
      TightLead(e);
      TightLead(f);
      var m, n := e[0].len, f[0].len;
      assert Units(e)[0] == e[0].op && Units(f)[0] == f[0].op;
      TightUnique(e[1..], f[1..]);
      SplitHead(e);
      SplitHead(f);
    }
  }

  lemma UnitsNone(e: seq<Edit>)
    requires Tight(e)
    ensures e == [] <==> Units(e) == []
    ensures e != [] ==> e[0].len > 0
  {
    if e != [] {
      RepeatElements(e[0].op, e[0].len);
    }
  }

  /** Drops empty entries and merges neighbours of one kind, reading ahead of where it writes. */
  method Merge(buf: array<Edit>, n: nat) returns (m: nat)
    requires n <= buf.Length
    modifies buf
    ensures m <= n && buf[..m] == Joined(old(buf[..n]))
    ensures SameFrom(buf[..m], old(buf[..n])) && NonEmpty(buf[..m])
  {
    hide SameFrom, Joined, Tight;
    ghost var e := buf[..n];
    m := 0;
    JoinedNone(e[..0]);
    for k := 0 to n
      invariant m <= k && buf[k..n] == e[k..]
      invariant buf[..m] == Joined(e[..k])
    {
      assert buf[k] == e[k] by {
        assert buf[k..n][0] == e[k..][0];
      }
      ghost var o := buf[..m];
      var d := buf[k];
      JoinedNext(e, k);
      if d.len > 0 {
        if m > 0 && buf[m - 1].op == d.op {
          buf[m - 1] := Edit(d.op, buf[m - 1].len + d.len);
          assert buf[..m] == o[m - 1 := buf[m - 1]];
        } else {
          buf[m] := d;
          m := m + 1;
          assert buf[..m] == o + [d];
        }
      }
      TailKept(e, buf[..], k, n);
    }
    assert e[..n] == e;
    JoinedSame(e);
    JoinedTight(e);
    TightSolid(Joined(e));
  }

  lemma JoinedNone(e: seq<Edit>)
    requires e == []
    ensures Joined(e) == []
  {
  }

  lemma TailKept(e: seq<Edit>, b: seq<Edit>, k: nat, n: nat)
    requires k < n == |e| <= |b| && forall j | k < j < n :: b[j] == e[j]
    ensures b[k + 1..n] == e[k + 1..]
  {
  }
}
