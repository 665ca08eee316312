/** How deep an object lies, read off the source pack and the shard before anything is landed: what decides whether a
  * landed record resolves. */
module RepackDepth {
  import opened Common
  import opened DeltaFormat
  import opened DeltaCodec
  import opened PackFormat
  import opened PackResolve
  import opened PackWrite
  import opened RepackChain
  import opened RepackState
  import opened RepackRows

  /** A delta record the resolver has scratch for. */
  ghost predicate FitsHalf(c: Ctx, off: nat, rec: Rec) {
    rec.size <= c.w.room.half && Obj0(c, off).Some? && |Obj0(c, off).value.bytes| <= c.w.room.half
  }

  // ---------- within n deltas ----------

  /** Whichever copies of an object and of its bases are read, it takes no more than `n` deltas: every copy, in the
    * source pack or in the shard, is whole, or a readable delta over something within `n - 1`. */
  ghost predicate Within(c: Ctx, key: nat, n: nat)
    decreases n, 1
  {
    && (forall r | r in c.rows0 && r.key == key :: OldWithin(c, r.id, r.off, n))
    && (forall off | off in c.recs && IsCopy(c, off, key) :: RecWithin(c, off, n))
  }

  /** The same of one record of the shard, */
  ghost predicate OldWithin(c: Ctx, id: nat, off: nat, n: nat)
    decreases n, 0
  {
    id in c.logs0
    && var h := HeaderAt(Loc(c.logs0[id], off));
    || IsBase(h.typ)
    || (n > 0 && if h.typ == OFS_DELTA then h.ofs <= off && OldWithin(c, id, off - h.ofs, n - 1)
                 else Within(c, c.w.prefix(h.ref), n - 1))
  }

  /** and of one source record. */
  ghost predicate RecWithin(c: Ctx, off: nat, n: nat)
    decreases n, 0
  {
    RecAt(c.w, c.src, off).Some?
    && var rec := RecAt(c.w, c.src, off).value;
    || IsBase(rec.typ)
    || (IsDelta(rec.typ) && FitsHalf(c, off, rec) && n > 0 && Within(c, BaseKey(c, rec), n - 1))
  }

  // ---------- beyond n deltas ----------

  /** Whichever copies are read, the object takes more than `n` deltas, or runs into a record nothing reads. */
  ghost predicate Beyond(c: Ctx, key: nat, n: nat)
    decreases n, 1
  {
    && (forall r | r in c.rows0 && r.key == key :: OldBeyond(c, r.id, r.off, n))
    && (forall off | off in c.recs && IsCopy(c, off, key) :: RecBeyond(c, off, n))
  }

  ghost predicate OldBeyond(c: Ctx, id: nat, off: nat, n: nat)
    decreases n, 0
  {
    id in c.logs0 ==>
      var h := HeaderAt(Loc(c.logs0[id], off));
      && !IsBase(h.typ)
      && (n > 0 ==> if h.typ == OFS_DELTA then h.ofs <= off ==> OldBeyond(c, id, off - h.ofs, n - 1)
                    else Beyond(c, c.w.prefix(h.ref), n - 1))
  }

  ghost predicate RecBeyond(c: Ctx, off: nat, n: nat)
    decreases n, 0
  {
    RecAt(c.w, c.src, off).Some? ==>
      var rec := RecAt(c.w, c.src, off).value;
      && !IsBase(rec.typ)
      && (IsDelta(rec.typ) && FitsHalf(c, off, rec) && n > 0 ==> Beyond(c, BaseKey(c, rec), n - 1))
  }

  // ---------- one copy, one answer ----------

  /** The object and all it is a delta over, `n` deltas down, come in one copy each. */
  ghost predicate Alone(c: Ctx, key: nat, n: nat)
    decreases n, 1
  {
    || (exists r :: OnlyOld(c, key, r) && OldAlone(c, r.id, r.off, n))
    || (exists off :: OnlyRec(c, key, off) && RecAlone(c, off, n))
  }

  ghost predicate OnlyOld(c: Ctx, key: nat, r: Row) {
    && r in c.rows0 && r.key == key && (forall q | q in c.rows0 && q.key == key :: q == r)
    && (forall off | off in c.recs :: !IsCopy(c, off, key))
  }

  ghost predicate OnlyRec(c: Ctx, key: nat, off: nat) {
    && off in c.recs && IsCopy(c, off, key) && (forall p | p in c.recs && IsCopy(c, p, key) :: p == off)
    && (forall q | q in c.rows0 :: q.key != key)
  }

  ghost predicate OldAlone(c: Ctx, id: nat, off: nat, n: nat)
    decreases n, 0
  {
    id in c.logs0
    && var h := HeaderAt(Loc(c.logs0[id], off));
    || IsBase(h.typ) || n == 0
    || if h.typ == OFS_DELTA then h.ofs <= off && OldAlone(c, id, off - h.ofs, n - 1)
       else Alone(c, c.w.prefix(h.ref), n - 1)
  }

  ghost predicate RecAlone(c: Ctx, off: nat, n: nat)
    decreases n, 0
  {
    RecAt(c.w, c.src, off).Some?
    && var rec := RecAt(c.w, c.src, off).value;
    !IsDelta(rec.typ) || n == 0 || Alone(c, BaseKey(c, rec), n - 1)
  }

  /** In one copy an object is either within or beyond `n` deltas. */
  lemma {:induction false} AloneDecides(c: Ctx, key: nat, n: nat)
    requires Alone(c, key, n)
    ensures Within(c, key, n) <==> !Beyond(c, key, n)
    decreases n, 1
  {
    hide RecAlone, OldAlone, RecWithin, OldWithin, RecBeyond, OldBeyond, IsCopy;
    if r :| OnlyOld(c, key, r) && OldAlone(c, r.id, r.off, n) {
      OldDecides(c, r.id, r.off, n);
    } else {
      var off :| OnlyRec(c, key, off) && RecAlone(c, off, n);
      RecDecides(c, off, n);
    }
  }

  lemma {:induction false} OldDecides(c: Ctx, id: nat, off: nat, n: nat)
    requires OldAlone(c, id, off, n)
    ensures OldWithin(c, id, off, n) <==> !OldBeyond(c, id, off, n)
    decreases n, 0
  {
    hide HeaderAt, Within, Beyond, Alone;
    var h := HeaderAt(Loc(c.logs0[id], off));
    if !IsBase(h.typ) && n > 0 {
      if h.typ == OFS_DELTA {
        OldDecides(c, id, off - h.ofs, n - 1);
      } else {
        AloneDecides(c, c.w.prefix(h.ref), n - 1);
      }
    }
  }

  lemma {:induction false} RecDecides(c: Ctx, off: nat, n: nat)
    requires RecAlone(c, off, n)
    ensures RecWithin(c, off, n) <==> !RecBeyond(c, off, n)
    decreases n, 0
  {
    hide RecAt, Within, Beyond, Alone, FitsHalf, BaseKey;
    var rec := RecAt(c.w, c.src, off).value;
    if IsDelta(rec.typ) && n > 0 {
      AloneDecides(c, BaseKey(c, rec), n - 1);
    }
  }

  /** More deltas allowed, no fewer objects within them. */
  lemma {:induction false} WithinMore(c: Ctx, key: nat, n: nat, m: nat)
    requires Within(c, key, n) && n <= m
    ensures Within(c, key, m)
    decreases n, 1
  {
    hide IsCopy, OldWithin, RecWithin;
    forall r | r in c.rows0 && r.key == key
      ensures OldWithin(c, r.id, r.off, m)
    {
      OldWithinMore(c, r.id, r.off, n, m);
    }
    forall off | off in c.recs && IsCopy(c, off, key)
      ensures RecWithin(c, off, m)
    {
      RecWithinMore(c, off, n, m);
    }
  }

  lemma {:induction false} OldWithinMore(c: Ctx, id: nat, off: nat, n: nat, m: nat)
    requires OldWithin(c, id, off, n) && n <= m
    ensures OldWithin(c, id, off, m)
    decreases n, 0
  {
    hide HeaderAt, Within;
    var h := HeaderAt(Loc(c.logs0[id], off));
    if !IsBase(h.typ) {
      if h.typ == OFS_DELTA {
        OldWithinMore(c, id, off - h.ofs, n - 1, m - 1);
      } else {
        WithinMore(c, c.w.prefix(h.ref), n - 1, m - 1);
      }
    }
  }

  lemma {:induction false} RecWithinMore(c: Ctx, off: nat, n: nat, m: nat)
    requires RecWithin(c, off, n) && n <= m
    ensures RecWithin(c, off, m)
    decreases n, 0
  {
    hide RecAt, Within, FitsHalf, BaseKey;
    var rec := RecAt(c.w, c.src, off).value;
    if !IsBase(rec.typ) {
      WithinMore(c, BaseKey(c, rec), n - 1, m - 1);
    }
  }
}
