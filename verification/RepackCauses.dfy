/** Why a repack may stop short: everything that can go wrong with a record, and nothing else. */
module RepackCauses {
  import opened Common
  import opened DeltaFormat
  import opened PackFormat
  import opened PackResolve
  import opened RepackChain
  import opened RepackState
  import opened RepackRows
  import opened RepackInv
  import opened RepackEmit
  import opened RepackSteps

  const HEADER_GUESS := 32

  // ---------- a header never outgrows the guess ----------

  ghost function Pow128(k: nat): nat {
    if k == 0 then 1 else 128 * Pow128(k - 1)
  }

  lemma {:induction false} GroupLen(n: nat, k: nat)
    requires n < Pow128(k)
    ensures |GroupBytes(n)| <= k
    decreases k
  {
    if n > 0 {
      GroupLen(n / 128, k - 1);
    }
  }

  lemma {:induction false} OfsHighLen(v: nat, k: nat)
    requires v < Pow128(k) && k > 0
    ensures |OfsHigh(v)| <= k
    decreases k
  {
    if v >= 128 {
      OfsHighLen(v / 128 - 1, k - 1);
    }
  }

  lemma Pow128Ten()
    ensures Pow128(10) >= U64
  {
    assert Pow128(5) == 0x8_0000_0000;
    assert Pow128(10) == 128 * 128 * 128 * 128 * 128 * Pow128(5) by {
      assert Pow128(10) == 128 * Pow128(9) && Pow128(9) == 128 * Pow128(8) && Pow128(8) == 128 * Pow128(7);
      assert Pow128(7) == 128 * Pow128(6) && Pow128(6) == 128 * Pow128(5);
    }
  }

  lemma HeaderSome(typ: nat, size: nat)
    requires typ < 8
    ensures HeaderBytes(typ, size) != []
  {
  }

  /** What a record takes in a log is no more than was asked for before it was written. */
  lemma EmittedFits(rec: Rec, log: seq<Byte>, cur: nat, base: Option<Row>, sha: seq<Byte>)
    requires rec.typ < 8 && rec.size < U64 && |log| < U64
    requires base.None? ==> !IsDelta(rec.typ)
    requires base.Some? && base.value.id != cur ==> |sha| == SHA_LEN
    ensures |Emitted(rec, log, cur, base, sha)|
         <= HEADER_GUESS + (if base.Some? && base.value.id != cur then SHA_LEN else 0) + |rec.z|
  {
    hide GroupBytes, OfsHigh, Pow128;
    Pow128Ten();
    GroupLen(rec.size / 16, 10);
    if base.Some? && base.value.id == cur && base.value.off < |log| {
      var back := |log| - base.value.off;
      if back >= 128 {
        OfsHighLen(back / 128 - 1, 10);
      }
    }
  }

  // ---------- a base that is no record ----------

  /** An offset delta whose base offset is where no source record starts. */
  ghost predicate Baseless(c: Ctx, off: nat) {
    && RecAt(c.w, c.src, off).Some?
    && var r := RecAt(c.w, c.src, off).value;
    r.typ == OFS_DELTA && r.baseOff !in c.recs
  }

  /** A base that is a record has been consumed before the delta over it. */
  lemma BaseMapped(c: Ctx, s: State, offs: seq<nat>, busy: int, rec: Rec)
    requires Good(c) && Inv(c, s, offs, busy) && rec.typ == OFS_DELTA && rec.baseOff < rec.off
    requires if busy == -1 then |offs| < |c.recs| && rec.off == c.recs[|offs|]
             else 0 <= busy && TakenOk(c, s, offs, busy) && s.holds[busy].rec == rec
    ensures busy != -1 || rec.baseOff in c.recs ==> exists m :: m in s.map_ && m.key == rec.baseOff
  {
    hide RowsOk, PlaceOk, WaitOk, WaitSorted, RecGood, HashesTell, Obj0, ShardOk, HeldUnder;
    if busy == -1 && rec.baseOff in c.recs {
      var i :| 0 <= i < |c.recs| && c.recs[i] == rec.baseOff;
      assert i < |offs|;
      assert s.map_[i] in s.map_ && s.map_[i].key == offs[i] == c.recs[i];
    }
  }
}
