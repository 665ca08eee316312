/** A pack that is cut short for the order of its records alone: 256 deltas, each over the next one in the pack. */
module RepackOrder {
  import opened Common
  import opened DeltaFormat
  import opened DeltaCodec
  import opened PackFormat
  import opened PackResolve
  import opened PackWrite
  import opened RepackChain
  import opened RepackState
  import opened RepackRows
  import opened RepackDepth
  import opened RepackRead
  import opened RepackInv
  import opened RepackEmit
  import opened RepackLayout
  import opened RepackOutcome
  import opened RepackDeep
  import opened RepackStall

  function Num(k: nat): seq<Byte> {
    [k / 256 % 256, k % 256]
  }

  /** The `k`-th object, and the instructions for it over any other. */
  function NumBlob(k: nat): Blob {
    Blob(BLOB, Num(k))
  }

  function NumDelta(k: nat): seq<Byte> {
    [2, 2, 2] + Num(k)
  }

  lemma NumMeans(k: nat, j: nat, room: nat)
    requires room >= 2
    ensures Meaning(NumDelta(k), Num(j), room) == Outcome(OK, Num(k))
  {
    var x, base := Num(k), Num(j);
    assert [2, 2, 2] + x == [2] + ([2] + ([2] + x));
    assert ([2] + ([2] + ([2] + x)))[1..] == [2] + ([2] + x) && ([2] + ([2] + x))[1..] == [2] + x;
    assert ([2] + x)[1..] == x;
    assert x[..2] == x && x[2..] == [] && [] + x == x;
    assert Play([2] + x, base, 2, []) == PlayInsert(2, x, base, 2, []) == Play([], base, 2, x);
  }

  lemma NumOne(j: nat, k: nat)
    requires j < 65536 && k < 65536 && NumBlob(j) == NumBlob(k)
    ensures j == k
  {
    assert Num(j)[0] == Num(k)[0] && Num(j)[1] == Num(k)[1];
  }

  /** The first object whole, every other over the one before. */
  function Payload0(k: nat): seq<Byte> {
    if k == 0 then Num(0) else NumDelta(k)
  }

  function Typ0(k: nat): nat {
    if k == 0 then BLOB else REF_DELTA
  }

  function Ref0(w: World, k: nat): seq<Byte> {
    if k == 0 then [] else w.sha(NumBlob(k - 1))
  }

  function NumRec(w: World, k: nat): seq<Byte> {
    RecordBytes(Typ0(k), |Payload0(k)|, 0, Ref0(w, k), w.z.deflate(Payload0(k)))
  }

  /** The pack before its `j`-th record: the last object comes first. */
  function PackTo(w: World, n: nat, j: nat): (r: seq<Byte>)
    requires j <= n + 1
    ensures |r| >= HEADER
  {
    if j == 0 then PackHdr(n + 1) else PackTo(w, n, j - 1) + NumRec(w, n - (j - 1))
  }

  ghost function NumCtx(w: World, n: nat): Ctx {
    Ctx(w, set k | 0 <= k <= n :: NumBlob(k), PackTo(w, n, n + 1),
        seq(n + 1, (j: nat) requires j <= n => |PackTo(w, n, j)|), [], map[], (key: nat) => None)
  }

  /** A codec, hashes that tell the objects apart, scratch for the deltas. */
  ghost predicate NumWorld(w: World, n: nat) {
    && GoodZlib(w.z) && HashesTell(w, NumCtx(w, n).objs) && 5 <= w.room.half <= w.room.base < U64 && n < 65536
  }

  lemma {:induction false} PackPrefix(w: World, n: nat, i: nat, j: nat)
    requires i <= j <= n + 1
    ensures PackTo(w, n, i) <= PackTo(w, n, j) && (i < j ==> |PackTo(w, n, i)| < |PackTo(w, n, j)|)
    decreases j
  {
    hide NumRec;
    if i < j {
      PackPrefix(w, n, i, j - 1);
      RecNotEmpty(w, n - (j - 1));
    }
  }

  lemma RecNotEmpty(w: World, k: nat)
    ensures NumRec(w, k) != []
  {
    hide RecordBytes;
    RecordNotEmpty(Typ0(k), |Payload0(k)|, 0, Ref0(w, k), w.z.deflate(Payload0(k)));
  }

  /** The `j`-th record of the pack, where it starts and where it ends. */
  lemma NumAt(w: World, n: nat, j: nat)
    requires NumWorld(w, n) && j <= n
    ensures var c, off, k := NumCtx(w, n), |PackTo(w, n, j)|, n - j;
      && off == c.recs[j]
      && RecAt(w, c.src, off) == Some(Rec(off, Typ0(k), |Payload0(k)|, 0, Ref0(w, k), w.z.deflate(Payload0(k))))
      && RecEnd(w, c.src, off) == |PackTo(w, n, j + 1)|
  {
    hide GoodZlib, RecordBytes, RecAt, RecEnd;
    var k, log := n - j, PackTo(w, n, j);
    var upto, src := PackTo(w, n, j + 1), PackTo(w, n, n + 1);
    PackPrefix(w, n, j + 1, n + 1);
    assert k > 0 ==> NumBlob(k - 1) in NumCtx(w, n).objs;
    PackRec(w, log, Typ0(k), Ref0(w, k), Payload0(k), src[|upto|..]);
    assert upto == log + NumRec(w, k);
    assert src == upto + src[|upto|..];
  }

  /** Its object. */
  lemma NumObject(w: World, n: nat, j: nat)
    requires NumWorld(w, n) && j <= n
    ensures Obj0(NumCtx(w, n), |PackTo(w, n, j)|) == Some(NumBlob(n - j))
  {
    hide GoodZlib, RecAt, Meaning, PackTo;
    var c, k := NumCtx(w, n), n - j;
    NumAt(w, n, j);
    InflateFed(w.z, Payload0(k));
    if k > 0 {
      var b := NumBlob(k - 1);
      assert b in c.objs;
      assert forall o | o in c.objs && w.sha(o) == w.sha(b) :: Key(w, o) == Key(w, b);
      NumMeans(k, k - 1, w.room.base);
    }
  }

  lemma {:induction false} NumParse(w: World, n: nat, j: nat)
    requires NumWorld(w, n) && j <= n + 1
    ensures var c := NumCtx(w, n);
      Parse(w, c.src, |PackTo(w, n, j)|, n + 1 - j) == c.recs[j..]
    decreases n + 1 - j
  {
    hide NumWorld, RecAt, RecEnd, PackTo;
    if j <= n {
      NumAt(w, n, j);
      NumParse(w, n, j + 1);
      var c := NumCtx(w, n);
      assert c.recs[j..] == [c.recs[j]] + c.recs[j + 1..];
    }
  }

  lemma NumGood(w: World, n: nat)
    requires NumWorld(w, n)
    ensures var c := NumCtx(w, n);
      Good(c) && Blank(c) && DrainHdr(c.src).st == Ok && c.recs == Parse(w, c.src, HEADER, DrainHdr(c.src).count)
  {
    hide GoodZlib, RecAt, Obj0, PackTo, PackHdr, InRows, Parse, DrainHdr, HashesTell;
    var c := NumCtx(w, n);
    forall off | off in c.recs
      ensures RecGood(c, off)
    {
      var j :| 0 <= j < |c.recs| && c.recs[j] == off;
      NumRecGood(w, n, j);
    }
    forall i, j | 0 <= i < j < |c.recs|
      ensures c.recs[i] < c.recs[j]
    {
      PackPrefix(w, n, i, j);
    }
    forall key: nat
      ensures PickOk(c.pick0, c.rows0, key)
    {
      NoRows(key);
    }
    NumParse(w, n, 0);
    NumHeader(w, n);
    assert c.recs[0..] == c.recs;
  }

  lemma NumHeader(w: World, n: nat)
    requires n < 65536
    ensures DrainHdr(PackTo(w, n, n + 1)) == HdrRead(Ok, 2, n + 1) && |PackTo(w, n, 0)| == HEADER
  {
    hide PackHdr, DrainHdr;
    PackPrefix(w, n, 0, n + 1);
    var h, src := PackTo(w, n, 0), PackTo(w, n, n + 1);
    HdrRoundTrip(n + 1, src[|h|..]);
    assert h == PackHdr(n + 1) && src == h + src[|h|..];
  }

  lemma NumRecGood(w: World, n: nat, j: nat)
    requires NumWorld(w, n) && j <= n
    ensures RecGood(NumCtx(w, n), |PackTo(w, n, j)|)
  {
    hide GoodZlib, RecAt, Obj0, PackTo;
    var c, k := NumCtx(w, n), n - j;
    NumAt(w, n, j);
    NumObject(w, n, j);
    assert NumBlob(k) in c.objs;
    assert k > 0 ==> NumBlob(k - 1) in c.objs;
  }

  /** Every object comes once. */
  lemma NumLone(w: World, n: nat, j: nat)
    requires NumWorld(w, n) && j <= n
    ensures Lone(NumCtx(w, n), |PackTo(w, n, j)|)
  {
    hide GoodZlib, Obj0, PackTo;
    var c, off, k := NumCtx(w, n), |PackTo(w, n, j)|, n - j;
    NumObject(w, n, j);
    assert c.recs[j] == off && NumBlob(k) in c.objs;
    forall p | p in c.recs && IsCopy(c, p, Key(w, NumBlob(k)))
      ensures p == off
    {
      var i :| 0 <= i < |c.recs| && c.recs[i] == p;
      NumObject(w, n, i);
      assert NumBlob(n - i) in c.objs;
      NumOne(n - i, k);
    }
  }

  lemma NumLink(w: World, n: nat, j: nat)
    requires NumWorld(w, n) && j < n
    ensures Link(NumCtx(w, n), |PackTo(w, n, j)|, |PackTo(w, n, j + 1)|)
  {
    hide NumWorld, Obj0, PackTo, RecAt, Lone;
    NumAt(w, n, j);
    NumObject(w, n, j + 1);
    NumLone(w, n, j);
    NumLone(w, n, j + 1);
    PackPrefix(w, n, j, j + 1);
  }

  /** The chain down to the first record of the pack. */
  lemma {:induction false} NumHung(w: World, n: nat, j: nat)
    requires NumWorld(w, n) && j <= n
    ensures var c := NumCtx(w, n);
      Hung(c, c.recs[..n], |PackTo(w, n, j)|, |PackTo(w, n, 0)|, j)
    decreases j
  {
    hide NumWorld, PackTo, Link;
    if j > 0 {
      NumLink(w, n, j - 1);
      NumHung(w, n, j - 1);
      var c := NumCtx(w, n);
      assert c.recs[..n][j - 1] == |PackTo(w, n, j - 1)|;
    }
  }

  /** Every record is within as many deltas as its object is links away from the first, and can land. */
  lemma {:induction false} NumWithin(w: World, n: nat, k: nat)
    requires NumWorld(w, n) && k <= n
    ensures var c, off := NumCtx(w, n), |PackTo(w, n, n - k)|;
      RecWithin(c, off, k) && Rooted(c, off, k)
    decreases k
  {
    hide PackTo, RecAt, Obj0, Lone, HashesTell, GoodZlib, Within;
    var c, off := NumCtx(w, n), |PackTo(w, n, n - k)|;
    NumAt(w, n, n - k);
    NumObject(w, n, n - k);
    assert c.recs[n - k] == off;
    if k > 0 {
      var b := |PackTo(w, n, n - k + 1)|;
      NumWithin(w, n, k - 1);
      NumLink(w, n, n - k);
      LinkWithin(c, off, b, k - 1);
      NumObject(w, n, n - k + 1);
      assert Brings(c, b, Key(w, NumBlob(k - 1)));
    }
  }

  /** 257 records, the deepest of them 256 deltas deep, all of which can land: cut short all the same. */
  lemma OrderInput(w: World)
    requires NumWorld(w, CHAIN_MAX)
    ensures var c := NumCtx(w, CHAIN_MAX);
      && Good(c) && Blank(c) && DrainHdr(c.src).st == Ok && c.recs == Parse(w, c.src, HEADER, DrainHdr(c.src).count)
      && Overhung(c, CHAIN_MAX)
      && forall j: nat | j <= CHAIN_MAX :: CanLand(c, c.recs[j]) && RecWithin(c, c.recs[j], CHAIN_MAX - j)
  {
    hide NumWorld, Good, PackTo, RecAt, Hung, Rooted, RecWithin, Parse, DrainHdr;
    var c := NumCtx(w, CHAIN_MAX);
    NumGood(w, CHAIN_MAX);
    NumHung(w, CHAIN_MAX, CHAIN_MAX);
    NumAt(w, CHAIN_MAX, CHAIN_MAX);
    forall j: nat | j <= CHAIN_MAX
      ensures CanLand(c, c.recs[j]) && RecWithin(c, c.recs[j], CHAIN_MAX - j)
    {
      NumWithin(w, CHAIN_MAX, CHAIN_MAX - j);
      NumAt(w, CHAIN_MAX, j);
    }
  }
}
