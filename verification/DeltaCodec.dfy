/** Applying a delta to a base, and encoding one. */
module DeltaCodec {
  import opened Common
  import opened DeltaFormat

  // ---------- applying ----------

  datatype Outcome = Outcome(st: DeltaStatus, out: seq<Byte>)

  /** Runs the instructions that are left; `limit` is the announced result size. */
  function Play(delta: seq<Byte>, base: seq<Byte>, limit: nat, out: seq<Byte>): Outcome
    decreases |delta|, 0
  {
    if delta == [] then Outcome(if |out| == limit then OK else BADFMT, out)
    else if delta[0] >= 128 then PlayCopy(delta[0], delta[1..], base, limit, out)
    else if delta[0] > 0 then PlayInsert(delta[0], delta[1..], base, limit, out)
    else Outcome(BADFMT, out)
  }

  /** A copy: sparse offset and size fields; a zero size means 0x10000. */
  function PlayCopy(cmd: nat, from: seq<Byte>, base: seq<Byte>, limit: nat, out: seq<Byte>): Outcome
    decreases |from|, 1
  {
    var o := Gather(cmd, 4, from);
    if o.st != OK then Outcome(o.st, out)
    else
      var z := Gather(cmd / 16, 3, o.rest);
      if z.st != OK then Outcome(z.st, out)
      else
        var sz := if z.val == 0 then 0x10000 else z.val;
        if o.val > |base| || sz > |base| - o.val || |out| + sz > limit then Outcome(BADFMT, out)
        else Play(z.rest, base, limit, out + base[o.val..o.val + sz])
  }

  function PlayInsert(n: nat, from: seq<Byte>, base: seq<Byte>, limit: nat, out: seq<Byte>): Outcome
    decreases |from|, 1
  {
    if n > |from| || |out| + n > limit then Outcome(BADFMT, out)
    else Play(from[n..], base, limit, out + from[..n])
  }

  /** What a delta means: two sizes, then the instructions. */
  function Meaning(delta: seq<Byte>, base: seq<Byte>, room: nat): Outcome {
    var b := DrainSize(delta, 0, 0);
    if b.st != OK then Outcome(b.st, [])
    else
      var r := DrainSize(b.rest, 0, 0);
      if r.st != OK then Outcome(r.st, [])
      else if room < r.val then Outcome(NOROOM, [])
      else Play(r.rest, base, r.val, [])
  }

  /** The applier: one pass over the instructions, appending to the output. */
  method Apply(delta: seq<Byte>, base: seq<Byte>, room: nat) returns (r: Outcome)
    ensures r == Meaning(delta, base, room)
  {
    var b := DrainSizeLoop(delta);
    if b.st != OK {
      return Outcome(b.st, []);
    }
    var s := DrainSizeLoop(b.rest);
    if s.st != OK {
      return Outcome(s.st, []);
    }
    if room < s.val {
      return Outcome(NOROOM, []);
    }
    var rest, out: seq<Byte>, limit := s.rest, [], s.val;
    while rest != []
      invariant Play(rest, base, limit, out) == Play(s.rest, base, limit, [])
      decreases |rest|
    {
      var cmd := rest[0];
      rest := rest[1..];
      if cmd >= 128 {
        var o := Gather(cmd, 4, rest);
        if o.st != OK {
          return Outcome(o.st, out);
        }
        var z := Gather(cmd / 16, 3, o.rest);
        if z.st != OK {
          return Outcome(z.st, out);
        }
        var sz := if z.val == 0 then 0x10000 else z.val;
        if o.val > |base| || sz > |base| - o.val || sz > limit - |out| {
          return Outcome(BADFMT, out);
        }
        out := out + base[o.val..o.val + sz];
        rest := z.rest;
      } else if cmd > 0 {
        if cmd > |rest| || cmd > limit - |out| {
          return Outcome(BADFMT, out);
        }
        out := out + rest[..cmd];
        rest := rest[cmd..];
      } else {
        return Outcome(BADFMT, out);
      }
    }
    r := Outcome(if |out| == limit then OK else BADFMT, out);
  }

  // ---------- instructions ----------

  const COPY_MAX := 0xffffff
  const INSERT_MAX := 127

  /** The size field: left out entirely for 0x10000. */
  function SizeField(sz: nat): nat {
    if sz == 0x10000 then 0 else sz
  }

  function CopyCmd(off: nat, sz: nat): nat {
    0x80 + Flags(off, 4) + 16 * Flags(SizeField(sz), 3)
  }

  lemma CopyCmdByte(off: nat, sz: nat)
    ensures 128 <= CopyCmd(off, sz) < 256
    ensures Announces(CopyCmd(off, sz), off, 4)
    ensures Announces(CopyCmd(off, sz) / 16, SizeField(sz), 3)
  {
    hide Flags, Announces;
    var f := SizeField(sz);
    FlagsBound(off, 4);
    FlagsBound(f, 3);
    FlagsAnnounce(off, 4, Flags(f, 3) + 8);
    FlagsAnnounce(f, 3, 1);
  }

  function CopyBytes(off: nat, sz: nat): seq<Byte> {
    CopyCmdByte(off, sz);
    [CopyCmd(off, sz)] + (Spread(off, 4) + Spread(SizeField(sz), 3))
  }

  function InsertBytes(data: seq<Byte>): seq<Byte> {
    if data == [] then []
    else
      var n := if |data| > INSERT_MAX then INSERT_MAX else |data|;
      [n] + (data[..n] + InsertBytes(data[n..]))
  }

  lemma Field(n: nat)
    ensures n == 4 ==> Pow256(n) == 0x1_0000_0000
    ensures n == 3 ==> Pow256(n) == 0x100_0000
  {
  }

  /** A fed copy instruction, played, copies. */
  lemma CopyPlays(off: nat, sz: nat, rest: seq<Byte>, base: seq<Byte>, limit: nat, out: seq<Byte>)
    requires off < 0x1_0000_0000 && 0 < sz <= COPY_MAX && off + sz <= |base| && |out| + sz <= limit
    ensures Play(CopyBytes(off, sz) + rest, base, limit, out) == Play(rest, base, limit, out + base[off..off + sz])
  {
    hide Gather, Spread, Flags, Announces, Pow256;
    var cmd, f := CopyCmd(off, sz), SizeField(sz);
    var tail := Spread(f, 3) + rest;
    CopyCmdByte(off, sz);
    Field(4);
    Field(3);
    SpreadRoundTrip(cmd, off, 4, tail);
    SpreadRoundTrip(cmd / 16, f, 3, rest);
    CopyShape(cmd, Spread(off, 4), Spread(f, 3), rest);
    assert CopyBytes(off, sz) + rest == [cmd] + (Spread(off, 4) + tail);
    PlayFirst(cmd, Spread(off, 4) + tail, base, limit, out);
  }

  lemma CopyShape(cmd: Byte, a: seq<Byte>, b: seq<Byte>, rest: seq<Byte>)
    ensures [cmd] + (a + b) + rest == [cmd] + (a + (b + rest))
  {
  }

  lemma PlayFirst(cmd: Byte, from: seq<Byte>, base: seq<Byte>, limit: nat, out: seq<Byte>)
    ensures cmd >= 128 ==> Play([cmd] + from, base, limit, out) == PlayCopy(cmd, from, base, limit, out)
    ensures 0 < cmd < 128 ==> Play([cmd] + from, base, limit, out) == PlayInsert(cmd, from, base, limit, out)
  {
    assert ([cmd] + from)[1..] == from;
  }

  /** Fed inserts, played, append the literal bytes. */
  lemma {:induction false} InsertPlays(data: seq<Byte>, rest: seq<Byte>, base: seq<Byte>, limit: nat, out: seq<Byte>)
    requires |out| + |data| <= limit
    ensures Play(InsertBytes(data) + rest, base, limit, out) == Play(rest, base, limit, out + data)
    decreases |data|
  {
    hide Play;
    if data == [] {
      assert InsertBytes(data) + rest == rest && out + data == out;
    } else {
      var n := if |data| > INSERT_MAX then INSERT_MAX else |data|;
      var head, tail := data[..n], data[n..];
      var after := InsertBytes(tail) + rest;
      CopyShape(n, head, InsertBytes(tail), rest);
      assert InsertBytes(data) + rest == [n] + (head + after);
      PlayFirst(n, head + after, base, limit, out);
      assert (head + after)[n..] == after && (head + after)[..n] == head;
      InsertPlays(tail, rest, base, limit, out + head);
      assert out + head + tail == out + data by {
        assert data == head + tail;
      }
    }
  }

  // ---------- encoding ----------

  /** The instructions written so far rebuild the first `k` bytes of the target, whatever follows them. */
  ghost predicate Rebuilds(ops: seq<Byte>, base: seq<Byte>, target: seq<Byte>, k: nat) {
    k <= |target| && forall rest: seq<Byte> :: RebuildsBefore(ops, base, target, k, rest)
  }

  ghost predicate RebuildsBefore(ops: seq<Byte>, base: seq<Byte>, target: seq<Byte>, k: nat, rest: seq<Byte>)
    requires k <= |target|
  {
    Play(ops + rest, base, |target|, []) == Play(rest, base, |target|, target[..k])
  }

  lemma RebuildsNothing(base: seq<Byte>, target: seq<Byte>)
    ensures Rebuilds([], base, target, 0)
  {
    forall rest: seq<Byte>
      ensures RebuildsBefore([], base, target, 0, rest)
    {
      assert [] + rest == rest;
    }
  }

  lemma RebuildsInsert(ops: seq<Byte>, base: seq<Byte>, target: seq<Byte>, k: nat, m: nat)
    requires Rebuilds(ops, base, target, k) && k <= m <= |target|
    ensures Rebuilds(ops + InsertBytes(target[k..m]), base, target, m)
  {
    hide Play, InsertBytes;
    var ins := InsertBytes(target[k..m]);
    forall rest: seq<Byte>
      ensures RebuildsBefore(ops + ins, base, target, m, rest)
    {
      assert RebuildsBefore(ops, base, target, k, ins + rest);
      assert ops + ins + rest == ops + (ins + rest);
      InsertPlays(target[k..m], rest, base, |target|, target[..k]);
      assert target[..k] + target[k..m] == target[..m];
    }
  }

  lemma RebuildsCopy(ops: seq<Byte>, base: seq<Byte>, target: seq<Byte>, k: nat, off: nat, sz: nat)
    requires Rebuilds(ops, base, target, k) && k + sz <= |target|
    requires off < 0x1_0000_0000 && 0 < sz <= COPY_MAX && off + sz <= |base|
    requires base[off..off + sz] == target[k..k + sz]
    ensures Rebuilds(ops + CopyBytes(off, sz), base, target, k + sz)
  {
    hide Play, CopyBytes;
    var cp, m := CopyBytes(off, sz), k + sz;
    forall rest: seq<Byte>
      ensures RebuildsBefore(ops + cp, base, target, m, rest)
    {
      assert RebuildsBefore(ops, base, target, k, cp + rest);
      assert ops + cp + rest == ops + (cp + rest);
      CopyPlays(off, sz, rest, base, |target|, target[..k]);
      assert target[..k] + target[k..k + sz] == target[..k + sz];
    }
  }

  /** Whole instructions rebuild the whole target: the delta means the target. */
  lemma RebuildsAll(ops: seq<Byte>, base: seq<Byte>, target: seq<Byte>, room: nat)
    requires Rebuilds(ops, base, target, |target|) && |base| < U64 && |target| < U64 && room >= |target|
    ensures Meaning(SizeBytes(|base|) + SizeBytes(|target|) + ops, base, room) == Outcome(OK, target)
  {
    hide DrainSize, SizeBytes, Play;
    var sizes := SizeBytes(|base|) + SizeBytes(|target|);
    assert sizes + ops == SizeBytes(|base|) + (SizeBytes(|target|) + ops);
    SizeReads(|base|, SizeBytes(|target|) + ops);
    SizeReads(|target|, ops);
    assert RebuildsBefore(ops, base, target, |target|, []);
    assert ops + [] == ops && target[..|target|] == target;
    PlayEnd(base, target);
  }

  lemma PlayEnd(base: seq<Byte>, target: seq<Byte>)
    ensures Play([], base, |target|, target) == Outcome(OK, target)
  {
  }

  // ---------- the hash table ----------

  const WINDOW := 4
  const TABLE := 0x10000

  /** A multiplicative hash of four bytes, top 16 bits. */
  function Hash4(b: seq<Byte>): (h: nat)
    requires |b| == WINDOW
    ensures h < TABLE
  {
    (b[0] as int + 0x100 * (b[1] as int) + 0x1_0000 * (b[2] as int) + 0x100_0000 * (b[3] as int))
    * 2654435761 % 0x1_0000_0000 / 0x1_0000
  }

  /** Every slot is empty (0) or one more than the offset of a whole window of the base. */
  ghost predicate TableOk(ht: seq<nat>, base: seq<Byte>) {
    |ht| == TABLE && forall h | 0 <= h < TABLE :: SlotOk(ht[h], base)
  }

  ghost predicate SlotOk(slot: nat, base: seq<Byte>) {
    slot == 0 || slot - 1 + WINDOW <= |base|
  }

  /** One more than the offset of the last of the first `n` windows with this hash, or 0. */
  ghost function LastWindow(base: seq<Byte>, n: nat, h: nat): nat
    requires n == 0 || n - 1 + WINDOW <= |base|
  {
    if n == 0 then 0 else if Hash4(base[n - 1..n - 1 + WINDOW]) == h then n else LastWindow(base, n - 1, h)
  }

  ghost function Windows(base: seq<Byte>): (n: nat)
    ensures n == 0 || n - 1 + WINDOW <= |base|
  {
    if |base| < WINDOW then 0 else |base| - WINDOW + 1
  }

  ghost predicate TableHolds(ht: seq<nat>, base: seq<Byte>, n: nat)
    requires n == 0 || n - 1 + WINDOW <= |base|
  {
    |ht| == TABLE && forall h | 0 <= h < TABLE :: ht[h] == LastWindow(base, n, h)
  }

  method BuildTable(base: seq<Byte>) returns (ht: array<nat>)
    requires |base| < 0x1_0000_0000
    ensures fresh(ht) && TableOk(ht[..], base) && TableHolds(ht[..], base, Windows(base))
  {
    hide Hash4;
    ht := new nat[TABLE](_ => 0);
    var i := 0;
    while i + WINDOW <= |base|
      invariant i <= Windows(base) && TableOk(ht[..], base) && TableHolds(ht[..], base, i)
    {
      var h := Hash4(base[i..i + WINDOW]);
      ht[h] := (i + 1) % 0x1_0000_0000;
      i := i + 1;
    }
  }

  /** A stretch of the target found in the base. */
  ghost predicate Match(base: seq<Byte>, target: seq<Byte>, bs: nat, ms: nat, len: nat) {
    bs + len <= |base| && ms + len <= |target| && base[bs..bs + len] == target[ms..ms + len]
  }

  lemma MatchGrows(base: seq<Byte>, target: seq<Byte>, bs: nat, ms: nat, len: nat)
    requires Match(base, target, bs, ms, len)
    ensures bs + len < |base| && ms + len < |target| && base[bs + len] == target[ms + len] ==>
      Match(base, target, bs, ms, len + 1)
    ensures bs > 0 && ms > 0 && base[bs - 1] == target[ms - 1] ==> Match(base, target, bs - 1, ms - 1, len + 1)
  {
    if bs + len < |base| && ms + len < |target| {
      assert base[bs..bs + len + 1] == base[bs..bs + len] + [base[bs + len]];
      assert target[ms..ms + len + 1] == target[ms..ms + len] + [target[ms + len]];
    }
    if bs > 0 && ms > 0 {
      assert base[bs - 1..bs + len] == [base[bs - 1]] + base[bs..bs + len];
      assert target[ms - 1..ms + len] == [target[ms - 1]] + target[ms..ms + len];
    }
  }

  lemma MatchPart(base: seq<Byte>, target: seq<Byte>, bs: nat, ms: nat, len: nat, n: nat)
    requires Match(base, target, bs, ms, len) && n <= len
    ensures Match(base, target, bs, ms, n) && Match(base, target, bs + n, ms + n, len - n)
  {
    assert base[bs..bs + n] == base[bs..bs + len][..n] && base[bs + n..bs + len] == base[bs..bs + len][n..];
    assert target[ms..ms + n] == target[ms..ms + len][..n] && target[ms + n..ms + len] == target[ms..ms + len][n..];
  }

  lemma MatchInside(base: seq<Byte>, target: seq<Byte>, bs: nat, ms: nat, len: nat)
    requires Match(base, target, bs, ms, len)
    ensures bs + len <= |base| && ms + len <= |target|
  {
  }

  /** How many bytes agree from here on. */
  ghost function Ahead(base: seq<Byte>, target: seq<Byte>, b: nat, t: nat): nat
    decreases |target| - t
  {
    if t < |target| && b < |base| && target[t] == base[b] then 1 + Ahead(base, target, b + 1, t + 1) else 0
  }

  /** How many bytes agree just before here, back to `start`. */
  ghost function Behind(base: seq<Byte>, target: seq<Byte>, b: nat, t: nat, start: nat): (k: nat)
    requires b <= |base| && t <= |target|
    ensures k <= b && k <= t && (t >= start ==> start <= t - k)
    decreases t
  {
    if t > start && b > 0 && target[t - 1] == base[b - 1] then 1 + Behind(base, target, b - 1, t - 1, start) else 0
  }

  /** Extends a match forward, then backward but not into bytes already flushed. */
  method Extend(base: seq<Byte>, target: seq<Byte>, boff: nat, tp: nat, start: nat) returns (bs: nat, ms: nat, len: nat)
    requires Match(base, target, boff, tp, WINDOW) && start <= tp
    ensures Match(base, target, bs, ms, len) && start <= ms <= tp && tp + WINDOW <= ms + len
    ensures boff <= |base| && tp <= |target|
    ensures var k := Behind(base, target, boff, tp, start);
      bs == boff - k && ms == tp - k && len == k + WINDOW + Ahead(base, target, boff + WINDOW, tp + WINDOW)
  {
    hide Match;
    bs, ms, len := boff, tp, WINDOW;
    MatchInside(base, target, boff, tp, len);
    while tp + len < |target| && boff + len < |base| && target[tp + len] == base[boff + len]
      invariant Match(base, target, boff, tp, len) && WINDOW <= len <= |target|
      invariant len + Ahead(base, target, boff + len, tp + len)
           == WINDOW + Ahead(base, target, boff + WINDOW, tp + WINDOW)
      decreases |target| - len
    {
      MatchGrows(base, target, boff, tp, len);
      len := len + 1;
    }
    MatchInside(base, target, boff, tp, len);
    while ms > start && bs > 0 && target[ms - 1] == base[bs - 1]
      invariant Match(base, target, bs, ms, len) && start <= ms <= tp && tp + WINDOW <= ms + len
      invariant bs <= |base| && ms <= |target| && boff - bs == tp - ms
      invariant tp - ms + Behind(base, target, bs, ms, start) == Behind(base, target, boff, tp, start)
      invariant len == tp - ms + WINDOW + Ahead(base, target, boff + WINDOW, tp + WINDOW)
      decreases ms
    {
      MatchInside(base, target, bs, ms, len);
      MatchGrows(base, target, bs, ms, len);
      bs, ms, len := bs - 1, ms - 1, len + 1;
    }
  }

  method FeedInsert(out: seq<Byte>, data: seq<Byte>) returns (out': seq<Byte>)
    ensures out' == out + InsertBytes(data)
  {
    out' := out;
    var rest := data;
    while rest != []
      invariant out' + InsertBytes(rest) == out + InsertBytes(data)
      decreases |rest|
    {
      var chunk: Byte := if |rest| > INSERT_MAX then INSERT_MAX else |rest|;
      CopyShape(chunk, rest[..chunk], InsertBytes(rest[chunk..]), []);
      assert out' + ([chunk] + (rest[..chunk] + InsertBytes(rest[chunk..])))
          == out' + [chunk] + rest[..chunk] + InsertBytes(rest[chunk..]);
      out' := out' + [chunk] + rest[..chunk];
      rest := rest[chunk..];
    }
  }

  /** The copies of one stretch, at most 0xffffff bytes each. */
  ghost function CopiesBytes(off: nat, len: nat): seq<Byte>
    decreases len
  {
    if len == 0 then []
    else
      var chunk := if len > COPY_MAX then COPY_MAX else len;
      CopyBytes(off, chunk) + CopiesBytes(off + chunk, len - chunk)
  }

  /** A match of any length, in copies of at most 0xffffff bytes. */
  method FeedCopies(out: seq<Byte>, base: seq<Byte>, bs: nat, len: nat,
        ghost target: seq<Byte>, ghost ms: nat, ghost head: nat)
      returns (out': seq<Byte>)
    requires Match(base, target, bs, ms, len) && |base| < 0x1_0000_0000
    requires head <= |out| && Rebuilds(out[head..], base, target, ms)
    ensures out <= out' && Rebuilds(out'[head..], base, target, ms + len)
    ensures out' == out + CopiesBytes(bs, len)
  {
    hide Rebuilds, CopyBytes;
    out' := out;
    var moff: nat, mlen: nat := bs, len;
    while mlen > 0
      invariant mlen <= len && moff == bs + (len - mlen)
      invariant Match(base, target, moff, ms + (len - mlen), mlen)
      invariant out <= out' && Rebuilds(out'[head..], base, target, ms + (len - mlen))
      invariant out' + CopiesBytes(moff, mlen) == out + CopiesBytes(bs, len)
    {
      var chunk: nat := if mlen > COPY_MAX then COPY_MAX else mlen;
      MatchPart(base, target, moff, ms + (len - mlen), mlen, chunk);
      RebuildsCopy(out'[head..], base, target, ms + (len - mlen), moff, chunk);
      assert (out' + CopyBytes(moff, chunk))[head..] == out'[head..] + CopyBytes(moff, chunk);
      assert out' + (CopyBytes(moff, chunk) + CopiesBytes(moff + chunk, mlen - chunk))
        == out' + CopyBytes(moff, chunk) + CopiesBytes(moff + chunk, mlen - chunk);
      out' := out' + CopyBytes(moff, chunk);
      moff := moff + chunk;
      mlen := mlen - chunk;
    }
  }

  /** The window at `scan` as the table finds it: one more than its offset in the base, or 0 where it finds none. */
  ghost function Finds(base: seq<Byte>, target: seq<Byte>, scan: nat): (hit: nat)
    requires scan + WINDOW <= |target|
    ensures hit > 0 ==> hit - 1 + WINDOW <= |base| && base[hit - 1..hit - 1 + WINDOW] == target[scan..scan + WINDOW]
  {
    var slot := LastWindow(base, Windows(base), Hash4(target[scan..scan + WINDOW]));
    if slot > 0 && slot - 1 + WINDOW <= |base| && base[slot - 1..slot - 1 + WINDOW] == target[scan..scan + WINDOW]
    then slot
    else 0
  }

  /** The instructions for the target from `start` on, with nothing found before `scan`: every window found is
    * extended both ways as far as it goes, and what lies between is spelled out. */
  ghost function Ops(base: seq<Byte>, target: seq<Byte>, scan: nat, start: nat): seq<Byte>
    requires start <= scan <= |target|
    decreases |target| - scan
  {
    if scan + WINDOW > |target| then InsertBytes(target[start..])
    else if Finds(base, target, scan) == 0 then Ops(base, target, scan + 1, start)
    else
      var boff := Finds(base, target, scan) - 1;
      var k, f := Behind(base, target, boff, scan, start), Ahead(base, target, boff + WINDOW, scan + WINDOW);
      AheadFits(base, target, boff + WINDOW, scan + WINDOW);
      var end := scan + WINDOW + f;
      InsertBytes(target[start..scan - k]) + CopiesBytes(boff - k, k + WINDOW + f) + Ops(base, target, end, end)
  }

  lemma OpsSkip(base: seq<Byte>, target: seq<Byte>, scan: nat, start: nat)
    requires start <= scan && scan + WINDOW <= |target| && Finds(base, target, scan) == 0
    ensures Ops(base, target, scan, start) == Ops(base, target, scan + 1, start)
  {
  }

  lemma OpsCopy(base: seq<Byte>, target: seq<Byte>, scan: nat, start: nat, bs: nat, ms: nat, len: nat)
    requires start <= scan && scan + WINDOW <= |target| && Finds(base, target, scan) > 0
    requires var boff := Finds(base, target, scan) - 1;
      var k := Behind(base, target, boff, scan, start);
      bs == boff - k && ms == scan - k && len == k + WINDOW + Ahead(base, target, boff + WINDOW, scan + WINDOW)
    requires ms + len <= |target|
    ensures Ops(base, target, scan, start)
         == InsertBytes(target[start..ms]) + CopiesBytes(bs, len) + Ops(base, target, ms + len, ms + len)
  {
    hide Finds, Behind, Ahead, InsertBytes, CopiesBytes;
  }

  lemma OpsEnd(base: seq<Byte>, target: seq<Byte>, scan: nat, start: nat)
    requires start <= scan <= |target| < scan + WINDOW
    ensures Ops(base, target, scan, start) == InsertBytes(target[start..])
    ensures start == |target| ==> Ops(base, target, scan, start) == []
  {
  }

  /** How far two stretches agree from here on, and that they do not agree further. */
  lemma {:induction false} AheadIs(base: seq<Byte>, target: seq<Byte>, b: nat, t: nat)
    requires b <= |base| && t <= |target|
    ensures var n := Ahead(base, target, b, t);
      && b + n <= |base| && t + n <= |target| && base[b..b + n] == target[t..t + n]
      && (b + n == |base| || t + n == |target| || base[b + n] != target[t + n])
    decreases |target| - t
  {
    if t < |target| && b < |base| && target[t] == base[b] {
      AheadIs(base, target, b + 1, t + 1);
      var m := 1 + Ahead(base, target, b + 1, t + 1);
      assert base[b..b + m] == [base[b]] + base[b + 1..b + m] && target[t..t + m] == [target[t]] + target[t + 1..t + m];
    }
  }

  /** And back to `start`. */
  lemma {:induction false} BehindIs(base: seq<Byte>, target: seq<Byte>, b: nat, t: nat, start: nat)
    requires b <= |base| && start <= t <= |target|
    ensures var n := Behind(base, target, b, t, start);
      && n <= b && start <= t - n && base[b - n..b] == target[t - n..t]
      && (b == n || t - n == start || base[b - n - 1] != target[t - n - 1])
    decreases t
  {
    if t > start && b > 0 && target[t - 1] == base[b - 1] {
      BehindIs(base, target, b - 1, t - 1, start);
      var m := 1 + Behind(base, target, b - 1, t - 1, start);
      LastByte(base, b - m, b);
      LastByte(target, t - m, t);
    }
  }

  lemma LastByte(s: seq<Byte>, a: nat, b: nat)
    requires a < b <= |s|
    ensures s[a..b] == s[a..b - 1] + [s[b - 1]]
  {
  }

  /** A copy that cannot be made longer: it neither ends nor starts where the bytes beyond still agree, unless what is
    * before it has been written out already. */
  ghost predicate Longest(base: seq<Byte>, target: seq<Byte>, start: nat, bs: nat, ms: nat, len: nat) {
    && Match(base, target, bs, ms, len) && start <= ms
    && (bs + len == |base| || ms + len == |target| || base[bs + len] != target[ms + len])
    && (bs == 0 || ms == start || base[bs - 1] != target[ms - 1])
  }

  /** No window from `start` up to `scan` is found in the base. */
  ghost predicate NoneFound(base: seq<Byte>, target: seq<Byte>, start: nat, scan: nat) {
    forall x: nat | start <= x < scan && x + WINDOW <= |target| :: Finds(base, target, x) == 0
  }

  lemma {:induction false} OpsSkips(base: seq<Byte>, target: seq<Byte>, from: nat, scan: nat, start: nat)
    requires start <= from <= scan <= |target| && NoneFound(base, target, from, scan)
    requires scan == from || scan - 1 + WINDOW <= |target|
    ensures Ops(base, target, from, start) == Ops(base, target, scan, start)
    decreases scan - from
  {
    hide Finds, Ops;
    if from < scan {
      OpsSkip(base, target, from, start);
      OpsSkips(base, target, from + 1, scan, start);
    }
  }

  /** Where a window is found there comes a copy that covers it and cannot be longer. */
  lemma OpsFound(base: seq<Byte>, target: seq<Byte>, start: nat, scan: nat) returns (bs: nat, ms: nat, len: nat)
    requires start <= scan && scan + WINDOW <= |target| && Finds(base, target, scan) > 0
    ensures Longest(base, target, start, bs, ms, len) && ms <= scan && scan + WINDOW <= ms + len
    ensures bs + (scan - ms) == Finds(base, target, scan) - 1
    ensures Ops(base, target, scan, start)
         == InsertBytes(target[start..ms]) + CopiesBytes(bs, len) + Ops(base, target, ms + len, ms + len)
  {
    hide Finds, Ops, Behind, Ahead, InsertBytes, CopiesBytes, Hash4, LastWindow;
    var boff := Finds(base, target, scan) - 1;
    var k, f := Behind(base, target, boff, scan, start), Ahead(base, target, boff + WINDOW, scan + WINDOW);
    BehindIs(base, target, boff, scan, start);
    AheadIs(base, target, boff + WINDOW, scan + WINDOW);
    bs, ms, len := boff - k, scan - k, k + WINDOW + f;
    OpsCopy(base, target, scan, start, bs, ms, len);
    MatchPieces(base, target, bs, ms, k, f);
  }

  /** Where nothing is found all is spelled out; where the first window is found there comes a copy that covers it and
    * cannot be longer, and only what is before it is spelled out. */
  lemma OpsNext(base: seq<Byte>, target: seq<Byte>, start: nat, scan: nat)
    requires start <= scan <= |target| && NoneFound(base, target, start, scan)
    requires scan == start || scan - 1 + WINDOW <= |target|
    ensures scan + WINDOW > |target| ==> Ops(base, target, start, start) == InsertBytes(target[start..])
    ensures scan + WINDOW <= |target| && Finds(base, target, scan) > 0 ==>
      exists bs: nat, ms: nat, len: nat ::
        && Longest(base, target, start, bs, ms, len) && ms <= scan && scan + WINDOW <= ms + len
        && bs + (scan - ms) == Finds(base, target, scan) - 1
        && Ops(base, target, start, start)
           == InsertBytes(target[start..ms]) + CopiesBytes(bs, len) + Ops(base, target, ms + len, ms + len)
  {
    hide Finds, Ops, InsertBytes, CopiesBytes, Longest;
    OpsSkips(base, target, start, scan, start);
    OpsSpelled(base, target, scan, start);
    if scan + WINDOW <= |target| && Finds(base, target, scan) > 0 {
      var bs, ms, len := OpsFound(base, target, start, scan);
      LongestFits(base, target, start, bs, ms, len);
    }
  }

  lemma LongestFits(base: seq<Byte>, target: seq<Byte>, start: nat, bs: nat, ms: nat, len: nat)
    requires Longest(base, target, start, bs, ms, len)
    ensures start <= ms && ms + len <= |target| && bs + len <= |base|
  {
  }

  lemma OpsSpelled(base: seq<Byte>, target: seq<Byte>, scan: nat, start: nat)
    requires start <= scan <= |target|
    ensures scan + WINDOW > |target| ==> Ops(base, target, scan, start) == InsertBytes(target[start..])
  {
    hide InsertBytes;
  }

  /** A stretch that agrees before, within and behind a window agrees. */
  lemma MatchPieces(base: seq<Byte>, target: seq<Byte>, bs: nat, ms: nat, k: nat, f: nat)
    requires bs + k + WINDOW + f <= |base| && ms + k + WINDOW + f <= |target|
    requires base[bs..bs + k] == target[ms..ms + k]
    requires base[bs + k..bs + k + WINDOW] == target[ms + k..ms + k + WINDOW]
    requires base[bs + k + WINDOW..bs + k + WINDOW + f] == target[ms + k + WINDOW..ms + k + WINDOW + f]
    ensures Match(base, target, bs, ms, k + WINDOW + f)
  {
    ThreePieces(base, bs, bs + k, bs + k + WINDOW, bs + k + WINDOW + f);
    ThreePieces(target, ms, ms + k, ms + k + WINDOW, ms + k + WINDOW + f);
  }

  lemma ThreePieces(s: seq<Byte>, a: nat, b: nat, c: nat, d: nat)
    requires a <= b <= c <= d <= |s|
    ensures s[a..d] == s[a..b] + s[b..c] + s[c..d]
  {
  }

  /** What the table says of a window. */
  lemma FindsIs(base: seq<Byte>, target: seq<Byte>, scan: nat, ht: seq<nat>)
    requires scan + WINDOW <= |target| && TableOk(ht, base) && TableHolds(ht, base, Windows(base))
    ensures var slot := ht[Hash4(target[scan..scan + WINDOW])];
      && SlotOk(slot, base)
      && Finds(base, target, scan)
         == if slot > 0 && base[slot - 1..slot - 1 + WINDOW] == target[scan..scan + WINDOW] then slot else 0
  {
    hide Hash4, LastWindow;
  }

  lemma {:induction false} AheadFits(base: seq<Byte>, target: seq<Byte>, b: nat, t: nat)
    requires t <= |target|
    ensures t + Ahead(base, target, b, t) <= |target|
    decreases |target| - t
  {
    if t < |target| && b < |base| && target[t] == base[b] {
      AheadFits(base, target, b + 1, t + 1);
    }
  }

  /** Scans the target window by window; literal runs and copies rebuild it exactly. */
  method Scan(base: seq<Byte>, target: seq<Byte>, ht: array<nat>, out: seq<Byte>) returns (out': seq<Byte>)
    requires TableOk(ht[..], base) && WINDOW <= |base| < 0x1_0000_0000 && TableHolds(ht[..], base, Windows(base))
    ensures out <= out' && Rebuilds(out'[|out|..], base, target, |target|)
    ensures out' == out + Ops(base, target, 0, 0)
  {
    hide Rebuilds, InsertBytes, Match, Hash4, Ahead, Behind, LastWindow, CopiesBytes, Ops, Finds, TableHolds, TableOk;
    out' := out;
    assert out[|out|..] == [];
    RebuildsNothing(base, target);
    var scan: nat, start: nat := 0, 0;
    while scan + WINDOW <= |target|
      invariant start <= scan <= |target|
      invariant out <= out' && Rebuilds(out'[|out|..], base, target, start)
      invariant out' + Ops(base, target, scan, start) == out + Ops(base, target, 0, 0)
    {
      var h := Hash4(target[scan..scan + WINDOW]);
      TableSize(ht[..], base);
      FindsIs(base, target, scan, ht[..]);
      var boff1 := ht[h];
      if boff1 == 0 {
        OpsSkip(base, target, scan, start);
        scan := scan + 1;
        continue;
      }
      var boff: nat := boff1 - 1;
      if base[boff..boff + WINDOW] != target[scan..scan + WINDOW] {
        OpsSkip(base, target, scan, start);
        scan := scan + 1;
        continue;
      }
      WindowMatch(base, target, boff, scan);
      var bs, ms, len := Extend(base, target, boff, scan, start);
      MatchInside(base, target, bs, ms, len);
      OpsCopy(base, target, scan, start, bs, ms, len);
      InsertNone(target, start, ms);
      assert out' + (InsertBytes(target[start..ms]) + CopiesBytes(bs, len) + Ops(base, target, ms + len, ms + len))
        == out' + InsertBytes(target[start..ms]) + CopiesBytes(bs, len) + Ops(base, target, ms + len, ms + len);
      if ms > start {
        RebuildsInsert(out'[|out|..], base, target, start, ms);
        InsertedTail(out', |out|, target[start..ms]);
        out' := FeedInsert(out', target[start..ms]);
      }
      out' := FeedCopies(out', base, bs, len, target, ms, |out|);
      scan := ms + len;
      start := scan;
    }
    OpsEnd(base, target, scan, start);
    if start < |target| {
      RebuildsInsert(out'[|out|..], base, target, start, |target|);
      InsertedTail(out', |out|, target[start..]);
      assert target[start..|target|] == target[start..];
      out' := FeedInsert(out', target[start..]);
    }
  }

  lemma InsertNone(target: seq<Byte>, start: nat, end: nat)
    requires start <= end <= |target|
    ensures start == end ==> InsertBytes(target[start..end]) == []
  {
  }

  lemma TableSize(ht: seq<nat>, base: seq<Byte>)
    requires TableOk(ht, base)
    ensures |ht| == TABLE
  {
  }

  lemma InsertedTail(out: seq<Byte>, head: nat, data: seq<Byte>)
    requires head <= |out|
    ensures (out + InsertBytes(data))[head..] == out[head..] + InsertBytes(data)
  {
  }

  lemma WindowMatch(base: seq<Byte>, target: seq<Byte>, boff: nat, scan: nat)
    requires boff + WINDOW <= |base| && scan + WINDOW <= |target|
    requires base[boff..boff + WINDOW] == target[scan..scan + WINDOW]
    ensures Match(base, target, boff, scan, WINDOW)
  {
  }

  /** The delta of a target over a base. */
  ghost function Encoded(base: seq<Byte>, target: seq<Byte>): seq<Byte> {
    SizeBytes(|base|) + SizeBytes(|target|)
    + if |base| < WINDOW || |target| < WINDOW then InsertBytes(target) else Ops(base, target, 0, 0)
  }

  /** Appends a delta to the output.  The delta always means the target; OK only if the output stays below
    * the target's own size. */
  method Encode(base: seq<Byte>, target: seq<Byte>, out: seq<Byte>) returns (st: DeltaStatus, out': seq<Byte>)
    requires |base| < 0x1_0000_0000 && |target| < U64
    ensures out' == out + Encoded(base, target) && st == if |out'| >= |target| then FAIL else OK
    ensures forall room: nat | room >= |target| :: Meaning(out'[|out|..], base, room) == Outcome(OK, target)
  {
    hide Rebuilds, SizeBytes, Meaning, InsertBytes, Ops;
    out' := FeedSize(out, |base|);
    out' := FeedSize(out', |target|);
    ghost var sizes := SizeBytes(|base|) + SizeBytes(|target|);
    assert out' == out + sizes;
    ghost var ops: seq<Byte>;
    if |base| < WINDOW || |target| < WINDOW {
      RebuildsNothing(base, target);
      RebuildsInsert([], base, target, 0, |target|);
      assert target[0..|target|] == target && [] + InsertBytes(target) == InsertBytes(target);
      ops := InsertBytes(target);
      out' := FeedInsert(out', target);
    } else {
      var ht := BuildTable(base);
      ghost var head := out';
      out' := Scan(base, target, ht, out');
      ops := out'[|head|..];
    }
    assert out'[|out|..] == sizes + ops;
    forall room: nat | room >= |target|
      ensures Meaning(out'[|out|..], base, room) == Outcome(OK, target)
    {
      RebuildsAll(ops, base, target, room);
    }
    if |out'| >= |target| {
      return FAIL, out';
    }
    st := OK;
  }

  /** Round trip: an encoded delta, applied to the same base, gives the target back. */
  method EncodeThenApply(base: seq<Byte>, target: seq<Byte>) returns (st: DeltaStatus, back: Outcome)
    requires |base| < 0x1_0000_0000 && |target| < U64
    ensures st == OK || st == FAIL
    ensures back == Outcome(OK, target)
  {
    var delta: seq<Byte>;
    st, delta := Encode(base, target, []);
    assert delta[0..] == delta;
    back := Apply(delta, base, |target|);
  }
}
