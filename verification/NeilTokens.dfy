/** Tokens over a source, and the small judgements the edit-script rewriters make about them. */
module NeilTokens {
  import opened Common
  import opened Script

  const NEWLINE: Byte := 10
  const WS_TAG := 22                 // 'W', counted from 'A'
  const MAX_KILL := 64

  /** Token ends and tags over source bytes. */
  datatype Toks = Toks(src: seq<Byte>, ends: seq<nat>, tags: seq<nat>)

  ghost predicate ToksOk(t: Toks) {
    && |t.tags| == |t.ends|
    && (forall i | 0 <= i < |t.ends| :: t.ends[i] <= |t.src|)
    && (forall i, j | 0 <= i < j < |t.ends| :: t.ends[i] < t.ends[j])
    && (t.ends != [] ==> t.ends[0] > 0)
  }

  function Lo(t: Toks, i: nat): nat
    requires i < |t.ends|
  {
    if i > 0 then t.ends[i - 1] else 0
  }

  function Hi(t: Toks, i: nat): nat
    requires i < |t.ends|
  {
    t.ends[i]
  }

  /** A token's bytes; a wrapped range reads as nothing. */
  function TextAt(t: Toks, i: nat): seq<Byte>
    requires i < |t.ends|
  {
    if Lo(t, i) <= Hi(t, i) <= |t.src| then t.src[Lo(t, i)..Hi(t, i)] else []
  }

  ghost function Texts(t: Toks): (r: seq<seq<Byte>>)
    ensures |r| == |t.ends|
  {
    seq(|t.ends|, i requires 0 <= i < |t.ends| => TextAt(t, i))
  }

  predicate TokEq(a: Toks, i: nat, b: Toks, j: nat)
    requires i < |a.ends| && j < |b.ends|
  {
    TextAt(a, i) == TextAt(b, j)
  }

  predicate IsWord(c: Byte) {
    48 <= c <= 57 || 97 <= c <= 122 || 65 <= c <= 90 || c == 95
  }

  predicate IsBlank(c: Byte) {
    c == 32 || c == 9 || c == 10 || c == 13
  }

  /** An identifier: two or more letters, digits and underscores. */
  predicate IsIdent(t: Toks, i: nat) {
    i < |t.ends| && var s := TextAt(t, i); |s| >= 2 && forall k | 0 <= k < |s| :: IsWord(s[k])
  }

  predicate HasNewline(t: Toks, i: nat) {
    i < |t.ends| && NEWLINE in TextAt(t, i)
  }

  /** Tokens the cleanup never gives up. */
  predicate Protected(t: Toks, i: nat) {
    IsIdent(t, i) || HasNewline(t, i)
  }

  predicate IsSpace(t: Toks, i: nat)
    requires i < |t.ends| && i < |t.tags|
  {
    t.tags[i] == WS_TAG || TextAt(t, i) == [] || IsBlank(TextAt(t, i)[0])
  }

  /** Bytes of the tokens [i, hi), optionally without whitespace. */
  function SpanFrom(t: Toks, i: nat, hi: nat, skipWs: bool): nat
    requires i <= hi <= |t.ends| == |t.tags|
    decreases hi - i
  {
    if i == hi then 0
    else (if skipWs && IsSpace(t, i) then 0 else |TextAt(t, i)|) + SpanFrom(t, i + 1, hi, skipWs)
  }

  function SpanBytes(t: Toks, from: nat, count: nat, skipWs: bool): nat
    requires |t.ends| == |t.tags|
  {
    if from + count > |t.ends| then 0 else SpanFrom(t, from, from + count, skipWs)
  }

  // ---------- killing false equalities ----------

  /** Bytes one changed entry covers on its own side. */
  function ChangeBytes(old_: Toks, new_: Toks, d: Edit, oi: nat, ni: nat): nat
    requires |old_.ends| == |old_.tags| && |new_.ends| == |new_.tags|
  {
    if d.op == DEL then SpanBytes(old_, oi, d.len, true) else SpanBytes(new_, ni, d.len, true)
  }

  /** Changed bytes just before entry `k`, back to the previous kept run. */
  function Before(old_: Toks, new_: Toks, e: seq<Edit>, oi: seq<nat>, ni: seq<nat>, k: nat): nat
    requires |old_.ends| == |old_.tags| && |new_.ends| == |new_.tags| && k <= |e| == |oi| == |ni|
  {
    if k == 0 || e[k - 1].op == EQ then 0
    else ChangeBytes(old_, new_, e[k - 1], oi[k - 1], ni[k - 1]) + Before(old_, new_, e, oi, ni, k - 1)
  }

  /** Changed bytes from entry `k` on, up to the next kept run. */
  function After(old_: Toks, new_: Toks, e: seq<Edit>, oi: seq<nat>, ni: seq<nat>, k: nat): nat
    requires |old_.ends| == |old_.tags| && |new_.ends| == |new_.tags| && k <= |e| == |oi| == |ni|
    decreases |e| - k
  {
    if k == |e| || e[k].op == EQ then 0
    else ChangeBytes(old_, new_, e[k], oi[k], ni[k]) + After(old_, new_, e, oi, ni, k + 1)
  }

  function LineStart(src: seq<Byte>, p: nat): nat
    requires p <= |src|
  {
    if p == 0 || src[p - 1] == NEWLINE then p else LineStart(src, p - 1)
  }

  function LineEnd(src: seq<Byte>, p: nat): nat
    requires p <= |src|
    decreases |src| - p
  {
    if p == |src| || src[p] == NEWLINE then p else LineEnd(src, p + 1)
  }

  /** Length of the line or lines the tokens [from, from + count) sit in. */
  function LineSpan(t: Toks, from: nat, count: nat): int
    requires 0 < count && from + count <= |t.ends|
  {
    var lo, hi := Lo(t, from), Hi(t, from + count - 1);
    if lo <= |t.src| && hi <= |t.src| then LineEnd(t.src, hi) - LineStart(t.src, lo) else 0
  }

  /** Some line of the stretch, or its last part, has six non-blank bytes. */
  function CodeLine(src: seq<Byte>, b: nat, hi: nat, run: nat): bool
    requires b <= hi <= |src|
    decreases hi - b
  {
    if b == hi then run >= 6
    else if src[b] == NEWLINE then run >= 6 || CodeLine(src, b + 1, hi, 0)
    else CodeLine(src, b + 1, hi, if IsBlank(src[b]) then run else run + 1)
  }

  predicate HasCodeLine(t: Toks, from: nat, count: nat)
    requires 0 < count && from + count <= |t.ends|
  {
    var lo, hi := Lo(t, from), Hi(t, from + count - 1);
    lo < hi <= |t.src| && NEWLINE in t.src[lo..hi] && CodeLine(t.src, lo, hi, 0)
  }

  /** The verdict on the kept run `e[k]`: is it a false equality? */
  predicate Kills(old_: Toks, new_: Toks, e: seq<Edit>, oi: seq<nat>, ni: seq<nat>, k: nat)
    requires |old_.ends| == |old_.tags| && |new_.ends| == |new_.tags|
    requires k < |e| == |oi| == |ni| && e[k].len > 0
  {
    var from, len := ni[k], e[k].len;
    if from + len > |new_.ends| then false
    else
      var kept, raw := SpanBytes(new_, from, len, true), SpanBytes(new_, from, len, false);
      var before, after := Before(old_, new_, e, oi, ni, k), After(old_, new_, e, oi, ni, k + 1);
      if before == 0 || after == 0 then false
      else if exists t | from <= t < from + len :: IsIdent(new_, t) then false
      else if exists t | from <= t < from + len :: HasNewline(new_, t) then false
      else if LineSpan(new_, from, len) >= 4 && raw * 4 < LineSpan(new_, from, len) then true
      else if kept == 0 then raw < before + after
      else if kept >= MAX_KILL then false
      else if kept >= 6 && HasCodeLine(new_, from, len) then false
      else if kept < 16 then kept < before + after
      else kept < before && kept < after
  }

  // ---------- where a boundary may slide ----------

  /** How well a boundary before token `i` aligns: edges best, then line and word breaks. */
  function BoundaryScore(t: Toks, i: int): (sc: nat)
    ensures sc <= 6
  {
    if i <= 0 || i >= |t.ends| then 6
    else
      var a, b := TextAt(t, i - 1), TextAt(t, i);
      if a == [] || b == [] then 6
      else
        var c1, c2 := a[|a| - 1], b[0];
        var na1, na2 := !IsWord(c1), !IsWord(c2);
        var ws1, ws2 := na1 && IsBlank(c1), na2 && IsBlank(c2);
        var lb1, lb2 := ws1 && (c1 == 10 || c1 == 13), ws2 && (c2 == 10 || c2 == 13);
        if lb1 && lb2 then 5
        else if lb1 || lb2 then 4
        else if na1 && !ws1 && ws2 then 3
        else if ws1 || ws2 then 2
        else if na1 || na2 then 1
        else 0
  }

  predicate IsBreak(c: Byte) {
    c == 10 || c == 13
  }

  /** What each score says of the two bytes a boundary comes between. */
  lemma BoundaryIs(t: Toks, i: nat)
    requires 0 < i < |t.ends| && TextAt(t, i - 1) != [] && TextAt(t, i) != []
    ensures var x, y := TextAt(t, i - 1)[|TextAt(t, i - 1)| - 1], TextAt(t, i)[0];
      var sc := BoundaryScore(t, i);
      && (sc == 5 <==> IsBreak(x) && IsBreak(y))
      && (sc == 4 <==> IsBreak(x) != IsBreak(y))
      && (sc == 3 <==> !IsBreak(x) && !IsBreak(y) && !IsWord(x) && !IsBlank(x) && IsBlank(y))
      && (sc == 2 <==> !IsBreak(x) && !IsBreak(y) && (IsBlank(x) || (IsWord(x) && IsBlank(y))))
      && (sc == 1 <==> !IsBlank(x) && !IsBlank(y) && !(IsWord(x) && IsWord(y)))
      && (sc == 0 <==> IsWord(x) && IsWord(y))
  {
    hide TextAt;
  }

  predicate BackEq(a: Toks, b: Toks, ai: nat, bi: nat, k: nat) {
    k < ai <= |a.ends| && k < bi <= |b.ends| && TokEq(a, ai - 1 - k, b, bi - 1 - k)
  }

  predicate ForthEq(a: Toks, b: Toks, ai: nat, bi: nat, k: nat) {
    ai + k < |a.ends| && bi + k < |b.ends| && TokEq(a, ai + k, b, bi + k)
  }

  predicate BackPlain(a: Toks, end: nat, k: nat) {
    k < end && !IsIdent(a, end - 1 - k)
  }

  predicate ForthPlain(a: Toks, start: nat, k: nat) {
    !IsIdent(a, start + k)
  }

  /** Equal token pairs walking back from the two ends of a change, from the `j`-th on, at most `n`. */
  function MaxLeft(a: Toks, b: Toks, ai: nat, bi: nat, n: nat, j: nat): (r: nat)
    requires j <= n
    ensures j <= r <= n
    decreases n - j
  {
    if j < n && BackEq(a, b, ai, bi, j) then MaxLeft(a, b, ai, bi, n, j + 1) else j
  }

  /** Equal token pairs walking on from the two starts of a change. */
  function MaxRight(a: Toks, b: Toks, ai: nat, bi: nat, n: nat, j: nat): (r: nat)
    requires j <= n
    ensures j <= r <= n
    decreases n - j
  {
    if j < n && ForthEq(a, b, ai, bi, j) then MaxRight(a, b, ai, bi, n, j + 1) else j
  }

  /** Stop before giving up an identifier at the tail of a kept run ending at `end`. */
  function CapLeft(a: Toks, end: nat, n: nat, j: nat): (r: nat)
    requires j <= n
    ensures j <= r <= n
    decreases n - j
  {
    if j < n && BackPlain(a, end, j) then CapLeft(a, end, n, j + 1) else j
  }

  /** Stop before giving up an identifier at the head of a kept run starting at `start`. */
  function CapRight(a: Toks, start: nat, n: nat, j: nat): (r: nat)
    requires j <= n
    ensures j <= r <= n
    decreases n - j
  {
    if j < n && ForthPlain(a, start, j) then CapRight(a, start, n, j + 1) else j
  }

  function ShiftScore(a: Toks, b: Toks, oi: int, ni: int, del: nat, ins: nat, d: int): nat {
    (if ins > 0 then BoundaryScore(b, ni + d) + BoundaryScore(b, ni + ins + d) else 0)
    + (if del > 0 then BoundaryScore(a, oi + d) + BoundaryScore(a, oi + del + d) else 0)
  }

  /** The best shift in [d, hi], the later of equals; `bestD` scored `bestSc` so far. */
  function BestFrom(a: Toks, b: Toks, oi: int, ni: int, del: nat, ins: nat, d: int, hi: int, bestD: int,
          bestSc: nat): (r: int)
    ensures r == bestD || d <= r <= hi
    decreases hi - d + 1
  {
    if d > hi then bestD
    else
      var sc := ShiftScore(a, b, oi, ni, del, ins, d);
      if sc >= bestSc then BestFrom(a, b, oi, ni, del, ins, d + 1, hi, d, sc)
      else BestFrom(a, b, oi, ni, del, ins, d + 1, hi, bestD, bestSc)
  }

  /** A change between two kept runs: where the first run starts, its length, the change, the second run. */
  datatype Region = Region(oi: nat, ni: nat, n1: nat, del: nat, ins: nat, n2: nat)

  function LeftRoom(a: Toks, b: Toks, r: Region): (n: nat)
    ensures n <= r.n1
  {
    CapLeft(a, r.oi + r.n1, MaxLeft(a, b, r.oi + r.n1 + r.del, r.ni + r.n1 + r.ins, r.n1, 0), 0)
  }

  function RightRoom(a: Toks, b: Toks, r: Region): (n: nat)
    ensures n <= r.n2
  {
    CapRight(a, r.oi + r.n1 + r.del, MaxRight(a, b, r.oi + r.n1, r.ni + r.n1, r.n2, 0), 0)
  }

  /** How far the change slides: negative to the left. */
  function BestShift(a: Toks, b: Toks, r: Region): (d: int)
    ensures -(r.n1 as int) <= d <= r.n2
  {
    if r.n1 + r.n2 == 0 || r.del + r.ins == 0 then 0
    else
      var left: int, right := LeftRoom(a, b, r), RightRoom(a, b, r);
      if left + right == 0 then 0
      else BestFrom(a, b, r.oi + r.n1, r.ni + r.n1, r.del, r.ins, -left, right, 0, 0)
  }

  ghost predicate AllBackEq(a: Toks, b: Toks, ai: nat, bi: nat, lo: nat, hi: nat) {
    forall k: nat {:trigger BackEq(a, b, ai, bi, k)} | lo <= k < hi :: BackEq(a, b, ai, bi, k)
  }

  ghost predicate AllForthEq(a: Toks, b: Toks, ai: nat, bi: nat, lo: nat, hi: nat) {
    forall k: nat {:trigger ForthEq(a, b, ai, bi, k)} | lo <= k < hi :: ForthEq(a, b, ai, bi, k)
  }

  ghost predicate AllBackPlain(a: Toks, end: nat, lo: nat, hi: nat) {
    forall k: nat {:trigger BackPlain(a, end, k)} | lo <= k < hi :: BackPlain(a, end, k)
  }

  ghost predicate AllForthPlain(a: Toks, start: nat, lo: nat, hi: nat) {
    forall k: nat {:trigger ForthPlain(a, start, k)} | lo <= k < hi :: ForthPlain(a, start, k)
  }

  lemma {:induction false} MaxLeftEq(a: Toks, b: Toks, ai: nat, bi: nat, n: nat, j: nat)
    requires j <= n
    ensures AllBackEq(a, b, ai, bi, j, MaxLeft(a, b, ai, bi, n, j))
    ensures MaxLeft(a, b, ai, bi, n, j) < n ==> !BackEq(a, b, ai, bi, MaxLeft(a, b, ai, bi, n, j))
    decreases n - j
  {
    hide BackEq;
    if j < n {
      MaxLeftEq(a, b, ai, bi, n, j + 1);
    }
  }

  lemma {:induction false} MaxRightEq(a: Toks, b: Toks, ai: nat, bi: nat, n: nat, j: nat)
    requires j <= n
    ensures AllForthEq(a, b, ai, bi, j, MaxRight(a, b, ai, bi, n, j))
    ensures MaxRight(a, b, ai, bi, n, j) < n ==> !ForthEq(a, b, ai, bi, MaxRight(a, b, ai, bi, n, j))
    decreases n - j
  {
    hide ForthEq;
    if j < n {
      MaxRightEq(a, b, ai, bi, n, j + 1);
    }
  }

  lemma {:induction false} CapLeftPlain(a: Toks, end: nat, n: nat, j: nat)
    requires j <= n
    ensures AllBackPlain(a, end, j, CapLeft(a, end, n, j))
    ensures CapLeft(a, end, n, j) < n ==> !BackPlain(a, end, CapLeft(a, end, n, j))
    decreases n - j
  {
    hide BackPlain;
    if j < n {
      CapLeftPlain(a, end, n, j + 1);
    }
  }

  lemma {:induction false} CapRightPlain(a: Toks, start: nat, n: nat, j: nat)
    requires j <= n
    ensures AllForthPlain(a, start, j, CapRight(a, start, n, j))
    ensures CapRight(a, start, n, j) < n ==> !ForthPlain(a, start, CapRight(a, start, n, j))
    decreases n - j
  {
    hide ForthPlain;
    if j < n {
      CapRightPlain(a, start, n, j + 1);
    }
  }

  /** Every token a slide moves into a kept run equals its partner; every one it moves out is no identifier. */
  ghost predicate SafeShift(a: Toks, b: Toks, r: Region, d: int) {
    var end1, start2 := r.oi + r.n1, r.oi + r.n1 + r.del;
    && -(r.n1 as int) <= d <= r.n2
    && (d > 0 ==> AllForthEq(a, b, end1, r.ni + r.n1, 0, d) && AllForthPlain(a, start2, 0, d))
    && (d < 0 ==> AllBackEq(a, b, start2, r.ni + r.n1 + r.ins, 0, -d) && AllBackPlain(a, end1, 0, -d))
  }

  lemma BestShiftSafe(a: Toks, b: Toks, r: Region)
    ensures SafeShift(a, b, r, BestShift(a, b, r))
  {
    hide BackEq, ForthEq, BackPlain, ForthPlain, MaxLeft, MaxRight, CapLeft, CapRight, BestFrom;
    var end1, start2 := r.oi + r.n1, r.oi + r.n1 + r.del;
    var ml := MaxLeft(a, b, start2, r.ni + r.n1 + r.ins, r.n1, 0);
    var mr := MaxRight(a, b, end1, r.ni + r.n1, r.n2, 0);
    MaxLeftEq(a, b, start2, r.ni + r.n1 + r.ins, r.n1, 0);
    MaxRightEq(a, b, end1, r.ni + r.n1, r.n2, 0);
    CapLeftPlain(a, end1, ml, 0);
    CapRightPlain(a, start2, mr, 0);
  }

  // ---------- the chosen slide is the best one ----------

  ghost predicate MayMoveLeft(a: Toks, b: Toks, r: Region, k: nat) {
    k < r.n1 && BackEq(a, b, r.oi + r.n1 + r.del, r.ni + r.n1 + r.ins, k) && BackPlain(a, r.oi + r.n1, k)
  }

  ghost predicate MayMoveRight(a: Toks, b: Toks, r: Region, k: nat) {
    k < r.n2 && ForthEq(a, b, r.oi + r.n1, r.ni + r.n1, k) && ForthPlain(a, r.oi + r.n1 + r.del, k)
  }

  /** The room on each side is all the tokens in a row that may move. */
  lemma RoomIsAll(a: Toks, b: Toks, r: Region)
    ensures forall k: nat | k < LeftRoom(a, b, r) :: MayMoveLeft(a, b, r, k)
    ensures forall k: nat | k < RightRoom(a, b, r) :: MayMoveRight(a, b, r, k)
    ensures !MayMoveLeft(a, b, r, LeftRoom(a, b, r)) && !MayMoveRight(a, b, r, RightRoom(a, b, r))
  {
    hide BackEq, ForthEq, BackPlain, ForthPlain, MaxLeft, MaxRight, CapLeft, CapRight;
    var end1, start2 := r.oi + r.n1, r.oi + r.n1 + r.del;
    var ml := MaxLeft(a, b, start2, r.ni + r.n1 + r.ins, r.n1, 0);
    var mr := MaxRight(a, b, end1, r.ni + r.n1, r.n2, 0);
    MaxLeftEq(a, b, start2, r.ni + r.n1 + r.ins, r.n1, 0);
    MaxRightEq(a, b, end1, r.ni + r.n1, r.n2, 0);
    CapLeftPlain(a, end1, ml, 0);
    CapRightPlain(a, start2, mr, 0);
  }

  ghost predicate Beats(a: Toks, b: Toks, r: Region, d: int, x: int) {
    var s := ShiftScore(a, b, r.oi + r.n1, r.ni + r.n1, r.del, r.ins, d);
    var t := ShiftScore(a, b, r.oi + r.n1, r.ni + r.n1, r.del, r.ins, x);
    s > t || (s == t && d >= x)
  }

  lemma {:induction false} BestFromBeats(a: Toks, b: Toks, r: Region, d: int, hi: int, bestD: int, bestSc: nat)
    requires bestSc == ShiftScore(a, b, r.oi + r.n1, r.ni + r.n1, r.del, r.ins, bestD) && bestD < d
    ensures var x := BestFrom(a, b, r.oi + r.n1, r.ni + r.n1, r.del, r.ins, d, hi, bestD, bestSc);
      Beats(a, b, r, x, bestD) && forall y | d <= y <= hi :: Beats(a, b, r, x, y)
    decreases hi - d + 1
  {
    hide ShiftScore;
    if d <= hi {
      var sc := ShiftScore(a, b, r.oi + r.n1, r.ni + r.n1, r.del, r.ins, d);
      if sc >= bestSc {
        BestFromBeats(a, b, r, d + 1, hi, d, sc);
      } else {
        BestFromBeats(a, b, r, d + 1, hi, bestD, bestSc);
      }
    }
  }

  /** Of all the places it may slide to, a change takes the best, and the last of the best. */
  lemma BestShiftBeats(a: Toks, b: Toks, r: Region)
    requires r.del + r.ins > 0
    ensures var d := BestShift(a, b, r);
      -(LeftRoom(a, b, r) as int) <= d <= RightRoom(a, b, r)
      && forall y | -(LeftRoom(a, b, r) as int) <= y <= RightRoom(a, b, r) :: Beats(a, b, r, d, y)
  {
    hide ShiftScore, LeftRoom, RightRoom;
    var left: int, right := LeftRoom(a, b, r), RightRoom(a, b, r);
    if left + right > 0 {
      BestFromBeats(a, b, r, -left + 1, right, -left, ShiftScore(a, b, r.oi + r.n1, r.ni + r.n1, r.del, r.ins, -left));
    }
  }
}
