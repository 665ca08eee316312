/** Bracket matching over a token stream: counting one kind of bracket agrees with a stack of all of them. */
module Brackets {
  import opened Common

  /** A token: its tag, and where it ends in the source. */
  datatype Tok = Tok(tag: char, end: nat)

  const STACK_MAX := 256

  function Lo(toks: seq<Tok>, i: nat): nat
    requires i < |toks|
  {
    if i > 0 then toks[i - 1].end else 0
  }

  /** A punctuation token has a first byte. */
  ghost predicate Readable(toks: seq<Tok>, data: seq<Byte>) {
    forall i | 0 <= i < |toks| && toks[i].tag == 'P' :: Lo(toks, i) < |data|
  }

  predicate IsOpen(c: nat) {
    c == 123 || c == 40 || c == 91
  }

  predicate IsClose(c: nat) {
    c == 125 || c == 41 || c == 93
  }

  function Mate(c: nat): nat {
    match c
    case 123 => 125
    case 125 => 123
    case 40 => 41
    case 41 => 40
    case 91 => 93
    case 93 => 91
    case _ => 0
  }

  /** The first byte of a punctuation token, 0 for any other. */
  function At(toks: seq<Tok>, data: seq<Byte>, i: nat): nat
    requires i < |toks|
  {
    if toks[i].tag == 'P' && Lo(toks, i) < |data| then data[Lo(toks, i)] else 0
  }

  function Bytes(toks: seq<Tok>, data: seq<Byte>): (cs: seq<nat>)
    ensures |cs| == |toks| && forall i | 0 <= i < |cs| :: cs[i] == At(toks, data, i)
  {
    seq(|toks|, (i: nat) requires i < |toks| => At(toks, data, i))
  }

  // ---------- the stack ----------

  /** The open brackets after `n` tokens, outermost first; None once a close bracket did not fit. */
  function Stack(cs: seq<nat>, n: nat): (r: Option<seq<nat>>)
    requires n <= |cs|
    ensures r.Some? ==> forall p | 0 <= p < |r.value| :: r.value[p] < n && IsOpen(cs[r.value[p]])
  {
    if n == 0 then Some([])
    else
      var s := Stack(cs, n - 1);
      var c := cs[n - 1];
      if s.None? then None
      else if IsOpen(c) then Some(s.value + [n - 1])
      else if IsClose(c) then
        if s.value == [] || cs[s.value[|s.value| - 1]] != Mate(c) then None else Some(s.value[..|s.value| - 1])
      else s
  }

  /** Every bracket fits, every one is closed. */
  ghost predicate Balanced(cs: seq<nat>) {
    Stack(cs, |cs|) == Some([])
  }

  lemma {:induction false} StackHolds(cs: seq<nat>, m: nat, n: nat)
    requires m <= n <= |cs| && Stack(cs, n).Some?
    ensures Stack(cs, m).Some?
    decreases n
  {
    if m < n {
      StackHolds(cs, m, n - 1);
    }
  }

  /** Whatever is on the stack at `n` has been there, with everything under it, ever since it was opened. */
  ghost predicate SinceOpened(cs: seq<nat>, n: nat, p: nat, u: nat) {
    && n <= |cs| && u <= n && Stack(cs, n).Some? && p < |Stack(cs, n).value| && Stack(cs, u).Some?
    && var s := Stack(cs, n).value;
    (u == s[p] ==> Stack(cs, u).value == s[..p]) && (u > s[p] ==> s[..p + 1] <= Stack(cs, u).value)
  }

  lemma {:induction false} Since(cs: seq<nat>, n: nat, p: nat, u: nat)
    requires n <= |cs| && Stack(cs, n).Some? && p < |Stack(cs, n).value| && Stack(cs, n).value[p] <= u <= n
    ensures SinceOpened(cs, n, p, u)
    decreases n
  {
    StackHolds(cs, u, n);
    var s := Stack(cs, n).value;
    if u < n {
      StackHolds(cs, n - 1, n);
      var t := Stack(cs, n - 1).value;
      if p < |t| && t[p] == s[p] {
        Since(cs, n - 1, p, u);
        assert t[..p + 1] == s[..p + 1];
        assert t[..p] == s[..p];
      } else {
        assert s == t + [n - 1];
      }
    } else {
      assert s[..p + 1] <= s;
    }
  }

  /** `i` opens what `j` closes: the stack is back to what it was, and held `i` all the while. */
  ghost predicate Pair(cs: seq<nat>, i: nat, j: nat) {
    && i < j < |cs| && IsOpen(cs[i]) && cs[j] == Mate(cs[i])
    && Stack(cs, i).Some? && Stack(cs, j + 1) == Stack(cs, i)
    && forall t | i < t <= j :: Held(cs, i, t)
  }

  ghost predicate Held(cs: seq<nat>, i: nat, t: nat) {
    i <= t <= |cs| && Stack(cs, t).Some? && Stack(cs, i).Some? && Stack(cs, i).value + [i] <= Stack(cs, t).value
  }

  /** A close bracket's partner is what it pops. */
  lemma Popped(cs: seq<nat>, j: nat)
    requires j < |cs| && IsClose(cs[j]) && Stack(cs, j + 1).Some?
    ensures Stack(cs, j).Some? && Stack(cs, j).value != []
    ensures Pair(cs, Stack(cs, j).value[|Stack(cs, j).value| - 1], j)
  {
    var s := Stack(cs, j).value;
    var p := |s| - 1;
    var i := s[p];
    Since(cs, j, p, i);
    forall t | i < t <= j
      ensures Held(cs, i, t)
    {
      Since(cs, j, p, t);
      assert s[..p + 1] == s[..p] + [i];
    }
  }

  /** An open bracket that is not on the stack at `n` was closed before. */
  lemma {:induction false} ClosedBy(cs: seq<nat>, i: nat, n: nat) returns (j: nat)
    requires i < n <= |cs| && IsOpen(cs[i]) && Stack(cs, n).Some? && i !in Stack(cs, n).value
    ensures j < n && Pair(cs, i, j)
    decreases n
  {
    hide Pair, SinceOpened;
    StackHolds(cs, n - 1, n);
    StackHolds(cs, i, n);
    var t := Stack(cs, n - 1).value;
    if i < n - 1 && i !in t {
      j := ClosedBy(cs, i, n - 1);
    } else {
      Opens(cs, i, n);
      Popped(cs, n - 1);
      j := n - 1;
    }
  }

  /** If the step to `n` takes `i` off, it is a close bracket on top of `i`. */
  lemma Opens(cs: seq<nat>, i: nat, n: nat)
    requires i < n <= |cs| && IsOpen(cs[i]) && Stack(cs, n).Some? && Stack(cs, n - 1).Some? && i !in Stack(cs, n).value
    requires i == n - 1 || i in Stack(cs, n - 1).value
    ensures IsClose(cs[n - 1]) && Stack(cs, n - 1).value != []
    ensures Stack(cs, n - 1).value[|Stack(cs, n - 1).value| - 1] == i
  {
    var t := Stack(cs, n - 1).value;
    StillIn(t, n - 1, i);
  }

  lemma StillIn(t: seq<nat>, x: nat, i: nat)
    ensures x in t + [x] && (i in t ==> i in t + [x])
    ensures i in t && t[|t| - 1] != i ==> i in t[..|t| - 1]
  {
    if i in t {
      var p :| 0 <= p < |t| && t[p] == i;
      assert (t + [x])[p] == i;
      assert p < |t| - 1 ==> t[..|t| - 1][p] == i;
    }
  }

  /** In a balanced stream every open bracket has a partner, and so has every close bracket. */
  lemma Partnered(cs: seq<nat>, at: nat) returns (i: nat, j: nat)
    requires Balanced(cs) && at < |cs| && (IsOpen(cs[at]) || IsClose(cs[at]))
    ensures Pair(cs, i, j) && at == if IsOpen(cs[at]) then i else j
  {
    hide Pair;
    if IsOpen(cs[at]) {
      i := at;
      j := ClosedBy(cs, at, |cs|);
    } else {
      StackHolds(cs, at + 1, |cs|);
      Popped(cs, at);
      i, j := Stack(cs, at).value[|Stack(cs, at).value| - 1], at;
    }
  }

  lemma PairFacts(cs: seq<nat>, i: nat, j: nat)
    requires Pair(cs, i, j)
    ensures i < j < |cs| && Stack(cs, i).Some? && Stack(cs, j + 1) == Stack(cs, i)
  {
  }

  /** Inside a pair the stack is higher than before it. */
  lemma Higher(cs: seq<nat>, i: nat, j: nat, t: nat)
    requires Pair(cs, i, j) && i < t <= j
    ensures Stack(cs, t).Some? && |Stack(cs, t).value| > |Stack(cs, i).value|
  {
    hide Stack;
    assert Held(cs, i, t);
  }

  lemma PairOnce(cs: seq<nat>, i: nat, j: nat, i': nat, j': nat)
    requires Pair(cs, i, j) && Pair(cs, i', j') && (i == i' || j == j')
    ensures i == i' && j == j'
  {
    hide Pair, Stack;
    PairFacts(cs, i, j);
    PairFacts(cs, i', j');
    if j < j' {
      Higher(cs, i', j', j + 1);
    } else if j' < j {
      Higher(cs, i, j, j' + 1);
    } else if i < i' {
      Higher(cs, i, j, i');
    } else if i' < i {
      Higher(cs, i', j', i);
    }
  }

  // ---------- counting one kind ----------

  /** Open brackets `c` less their mates, among the tokens of [i, t). */
  function Excess(cs: seq<nat>, c: nat, i: nat, t: nat): int
    requires i <= t <= |cs|
  {
    if i == t then 0 else Excess(cs, c, i, t - 1) + if cs[t - 1] == c then 1 else if cs[t - 1] == Mate(c) then -1 else 0
  }

  lemma {:induction false} ExcessSplit(cs: seq<nat>, c: nat, i: nat, m: nat, t: nat)
    requires i <= m <= t <= |cs|
    ensures Excess(cs, c, i, t) == Excess(cs, c, i, m) + Excess(cs, c, m, t)
    decreases t
  {
    if m < t {
      ExcessSplit(cs, c, i, m, t - 1);
    }
  }

  /** How many of a stack are of one kind. */
  function OfKind(cs: seq<nat>, c: nat, s: seq<nat>): nat
    requires forall p | 0 <= p < |s| :: s[p] < |cs|
  {
    if s == [] then 0 else OfKind(cs, c, s[..|s| - 1]) + if cs[s[|s| - 1]] == c then 1 else 0
  }

  lemma {:induction false} OfKindMore(cs: seq<nat>, c: nat, a: seq<nat>, b: seq<nat>)
    requires a <= b && forall p | 0 <= p < |b| :: b[p] < |cs|
    ensures OfKind(cs, c, a) <= OfKind(cs, c, b)
    decreases |b|
  {
    if |a| < |b| {
      OfKindMore(cs, c, a, b[..|b| - 1]);
    } else {
      assert a == b;
    }
  }

  /** One more token changes the count of a kind as it changes the stack. */
  lemma KindStep(cs: seq<nat>, c: nat, t: nat)
    requires t < |cs| && IsOpen(c) && Stack(cs, t).Some? && Stack(cs, t + 1).Some?
    ensures OfKind(cs, c, Stack(cs, t + 1).value)
         == OfKind(cs, c, Stack(cs, t).value) + if cs[t] == c then 1 else if cs[t] == Mate(c) then -1 else 0
  {
    var s := Stack(cs, t).value;
    assert (s + [t])[..|s|] == s;
    MateBack(cs[t], c);
  }

  /** Counting one kind tells how many of that kind the stack gained. */
  lemma {:induction false} ExcessIs(cs: seq<nat>, c: nat, i: nat, t: nat)
    requires i <= t <= |cs| && IsOpen(c) && Stack(cs, t).Some?
    ensures Stack(cs, i).Some?
    ensures Excess(cs, c, i, t) == OfKind(cs, c, Stack(cs, t).value) - OfKind(cs, c, Stack(cs, i).value)
    decreases t
  {
    hide OfKind, Stack, Mate, IsOpen, IsClose;
    StackHolds(cs, i, t);
    if i < t {
      StackHolds(cs, t - 1, t);
      ExcessIs(cs, c, i, t - 1);
      KindStep(cs, c, t - 1);
    }
  }

  lemma MateBack(a: nat, c: nat)
    requires IsOpen(c)
    ensures IsClose(a) ==> IsOpen(Mate(a)) && Mate(Mate(a)) == a
    ensures Mate(c) == a <==> IsClose(a) && Mate(a) == c
    ensures IsClose(Mate(c)) && Mate(Mate(c)) == c
    ensures !(IsOpen(a) && IsClose(a)) && Mate(0) == 0
  {
  }

  /** Between a pair the count of its kind stays above zero, and is zero again right behind it. */
  lemma PairCount(cs: seq<nat>, i: nat, j: nat, t: nat)
    requires Pair(cs, i, j) && i <= t <= j + 1
    ensures Excess(cs, cs[i], i, t) >= 0
    ensures Excess(cs, cs[i], i, t) == 0 <==> t == i || t == j + 1
    ensures Excess(cs, cs[i], t, j + 1) <= 0
    ensures Excess(cs, cs[i], t, j + 1) == 0 <==> t == i || t == j + 1
  {
    hide Stack, Excess, OfKind;
    var c := cs[i];
    if i < t <= j {
      assert Held(cs, i, t);
      StackIn(cs, t);
      ExcessIs(cs, c, i, t);
      OneMore(cs, i);
      OfKindMore(cs, c, Stack(cs, i).value + [i], Stack(cs, t).value);
    }
    ExcessIs(cs, c, i, j + 1);
    ExcessSplit(cs, c, i, t, j + 1);
    NoExcess(cs, c, t);
  }

  lemma NoExcess(cs: seq<nat>, c: nat, t: nat)
    requires t <= |cs|
    ensures Excess(cs, c, t, t) == 0
  {
  }

  lemma StackIn(cs: seq<nat>, t: nat)
    requires t <= |cs| && Stack(cs, t).Some?
    ensures forall p | 0 <= p < |Stack(cs, t).value| :: Stack(cs, t).value[p] < |cs|
  {
  }

  lemma OneMore(cs: seq<nat>, i: nat)
    requires i < |cs| && Stack(cs, i).Some?
    ensures forall p | 0 <= p < |Stack(cs, i).value + [i]| :: (Stack(cs, i).value + [i])[p] < |cs|
    ensures OfKind(cs, cs[i], Stack(cs, i).value + [i]) == OfKind(cs, cs[i], Stack(cs, i).value) + 1
  {
    var s := Stack(cs, i).value;
    assert (s + [i])[..|s|] == s;
  }

  // ---------- matching ----------

  ghost predicate Above(cs: seq<nat>, c: nat, i: nat, t: nat) {
    i <= t <= |cs| && Excess(cs, c, i, t) > 0
  }

  ghost predicate Under(cs: seq<nat>, c: nat, t: nat, j: nat) {
    t <= j <= |cs| && Excess(cs, c, t, j) < 0
  }

  /** Forward from an open bracket: the first place where its kind is back to zero, or -1. */
  ghost predicate Forward(cs: seq<nat>, at: nat, r: int)
    requires at < |cs| && -1 <= r < |cs|
  {
    && (r >= 0 ==> at < r && Excess(cs, cs[at], at, r + 1) == 0)
    && forall t | at < t <= (if r < 0 then |cs| else r) :: Above(cs, cs[at], at, t)
  }

  /** Backward from a close bracket, the same. */
  ghost predicate Backward(cs: seq<nat>, at: nat, r: int)
    requires at < |cs| && -1 <= r < |cs|
  {
    var c, end := Mate(cs[at]), at + 1;
    && (r >= 0 ==> r < at && Excess(cs, c, r, end) == 0)
    && forall t | (if r < 0 then 0 else r + 1) <= t < end :: Under(cs, c, t, end)
  }

  /** What a match reports: forward from an open bracket, backward from a close one, -1 anywhere else. */
  ghost predicate Matches(cs: seq<nat>, at: nat, r: int) {
    && -1 <= r < |cs| && at < |cs|
    && (IsOpen(cs[at]) ==> Forward(cs, at, r))
    && (IsClose(cs[at]) ==> Backward(cs, at, r))
    && (!IsOpen(cs[at]) && !IsClose(cs[at]) ==> r == -1)
  }

  method Match(toks: seq<Tok>, data: seq<Byte>, at: nat) returns (r: int)
    requires Readable(toks, data)
    ensures at >= |toks| ==> r == -1
    ensures at < |toks| ==> Matches(Bytes(toks, data), at, r)
  {
    if at >= |toks| {
      return -1;
    }
    ghost var cs := Bytes(toks, data);
    if toks[at].tag != 'P' {
      return -1;
    }
    var ch := data[Lo(toks, at)];
    var mate := Mate(ch);
    if mate == 0 {
      return -1;
    }
    MateBack(ch, if IsOpen(ch) then ch else mate);
    var depth := 0;
    if IsOpen(ch) {
      var i := at;
      while i < |toks|
        invariant at <= i <= |toks| && depth == Excess(cs, ch, at, i) && (i > at ==> depth > 0)
        invariant forall t | at < t <= i :: Above(cs, ch, at, t)
      {
        if toks[i].tag == 'P' {
          var c := data[Lo(toks, i)];
          if c == ch {
            depth := depth + 1;
          } else if c == mate {
            depth := depth - 1;
            if depth == 0 {
              return i;
            }
          }
        }
        i := i + 1;
        assert Above(cs, ch, at, i);
      }
    } else {
      var i := at + 1;
      ghost var end := at + 1;
      while i > 0
        invariant 0 <= i <= end && depth == -Excess(cs, mate, i, end) && (i <= at ==> depth > 0)
        invariant forall t | i <= t < end :: Under(cs, mate, t, end)
      {
        i := i - 1;
        ExcessSplit(cs, mate, i, i + 1, end);
        ExcessOne(cs, mate, i);
        if toks[i].tag == 'P' {
          var c := data[Lo(toks, i)];
          if c == ch {
            depth := depth + 1;
          } else if c == mate {
            depth := depth - 1;
            if depth == 0 {
              return i;
            }
          }
        }
        assert Under(cs, mate, i, end);
      }
    }
    r := -1;
  }

  lemma ExcessOne(cs: seq<nat>, c: nat, i: nat)
    requires i < |cs|
    ensures Excess(cs, c, i, i + 1) == if cs[i] == c then 1 else if cs[i] == Mate(c) then -1 else 0
  {
    assert Excess(cs, c, i, i) == 0;
  }

  /** Counting one kind finds the stack's own partner, and only that. */
  lemma MatchIsPartner(cs: seq<nat>, at: nat, r: int)
    requires Balanced(cs) && Matches(cs, at, r)
    ensures IsOpen(cs[at]) ==> r >= 0 && Pair(cs, at, r)
    ensures IsClose(cs[at]) ==> r >= 0 && Pair(cs, r, at)
    ensures r >= 0 <==> IsOpen(cs[at]) || IsClose(cs[at])
  {
    hide Stack, Excess, Held, Balanced;
    if IsOpen(cs[at]) || IsClose(cs[at]) {
      var i, j := Partnered(cs, at);
      MateBack(cs[j], cs[i]);
      if IsOpen(cs[at]) {
        ForwardStops(cs, i, j, r);
      } else {
        BackwardStops(cs, i, j, r);
      }
    }
  }

  lemma ForwardStops(cs: seq<nat>, i: nat, j: nat, r: int)
    requires Pair(cs, i, j) && -1 <= r < |cs| && Forward(cs, i, r)
    ensures r == j
  {
    hide Stack, Excess, Pair;
    PairFacts(cs, i, j);
    if i < r < j {
      PairCount(cs, i, j, r + 1);
    } else if r != j {
      PairCount(cs, i, j, j + 1);
      AboveAt(cs, i, r, j + 1);
    }
  }

  lemma AboveAt(cs: seq<nat>, i: nat, r: int, t: nat)
    requires i < |cs| && -1 <= r < |cs| && Forward(cs, i, r) && i < t <= if r < 0 then |cs| else r
    ensures Excess(cs, cs[i], i, t) > 0
  {
    hide Excess;
    assert Above(cs, cs[i], i, t);
  }

  lemma BackwardStops(cs: seq<nat>, i: nat, j: nat, r: int)
    requires Pair(cs, i, j) && -1 <= r < |cs| && Backward(cs, j, r)
    ensures r == i
  {
    hide Stack, Excess, Pair;
    PairFacts(cs, i, j);
    PairKinds(cs, i, j);
    if i < r < j {
      PairCount(cs, i, j, r);
    } else if r != i {
      PairCount(cs, i, j, i);
      UnderAt(cs, j, r, i);
    }
  }

  lemma PairKinds(cs: seq<nat>, i: nat, j: nat)
    requires Pair(cs, i, j)
    ensures Mate(cs[j]) == cs[i]
  {
    MateBack(cs[j], cs[i]);
  }

  lemma UnderAt(cs: seq<nat>, j: nat, r: int, t: nat)
    requires j < |cs| && -1 <= r < |cs| && Backward(cs, j, r) && (if r < 0 then 0 else r + 1) <= t <= j
    ensures Excess(cs, Mate(cs[j]), t, j + 1) < 0
  {
    hide Excess;
    assert Under(cs, Mate(cs[j]), t, j + 1);
  }

  /** Matching a bracket's match comes back to it. */
  lemma MatchBack(cs: seq<nat>, at: nat, r: int, back: int)
    requires Balanced(cs) && Matches(cs, at, r) && r >= 0 && Matches(cs, r, back)
    ensures back == at
  {
    hide Matches, Balanced, Stack;
    MatchIsPartner(cs, at, r);
    MatchIsPartner(cs, r, back);
    PairEnds(cs, at, r);
    PairEnds(cs, r, at);
    if IsOpen(cs[at]) {
      PairOnce(cs, at, r, back, r);
    } else {
      PairOnce(cs, r, at, r, back);
    }
  }

  lemma PairEnds(cs: seq<nat>, i: nat, j: nat)
    ensures Pair(cs, i, j) ==> j < |cs| && IsOpen(cs[i]) && IsClose(cs[j]) && !IsOpen(cs[j]) && !IsClose(cs[i])
  {
    hide Stack, Held;
    if Pair(cs, i, j) {
      MateBack(cs[j], cs[i]);
    }
  }

  // ---------- checking ----------

  datatype Status = OK | NONE | BAD

  /** OK exactly when every bracket fits and is closed, and no more than 256 are ever open. */
  method Check(toks: seq<Tok>, data: seq<Byte>) returns (st: Status)
    requires Readable(toks, data)
    ensures st == OK || st == BAD
    ensures st == OK <==> Balanced(Bytes(toks, data)) && forall n | 0 <= n <= |toks| :: Shallow(Bytes(toks, data), n)
  {
    hide Stack, Balanced, Mate, IsOpen, IsClose;
    ghost var cs := Bytes(toks, data);
    StackNone(cs);
    var stk := new nat[STACK_MAX];
    var top: nat := 0;
    ghost var open: seq<nat> := [];
    for i := 0 to |toks|
      invariant top == |open| <= STACK_MAX && Stack(cs, i) == Some(open)
      invariant forall p | 0 <= p < top :: stk[p] == cs[open[p]]
      invariant forall n | 0 <= n <= i :: Shallow(cs, n)
    {
      StackStep(cs, i);
      if toks[i].tag == 'P' {
        var c := data[Lo(toks, i)];
        if IsOpen(c) {
          if top >= STACK_MAX {
            assert !Shallow(cs, i + 1);
            return BAD;
          }
          stk[top] := c;
          top := top + 1;
          open := open + [i];
        } else if IsClose(c) {
          if top == 0 {
            NeverFits(cs, i + 1);
            return BAD;
          }
          if stk[top - 1] != Mate(c) {
            NeverFits(cs, i + 1);
            return BAD;
          }
          top := top - 1;
          open := open[..top];
        }
      }
      assert Shallow(cs, i + 1);
    }
    StackEnds(cs);
    st := if top == 0 then OK else BAD;
  }

  lemma StackNone(cs: seq<nat>)
    ensures Stack(cs, 0) == Some([])
  {
  }

  lemma StackEnds(cs: seq<nat>)
    ensures Balanced(cs) <==> Stack(cs, |cs|) == Some([])
  {
  }

  /** The stack after one more token. */
  lemma StackStep(cs: seq<nat>, n: nat)
    requires n < |cs| && Stack(cs, n).Some?
    ensures var s, c := Stack(cs, n).value, cs[n];
      && (IsOpen(c) ==> Stack(cs, n + 1) == Some(s + [n]) && !IsClose(c))
      && (IsClose(c) ==> Stack(cs, n + 1) == if s == [] || cs[s[|s| - 1]] != Mate(c) then None else Some(s[..|s| - 1]))
      && (!IsOpen(c) && !IsClose(c) ==> Stack(cs, n + 1) == Some(s))
    ensures !IsOpen(0) && !IsClose(0)
  {
  }

  ghost predicate Shallow(cs: seq<nat>, n: nat) {
    n <= |cs| && Stack(cs, n).Some? && |Stack(cs, n).value| <= STACK_MAX
  }

  lemma NeverFits(cs: seq<nat>, n: nat)
    requires n <= |cs| && Stack(cs, n).None?
    ensures !Balanced(cs)
  {
    if Balanced(cs) {
      StackHolds(cs, n, |cs|);
    }
  }

  /** How many brackets are open at `at`: the stack's height. */
  method Depth(toks: seq<Tok>, data: seq<Byte>, at: nat) returns (depth: nat)
    requires Readable(toks, data)
    ensures var cs, n := Bytes(toks, data), if at < |toks| then at else |toks|;
      Stack(cs, n).Some? ==> depth == |Stack(cs, n).value|
  {
    ghost var cs := Bytes(toks, data);
    depth := 0;
    var n := if at < |toks| then at else |toks|;
    for i := 0 to n
      invariant Stack(cs, i).Some? ==> depth == |Stack(cs, i).value|
    {
      if toks[i].tag == 'P' {
        var c := data[Lo(toks, i)];
        if IsOpen(c) {
          depth := depth + 1;
        } else if IsClose(c) && depth > 0 {
          depth := depth - 1;
        }
      }
    }
  }

  // ---------- the enclosing pair ----------

  /** Pair (i, j) encloses the gap before `at`. */
  ghost predicate Encloses(cs: seq<nat>, i: nat, j: nat, at: nat) {
    Pair(cs, i, j) && i < at <= j
  }

  /** What encloses `at` is what is on the stack there, and closed behind it. */
  lemma EnclosedByStack(cs: seq<nat>, i: nat, j: nat, at: nat)
    requires Pair(cs, i, j) && at <= |cs| && Stack(cs, at).Some?
    ensures i < at <= j <==> i in Stack(cs, at).value
  {
    hide Stack;
    StackBelow(cs, at);
    if i < at <= j {
      assert Held(cs, i, at);
      var s := Stack(cs, i).value;
      assert (s + [i])[|s|] == i && Stack(cs, at).value[|s|] == i;
    } else if i in Stack(cs, at).value && j < at {
      var p :| 0 <= p < |Stack(cs, at).value| && Stack(cs, at).value[p] == i;
      Since(cs, at, p, i);
      Since(cs, at, p, j + 1);
    }
  }

  lemma StackBelow(cs: seq<nat>, at: nat)
    requires at <= |cs| && Stack(cs, at).Some?
    ensures forall p | 0 <= p < |Stack(cs, at).value| :: Stack(cs, at).value[p] < at
  {
  }

  /** The stack's entries ascend. */
  lemma StackAscends(cs: seq<nat>, n: nat, p: nat, q: nat)
    requires n <= |cs| && Stack(cs, n).Some? && p < q < |Stack(cs, n).value|
    ensures Stack(cs, n).value[p] < Stack(cs, n).value[q]
  {
    hide Stack;
    var s := Stack(cs, n).value;
    StackBelow(cs, n);
    Since(cs, n, q, s[q]);
    StackBelow(cs, s[q]);
    assert s[..q][p] == s[p];
  }

  /** The tightest pair around `at`. */
  ghost predicate Tightest(cs: seq<nat>, i: nat, j: nat, at: nat) {
    Encloses(cs, i, j, at) && forall x: nat, y: nat :: Encloses(cs, x, y, at) ==> x <= i && j <= y
  }

  ghost predicate Widest(cs: seq<nat>, i: nat, j: nat, at: nat) {
    Encloses(cs, i, j, at) && forall x: nat, y: nat :: Encloses(cs, x, y, at) ==> i <= x && y <= j
  }

  /** Pairs around one place nest: a later open bracket closes earlier. */
  lemma Nested(cs: seq<nat>, i: nat, j: nat, x: nat, y: nat, at: nat)
    requires Encloses(cs, i, j, at) && Encloses(cs, x, y, at) && x <= i
    ensures j <= y
  {
    hide Stack, Pair;
    PairFacts(cs, x, y);
    if x == i {
      PairOnce(cs, i, j, x, y);
    } else if j > y {
      Higher(cs, x, y, i);
      Higher(cs, i, j, y + 1);
    }
  }

  /** The top of the stack at `at` is its tightest pair's open bracket. */
  lemma TopIsTightest(cs: seq<nat>, at: nat, j: nat)
    requires Balanced(cs) && at <= |cs| && Stack(cs, at).Some? && Stack(cs, at).value != []
    requires Pair(cs, Stack(cs, at).value[|Stack(cs, at).value| - 1], j)
    ensures Tightest(cs, Stack(cs, at).value[|Stack(cs, at).value| - 1], j, at)
  {
    hide Stack, Pair, Balanced;
    var s := Stack(cs, at).value;
    var i := s[|s| - 1];
    EnclosedByStack(cs, i, j, at);
    forall x: nat, y: nat | Encloses(cs, x, y, at)
      ensures x <= i && j <= y
    {
      EnclosedByStack(cs, x, y, at);
      var p :| 0 <= p < |s| && s[p] == x;
      if p < |s| - 1 {
        StackAscends(cs, at, p, |s| - 1);
      }
      Nested(cs, i, j, x, y, at);
    }
  }

  /** In a balanced stream: the tightest pair around `at`, if there is any. */
  method Inner(toks: seq<Tok>, data: seq<Byte>, at: nat) returns (st: Status, from: nat, till: nat)
    requires Readable(toks, data) && at <= |toks| && Balanced(Bytes(toks, data))
    ensures var cs := Bytes(toks, data);
      && Stack(cs, at).Some? && (st == OK <==> Stack(cs, at).value != []) && (st == OK || st == NONE)
      && (st == OK ==> from == Stack(cs, at).value[|Stack(cs, at).value| - 1] && Tightest(cs, from, till, at))
      && (st == NONE ==> forall i, j :: !Encloses(cs, i, j, at))
  {
    hide Balanced, Pair, Tightest, Matches;
    ghost var cs := Bytes(toks, data);
    BalancedHolds(cs, at);
    ghost var s := Stack(cs, at).value;
    from, till := 0, 0;
    var depth, i := 0, at;
    while i > 0
      invariant 0 <= i <= at && depth >= 0 && Stack(cs, i).Some? && depth == |Stack(cs, i).value| - |s|
      invariant s != [] ==> s[|s| - 1] < i
    {
      i := i - 1;
      BalancedHolds(cs, i);
      if toks[i].tag == 'P' {
        var c := data[Lo(toks, i)];
        if IsClose(c) {
          depth := depth + 1;
        } else if IsOpen(c) {
          if depth == 0 {
            TopHere(cs, at, i);
            var m := Match(toks, data, i);
            MatchIsPartner(cs, i, m);
            TopIsTightest(cs, at, m);
            TightestEnds(cs, i, m, at);
            if m < 0 || m < at {
              return NONE, from, till;
            }
            return OK, i, m;
          }
          depth := depth - 1;
        }
      }
      if s != [] && s[|s| - 1] >= i {
        Since(cs, at, |s| - 1, i);
      }
    }
    NoneEncloses(cs, at);
    st := NONE;
  }

  lemma BalancedHolds(cs: seq<nat>, n: nat)
    requires Balanced(cs) && n <= |cs|
    ensures Stack(cs, n).Some?
  {
    StackHolds(cs, n, |cs|);
  }

  lemma TightestEnds(cs: seq<nat>, i: nat, j: nat, at: nat)
    requires Tightest(cs, i, j, at)
    ensures i < at <= j
  {
  }

  lemma NoneEncloses(cs: seq<nat>, at: nat)
    requires at <= |cs| && Stack(cs, at) == Some([])
    ensures forall i, j :: !Encloses(cs, i, j, at)
  {
    hide Pair;
    forall i: nat, j: nat
      ensures !Encloses(cs, i, j, at)
    {
      if Encloses(cs, i, j, at) {
        EnclosedByStack(cs, i, j, at);
      }
    }
  }

  /** Scanning back, the first open bracket met at depth zero is the top of the stack. */
  lemma TopHere(cs: seq<nat>, at: nat, i: nat)
    requires i < at <= |cs| && Stack(cs, at).Some? && Stack(cs, i).Some? && Stack(cs, i + 1).Some? && IsOpen(cs[i])
    requires |Stack(cs, i + 1).value| == |Stack(cs, at).value|
    requires Stack(cs, at).value != [] ==> Stack(cs, at).value[|Stack(cs, at).value| - 1] <= i
    ensures Stack(cs, at).value != [] && Stack(cs, at).value[|Stack(cs, at).value| - 1] == i
  {
    var s := Stack(cs, at).value;
    assert Stack(cs, i + 1).value == Stack(cs, i).value + [i];
    Since(cs, at, |s| - 1, i + 1);
    assert s[..|s|] == s;
  }

  /** The bottom of the stack at `at` is its widest pair's open bracket. */
  lemma BottomIsWidest(cs: seq<nat>, at: nat, j: nat)
    requires Balanced(cs) && at <= |cs| && Stack(cs, at).Some? && Stack(cs, at).value != []
    requires Pair(cs, Stack(cs, at).value[0], j)
    ensures Widest(cs, Stack(cs, at).value[0], j, at)
  {
    hide Stack, Pair, Balanced;
    var s := Stack(cs, at).value;
    EnclosedByStack(cs, s[0], j, at);
    forall x: nat, y: nat | Encloses(cs, x, y, at)
      ensures s[0] <= x && y <= j
    {
      EnclosedByStack(cs, x, y, at);
      var p :| 0 <= p < |s| && s[p] == x;
      if p > 0 {
        StackAscends(cs, at, 0, p);
      }
      Nested(cs, x, y, s[0], j, at);
    }
  }

  lemma TightestPair(cs: seq<nat>, i: nat, j: nat, at: nat)
    requires Tightest(cs, i, j, at)
    ensures Pair(cs, i, j)
  {
    hide Pair;
  }

  /** In a balanced stream: the widest pair around `at`, found by stepping out pair by pair. */
  method Outer(toks: seq<Tok>, data: seq<Byte>, at: nat) returns (st: Status, from: nat, till: nat)
    requires Readable(toks, data) && at <= |toks| && Balanced(Bytes(toks, data))
    ensures var cs := Bytes(toks, data);
      && (st == OK ==> Widest(cs, from, till, at))
      && (st != OK ==> st == NONE && forall i, j :: !Encloses(cs, i, j, at))
  {
    hide Stack, Balanced, Pair, Tightest, Widest;
    ghost var cs := Bytes(toks, data);
    st, from, till := Inner(toks, data, at);
    if st != OK {
      return;
    }
    TightestPair(cs, from, till, at);
    ghost var s := Stack(cs, at).value;
    ghost var p: nat := |s| - 1;
    while true
      invariant p < |s| && from == s[p] && from <= at && Pair(cs, from, till)
      decreases p
    {
      StackBelow(cs, at);
      Since(cs, at, p, from);
      var o, f, t := Inner(toks, data, from);
      if o != OK {
        break;
      }
      TightestPair(cs, f, t, from);
      assert s[..p][p - 1] == s[p - 1];
      from, till, p := f, t, p - 1;
    }
    BottomIsWidest(cs, at, till);
    st := OK;
  }
}
